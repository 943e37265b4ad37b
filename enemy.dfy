/** Enemies: entities that close in on the player one cell per turn, mark
    the player's cell with a push or a melee threat when they stand next to
    it, and carry those threats out on their next turn. */
module Enemies {
  import opened Pathing
  import opened Entities
  import opened Players
  import opened GameSession

  /** An enemy's maximum health. */
  const EnemyMaxHealth: int := 5

  /** Paths of this length or longer are out of an enemy's sight. */
  const VisionRange: int := 10

  /** A marked tile. The game makes each mark a child of the enemy, so a
      mark is kept as its `offset` from the enemy's cell and moves with the
      enemy. A push moves the player one cell along (dx, dy) and a melee
      hit takes one point; either lands only if the player stands on the
      cell under the mark when it goes off. */
  datatype Threat =
    | PushThreat(offset: Position, dx: int, dy: int)
    | MeleeThreat(offset: Position)

  /** The offset of `p` from `from`. */
  function OffsetTo(from: Position, p: Position): (d: Position)
    ensures Step(from, d.x, d.y) == p
  {
    Position(p.x - from.x, p.y - from.y)
  }

  /** The cell under a mark while its enemy stands on `at`. */
  function MarkedCell(t: Threat, at: Position): Position
  {
    Step(at, t.offset.x, t.offset.y)
  }

  /** Orthogonally adjacent cells. */
  predicate Adjacent(a: Position, b: Position)
  {
    Abs(a.x - b.x) + Abs(a.y - b.y) == 1
  }

  /** One of the four unit steps. */
  predicate UnitStep(dx: int, dy: int)
  {
    Abs(dx) + Abs(dy) == 1
  }

  /** The threat of an enemy standing on the side of the player opposite
      to (dx, dy): a push along (dx, dy) when the cell beyond the player is
      blocked (lava, a wall or an entity) and no enemy stands there, a melee
      hit otherwise; nothing when the enemy is elsewhere. */
  function SideThreat(enemy: Position, player: Position, dx: int, dy: int,
                      blocked: set<Position>, occupied: seq<Position>): seq<Threat>
  {
    if enemy == Step(player, -dx, -dy) then
      var far := Step(player, dx, dy);
      var d := OffsetTo(enemy, player);
      if far in blocked && far !in occupied then [PushThreat(d, dx, dy)] else [MeleeThreat(d)]
    else []
  }

  /** The four side tests in the game's order: enemy above (pushing down),
      below (pushing up), left (pushing right), right (pushing left). */
  function AdjacentThreats(enemy: Position, player: Position,
                           blocked: set<Position>, occupied: seq<Position>): seq<Threat>
  {
    SideThreat(enemy, player, 0, -1, blocked, occupied) +
    SideThreat(enemy, player, 0, 1, blocked, occupied) +
    SideThreat(enemy, player, 1, 0, blocked, occupied) +
    SideThreat(enemy, player, -1, 0, blocked, occupied)
  }

  /** The side tests exclude one another: an enemy makes one threat when it
      stands next to the player and none otherwise, and the threat marks
      the player's cell while the enemy stays where it is. */
  lemma AtMostOneThreat(enemy: Position, player: Position, blocked: set<Position>, occupied: seq<Position>)
    ensures |AdjacentThreats(enemy, player, blocked, occupied)| <= 1
    ensures |AdjacentThreats(enemy, player, blocked, occupied)| == 1 <==> Adjacent(enemy, player)
    ensures forall t :: t in AdjacentThreats(enemy, player, blocked, occupied) ==> MarkedCell(t, enemy) == player
  {
  }

  /** A push away from the enemy is chosen exactly when the cell beyond the
      player is blocked and free of enemies; otherwise a melee hit. Either
      mark lies one step from the enemy, in the direction of the push. */
  lemma PushOrMelee(player: Position, dx: int, dy: int, blocked: set<Position>, occupied: seq<Position>)
    requires UnitStep(dx, dy)
    ensures var enemy := Step(player, -dx, -dy);
            var far := Step(player, dx, dy);
            AdjacentThreats(enemy, player, blocked, occupied) ==
              if far in blocked && far !in occupied then [PushThreat(Position(dx, dy), dx, dy)]
              else [MeleeThreat(Position(dx, dy))]
  {
  }

  /** What a threat can change about the player. */
  datatype PlayerView = PlayerView(health: int, stored: int, position: Position, blocked: set<Position>)

  function ViewOf(p: PlayerController): PlayerView
    reads p, p.entity, p.entity.grid, p.data
  {
    PlayerView(p.health, p.data.playerHealth, p.entity.position, p.entity.grid.blocked)
  }

  /** The player after a threat of an enemy standing on `at` goes off:
      nothing unless the player is on the cell under the mark; a push takes
      the maximum health and then moves the player one cell on; a melee hit
      takes one point. */
  function Activated(v: PlayerView, t: Threat, at: Position): PlayerView
  {
    if v.position != MarkedCell(t, at) then v
    else match t
      case PushThreat(_, dx, dy) =>
        var h := ChangedHealth(v.health, -MaxHealth);
        var q := Step(v.position, dx, dy);
        PlayerView(h, h, q, MovedBlocked(v.blocked, v.position, q))
      case MeleeThreat(_) =>
        var h := ChangedHealth(v.health, -1);
        v.(health := h, stored := h)
  }

  /** The threats of an enemy standing on `at` going off in order. */
  function ActivatedAll(v: PlayerView, ts: seq<Threat>, at: Position): PlayerView
    decreases |ts|
  {
    if |ts| == 0 then v
    else Activated(ActivatedAll(v, ts[..|ts| - 1], at), ts[|ts| - 1], at)
  }

  /** A push threat that goes off while its enemy still stands where it
      marked the player kills a player at or below the maximum health and
      moves it off the marked cell. */
  lemma PushKills(v: PlayerView, dx: int, dy: int)
    requires v.health <= MaxHealth && UnitStep(dx, dy)
    ensures var w := Activated(v, PushThreat(Position(dx, dy), dx, dy), Step(v.position, -dx, -dy));
            w.health < 1 && w.position == Step(v.position, dx, dy) && w.position in w.blocked
  {
    LethalBlowKills(v.health, 0);
  }

  /** A mark lies on the cell it was made on exactly while its enemy stands
      where it stood: once the enemy has been pushed or has stepped, the
      mark misses a player who has stayed put. */
  lemma MovedMarkMisses(enemy: Position, player: Position, blocked: set<Position>, occupied: seq<Position>,
                        at: Position, v: PlayerView)
    requires v.position == player
    ensures forall t :: t in AdjacentThreats(enemy, player, blocked, occupied) ==>
              (MarkedCell(t, at) == player <==> at == enemy) && (at != enemy ==> Activated(v, t, at) == v)
  {
  }

  /** The entries at even indices. */
  function Evens<T>(s: seq<T>): (r: seq<T>)
    ensures |r| == (|s| + 1) / 2
    ensures forall k :: 0 <= k < |r| ==> r[k] == s[2 * k]
  {
    seq((|s| + 1) / 2, k requires 0 <= k < (|s| + 1) / 2 => s[2 * k])
  }

  /** The entries at odd indices. */
  function Odds<T>(s: seq<T>): (r: seq<T>)
    ensures |r| == |s| / 2
    ensures forall k :: 0 <= k < |r| ==> r[k] == s[2 * k + 1]
  {
    seq(|s| / 2, k requires 0 <= k < |s| / 2 => s[2 * k + 1])
  }

  /** Growing a sequence by one entry grows the even or the odd half. */
  lemma HalvesGrow<T>(s: seq<T>, x: T)
    ensures |s| % 2 == 0 ==> Evens(s + [x]) == Evens(s) + [x] && Odds(s + [x]) == Odds(s)
    ensures |s| % 2 == 1 ==> Odds(s + [x]) == Odds(s) + [x] && Evens(s + [x]) == Evens(s)
  {
    var t := s + [x];
    if |s| % 2 == 0 {
      assert Evens(t) == Evens(s) + [x];
    } else {
      assert Odds(t) == Odds(s) + [x];
    }
  }

  /** The two halves together hold exactly the entries of the sequence. */
  lemma {:induction false} HalvesPartition<T>(s: seq<T>)
    ensures multiset(Evens(s)) + multiset(Odds(s)) == multiset(s)
    decreases |s|
  {
    if |s| > 0 {
      var init := s[..|s| - 1];
      HalvesPartition(init);
      HalvesGrow(init, s[|s| - 1]);
      assert s == init + [s[|s| - 1]];
    }
  }

  /** The game's list of live enemies. */
  class EnemyRoster {
    var enemies: seq<Enemy>

    constructor (enemies: seq<Enemy>)
      ensures this.enemies == enemies
    {
      this.enemies := enemies;
    }
  }

  /** Where the enemies stand, in list order. */
  function Positions(enemies: seq<Enemy>): (ps: seq<Position>)
    reads set i | 0 <= i < |enemies| :: enemies[i].entity
    ensures |ps| == |enemies|
    ensures forall i :: 0 <= i < |enemies| ==> ps[i] == enemies[i].entity.position
  {
    seq(|enemies|, i requires 0 <= i < |enemies| reads set j | 0 <= j < |enemies| :: enemies[j].entity =>
          enemies[i].entity.position)
  }

  /** The list without the first occurrence of `x`. */
  function RemovedOnce<T(==)>(s: seq<T>, x: T): (r: seq<T>)
    ensures x !in s ==> r == s
    ensures x in s ==> |r| == |s| - 1
    ensures multiset(r) == multiset(s) - multiset{x}
  {
    if |s| == 0 then []
    else
      assert s == [s[0]] + s[1..];
      if s[0] == x then s[1..]
      else [s[0]] + RemovedOnce(s[1..], x)
  }

  class Enemy {
    const entity: Entity
    var health: int
    /** The threats marked for the next turn, oldest first. */
    var indicators: seq<Threat>
    /** The player the threats go off against: the last one handled. */
    var playerController: PlayerController?
    const roster: EnemyRoster

    /** A new enemy at full health with nothing marked. */
    constructor (entity: Entity, roster: EnemyRoster)
      ensures this.entity == entity && this.roster == roster
      ensures health == EnemyMaxHealth && indicators == [] && playerController == null
    {
      this.entity := entity;
      this.roster := roster;
      health := EnemyMaxHealth;
      indicators := [];
      playerController := null;
    }

    /** The enemy's turn: with the player's cell freed, take the first step
        of the path to the player when it is longer than two cells and
        shorter than the vision range, block the player's cell again, then
        mark the player's cell if the enemy now stands next to it. */
    method HandleTurn(player: PlayerController)
      requires player.entity.grid == entity.grid && player.entity != entity
      modifies this, entity, entity.grid
      ensures playerController == player && health == old(health)
      ensures var p := player.entity.position;
              var path := entity.grid.router(old(entity.grid.blocked) - {p}, old(entity.position), p);
              var moves := 2 < |path| < VisionRange;
              var freed := old(entity.grid.blocked) - {p};
              entity.position == (if moves then path[1] else old(entity.position)) &&
              entity.grid.blocked == (if moves then MovedBlocked(freed, old(entity.position), path[1]) else freed) + {p}
      ensures player.entity.position in entity.grid.blocked
      ensures indicators == old(indicators) +
                AdjacentThreats(entity.position, player.entity.position, entity.grid.blocked, Positions(roster.enemies))
    {
      playerController := player;
      var p := player.entity.position;
      StepTowards(p);
      Threaten(p, 0, -1);
      Threaten(p, 0, 1);
      Threaten(p, 1, 0);
      Threaten(p, -1, 0);
    }

    /** The movement part of a turn: with the player's cell `p` freed,
        take the first step of the path to it when the path is longer than
        two cells and shorter than the vision range, then block `p` again. */
    method StepTowards(p: Position)
      modifies entity, entity.grid
      ensures var path := entity.grid.router(old(entity.grid.blocked) - {p}, old(entity.position), p);
              var moves := 2 < |path| < VisionRange;
              var freed := old(entity.grid.blocked) - {p};
              entity.position == (if moves then path[1] else old(entity.position)) &&
              entity.grid.blocked == (if moves then MovedBlocked(freed, old(entity.position), path[1]) else freed) + {p}
    {
      var grid := entity.grid;
      grid.UnblockCell(p);
      var path := grid.GetPath(entity.position, p);
      if |path| < VisionRange && |path| > 2 {
        entity.MoveToTile(path[1]);
      }
      grid.BlockCell(p);
    }

    /** One side test of a turn: an enemy standing on the side of the player
        opposite to (dx, dy) marks a push when the cell beyond is blocked and
        no enemy in the list stands there, a melee hit otherwise. */
    method Threaten(player: Position, dx: int, dy: int)
      modifies this
      ensures indicators == old(indicators) +
                SideThreat(entity.position, player, dx, dy, entity.grid.blocked, Positions(roster.enemies))
      ensures health == old(health) && playerController == old(playerController)
    {
      if entity.position == Step(player, -dx, -dy) {
        var far := Step(player, dx, dy);
        var canPush := false;
        if entity.grid.GetCellCost(far) > 1 {
          canPush := true;
          var enemies := roster.enemies;
          var i := 0;
          while i < |enemies|
            invariant 0 <= i <= |enemies|
            invariant canPush <==> forall k :: 0 <= k < i ==> enemies[k].entity.position != far
          {
            if enemies[i].entity.position == far {
              canPush := false;
            }
            i := i + 1;
          }
          assert canPush <==> far !in Positions(enemies);
        }
        var offset := OffsetTo(entity.position, player);
        if canPush {
          indicators := indicators + [PushThreat(offset, dx, dy)];
        } else {
          indicators := indicators + [MeleeThreat(offset)];
        }
      }
    }

    /** Sets off one marked threat against the player, at the cell under
        the mark where the enemy now stands. */
    method Activate(t: Threat, player: PlayerController)
      modifies player, player.entity, player.entity.grid, player.data
      ensures ViewOf(player) == Activated(old(ViewOf(player)), t, old(entity.position))
      ensures SessionOf(player.data) == old(SessionOf(player.data))
    {
      if player.entity.position == MarkedCell(t, entity.position) {
        match t
        case PushThreat(_, dx, dy) =>
          player.ChangeHealth(-MaxHealth);
          player.entity.MoveToTile(Step(player.entity.position, dx, dy));
        case MeleeThreat(_) =>
          player.ChangeHealth(-1);
      }
    }

    /** Goes through the marked threats by index, setting each off unless
        only clearing, and removing it from the list. Removing an entry
        while also moving the index on skips the entry after it: only the
        threats at even indices go off and are removed, and those at odd
        indices stay marked. The marks go off where the enemy stands now,
        which is not the player's entity. */
    method ResolveAttack(justClear: bool)
      requires !justClear && indicators != [] ==> playerController != null
      requires playerController != null ==> playerController.entity != entity
      modifies this, PlayerFrame(playerController)
      ensures indicators == Odds(old(indicators))
      ensures health == old(health) && playerController == old(playerController)
      ensures entity.position == old(entity.position)
      ensures !justClear && playerController != null ==>
                ViewOf(playerController) ==
                  ActivatedAll(old(ViewOf(playerController)), Evens(old(indicators)), entity.position)
      ensures justClear && playerController != null ==> ViewOf(playerController) == old(ViewOf(playerController))
      ensures playerController != null ==>
                SessionOf(playerController.data) == old(SessionOf(playerController.data))
    {
      var player := playerController;
      ghost var start := indicators;
      ghost var startView := if player == null then PlayerView(0, 0, Position(0, 0), {}) else ViewOf(player);
      ghost var at := entity.position;
      var i := 0;
      while i < |indicators|
        invariant playerController == player && health == old(health)
        invariant entity.position == at
        invariant 2 * i <= |start| + 1
        invariant !justClear && start != [] ==> player != null
        invariant indicators == Remaining(start, i)
        invariant player != null ==>
                    ViewOf(player) == if justClear then startView else ActivatedAll(startView, Fired(start, i), at)
        invariant player != null ==> SessionOf(player.data) == old(SessionOf(player.data))
        decreases |indicators| - i
      {
        RemainingLength(start, i);
        ResolveStep(start, i);
        ActivatedAllAppend(startView, Fired(start, i), start[2 * i], at);
        TakeAt(i, justClear);
        i := i + 1;
      }
      RemainingLength(start, i);
      ResolveDone(start, i);
    }

    /** Adds to the health. An enemy left with no health leaves the list
        of live enemies and frees its cell; health is then capped at the
        maximum. */
    method ChangeHealth(healthChange: int)
      modifies this, roster, entity.grid
      ensures var h := old(health) + healthChange;
              health == (if h > EnemyMaxHealth then EnemyMaxHealth else h) &&
              (h <= 0 ==> roster.enemies == RemovedOnce(old(roster.enemies), this) &&
                          entity.grid.blocked == old(entity.grid.blocked) - {entity.position}) &&
              (h > 0 ==> roster.enemies == old(roster.enemies) && entity.grid.blocked == old(entity.grid.blocked))
      ensures indicators == old(indicators) && playerController == old(playerController)
    {
      health := health + healthChange;
      if health <= 0 {
        roster.enemies := RemovedOnce(roster.enemies, this);
        entity.grid.UnblockCell(entity.position);
      }
      if health > EnemyMaxHealth {
        health := EnemyMaxHealth;
      }
    }

    /** Pushed onto a cell: the enemy always moves there, and a cell that
        was blocked beforehand (lava, or the enemy's own cell when the push
        is stopped at once) then takes the maximum health. An enemy that
        dies there frees the cell it died on. */
    method PushedToTile(p: Position)
      modifies this, entity, entity.grid, roster
      ensures entity.position == p
      ensures indicators == old(indicators) && playerController == old(playerController)
      ensures var lava := p in old(entity.grid.blocked);
              var moved := MovedBlocked(old(entity.grid.blocked), old(entity.position), p);
              var h := old(health) - EnemyMaxHealth;
              var dies := lava && h <= 0;
              health == (if !lava then old(health) else if h > EnemyMaxHealth then EnemyMaxHealth else h) &&
              (dies ==> roster.enemies == RemovedOnce(old(roster.enemies), this) && entity.grid.blocked == moved - {p}) &&
              (!dies ==> roster.enemies == old(roster.enemies) && entity.grid.blocked == moved)
      ensures p in old(entity.grid.blocked) && old(health) <= EnemyMaxHealth ==> p !in entity.grid.blocked
    {
      if entity.grid.GetCellCost(p) > 1 {
        entity.MoveToTile(p);
        ChangeHealth(-EnemyMaxHealth);
      } else {
        entity.MoveToTile(p);
      }
    }

    /** One round of ResolveAttack: sets off the threat at index `i`
        unless only clearing, and removes it from the list. */
    method TakeAt(i: nat, justClear: bool)
      requires i < |indicators|
      requires !justClear ==> playerController != null
      requires playerController != null ==> playerController.entity != entity
      modifies this, PlayerFrame(playerController)
      ensures indicators == old(indicators[..i] + indicators[i + 1..])
      ensures health == old(health) && playerController == old(playerController)
      ensures entity.position == old(entity.position)
      ensures playerController != null ==>
                ViewOf(playerController) ==
                  if justClear then old(ViewOf(playerController))
                  else Activated(old(ViewOf(playerController)), old(indicators[i]), old(entity.position))
      ensures playerController != null ==>
                SessionOf(playerController.data) == old(SessionOf(playerController.data))
    {
      if !justClear {
        Activate(indicators[i], playerController);
      }
      indicators := indicators[..i] + indicators[i + 1..];
    }
  }

  /** Everything setting off a threat against the player may change. */
  function PlayerFrame(p: PlayerController?): set<object>
  {
    if p == null then {} else {p, p.entity, p.entity.grid, p.data}
  }

  /** The list after `i` rounds of the resolve loop: the first 2i
      entries have been taken in turns, the even ones removed. */
  ghost function Remaining<T>(start: seq<T>, i: nat): seq<T>
  {
    if 2 * i <= |start| then Odds(start[..2 * i]) + start[2 * i..] else Odds(start)
  }

  /** The threats set off in the first `i` rounds. */
  ghost function Fired<T>(start: seq<T>, i: nat): seq<T>
  {
    if 2 * i <= |start| then Evens(start[..2 * i]) else Evens(start)
  }

  /** Setting off one more threat after a run of them. */
  lemma ActivatedAllAppend(v: PlayerView, ts: seq<Threat>, t: Threat, at: Position)
    ensures ActivatedAll(v, ts + [t], at) == Activated(ActivatedAll(v, ts, at), t, at)
  {
    assert (ts + [t])[..|ts|] == ts;
  }

  /** One round of the resolve loop: index `i` holds entry 2i of the
      original list, removing it gives the next round's list, and it is
      the next threat set off. */
  lemma ResolveStep<T>(start: seq<T>, i: nat)
    requires 2 * i < |start|
    ensures i < |Remaining(start, i)| && Remaining(start, i)[i] == start[2 * i]
    ensures Remaining(start, i)[..i] + Remaining(start, i)[i + 1..] == Remaining(start, i + 1)
    ensures Fired(start, i + 1) == Fired(start, i) + [start[2 * i]]
  {
    var rest := Odds(start[..2 * i]) + start[2 * i..];
    assert Remaining(start, i) == rest && Fired(start, i) == Evens(start[..2 * i]);
    if 2 * i + 2 <= |start| {
      StepInside(start, i);
      assert Remaining(start, i + 1) == Odds(start[..2 * i + 2]) + start[2 * i + 2..];
      assert Fired(start, i + 1) == Evens(start[..2 * i + 2]);
    } else {
      StepLast(start, i);
      assert Remaining(start, i + 1) == Odds(start) && Fired(start, i + 1) == Evens(start);
    }
  }

  /** A round that leaves entries after the next one. */
  lemma StepInside<T>(start: seq<T>, i: nat)
    requires 2 * i + 2 <= |start|
    ensures var rest := Odds(start[..2 * i]) + start[2 * i..];
            rest[i] == start[2 * i] &&
            rest[..i] + rest[i + 1..] == Odds(start[..2 * i + 2]) + start[2 * i + 2..] &&
            Evens(start[..2 * i + 2]) == Evens(start[..2 * i]) + [start[2 * i]]
  {
    var rest := Odds(start[..2 * i]) + start[2 * i..];
    GrowTwice(start, i);
    assert rest[..i] == Odds(start[..2 * i]);
    assert rest[i + 1..] == start[2 * i + 1..];
    assert start[2 * i + 1..] == [start[2 * i + 1]] + start[2 * i + 2..];
  }

  /** The round on the last entry of an odd-length list. */
  lemma StepLast<T>(start: seq<T>, i: nat)
    requires 2 * i + 1 == |start|
    ensures var rest := Odds(start[..2 * i]) + start[2 * i..];
            rest[i] == start[2 * i] &&
            rest[..i] + rest[i + 1..] == Odds(start) &&
            Evens(start) == Evens(start[..2 * i]) + [start[2 * i]]
  {
    var prefix := start[..2 * i];
    var rest := Odds(prefix) + start[2 * i..];
    assert start == prefix + [start[2 * i]];
    HalvesGrow(prefix, start[2 * i]);
    assert rest[..i] == Odds(prefix);
    assert rest[i + 1..] == [];
  }

  /** The halves of the first 2i + 2 entries, from those of the first 2i. */
  lemma GrowTwice<T>(start: seq<T>, i: nat)
    requires 2 * i + 2 <= |start|
    ensures Odds(start[..2 * i + 2]) == Odds(start[..2 * i]) + [start[2 * i + 1]]
    ensures Evens(start[..2 * i + 2]) == Evens(start[..2 * i]) + [start[2 * i]]
  {
    var prefix := start[..2 * i];
    assert start[..2 * i + 1] == prefix + [start[2 * i]];
    assert start[..2 * i + 2] == start[..2 * i + 1] + [start[2 * i + 1]];
    HalvesGrow(prefix, start[2 * i]);
    HalvesGrow(start[..2 * i + 1], start[2 * i + 1]);
  }

  /** The length of the list after `i` rounds. */
  lemma RemainingLength<T>(start: seq<T>, i: nat)
    ensures |Remaining(start, i)| == if 2 * i <= |start| then |start| - i else |start| / 2
  {
  }

  /** When the index passes the end of the list, the odd entries remain
      and the even ones have gone off. */
  lemma ResolveDone<T>(start: seq<T>, i: nat)
    requires i >= |Remaining(start, i)| && 2 * i <= |start| + 1
    ensures Remaining(start, i) == Odds(start) && Fired(start, i) == Evens(start)
  {
    if 2 * i <= |start| {
      assert start[..2 * i] == start;
    }
  }
}
