/** Playing a card: its actions are carried out one at a time, front
    first. Actions that need no choice (heal, damage, bomb, draw, and a move
    with nowhere to go) finish at once; the others mark cells and wait for
    one of them to be clicked. When no action is left, the card loses a use
    and goes back to the hand, or leaves it when it has none left, and the
    enemies take their turn. */
module Actions {
  import opened Pathing
  import opened Entities
  import opened Cards
  import opened GameSession
  import opened Players
  import opened Enemies
  import opened Targeting
  import opened MoveScan

  /** A clickable marked cell: an attack of `amount` damage, a push of
      `distance` cells away from `from`, or a cell to walk to. */
  datatype Indicator =
    | AttackIndicator(cell: Position, amount: int)
    | PushIndicator(cell: Position, distance: int, from: Position)
    | WalkIndicator(cell: Position)

  function AttackIndicators(cells: seq<Position>, amount: int): (r: seq<Indicator>)
    ensures |r| == |cells| && forall i :: 0 <= i < |cells| ==> r[i] == AttackIndicator(cells[i], amount)
  {
    seq(|cells|, i requires 0 <= i < |cells| => AttackIndicator(cells[i], amount))
  }

  /** Marking two lists of cells one after the other marks their
      concatenation. */
  lemma AttackIndicatorsAppend(a: seq<Position>, b: seq<Position>, amount: int)
    ensures AttackIndicators(a + b, amount) == AttackIndicators(a, amount) + AttackIndicators(b, amount)
  {
  }

  function PushIndicators(p: Position, distance: int): (r: seq<Indicator>)
    ensures |r| == 4 && forall i :: 0 <= i < 4 ==> r[i] == PushIndicator(MeleeTargets(p)[i], distance, p)
  {
    seq(4, i requires 0 <= i < 4 => PushIndicator(MeleeTargets(p)[i], distance, p))
  }

  function WalkIndicators(cells: seq<Position>): (r: seq<Indicator>)
    ensures |r| == |cells| && forall i :: 0 <= i < |cells| ==> r[i] == WalkIndicator(cells[i])
  {
    seq(|cells|, i requires 0 <= i < |cells| => WalkIndicator(cells[i]))
  }

  /** The player's health and the carried-over copy of it. */
  datatype Vitals = Vitals(health: int, stored: int)

  /** What an action that finishes at once does to the player. */
  function Effect(v: Vitals, a: Action): Vitals
  {
    match a.actionType
    case Heal => var h := ChangedHealth(v.health, a.amount); Vitals(h, h)
    case Damage => var h := ChangedHealth(v.health, -a.amount); Vitals(h, h)
    case _ => v
  }

  /** The actions' effects, front first. */
  function VitalsAfter(v: Vitals, actions: seq<Action>): Vitals
    decreases |actions|
  {
    if |actions| == 0 then v else VitalsAfter(Effect(v, actions[0]), actions[1..])
  }

  /** Running actions never lifts health above the maximum, and actions
      without a heal or damage leave the player as it was. */
  lemma {:induction false} VitalsAfterBounded(v: Vitals, actions: seq<Action>)
    ensures v.health <= MaxHealth ==> VitalsAfter(v, actions).health <= MaxHealth
    ensures (forall a :: a in actions ==> a.actionType != Heal && a.actionType != Damage) ==>
              VitalsAfter(v, actions) == v
    decreases |actions|
  {
    if |actions| > 0 {
      var a := actions[0];
      ChangedHealthMeaning(v.health, a.amount);
      ChangedHealthMeaning(v.health, -a.amount);
      VitalsAfterBounded(Effect(v, a), actions[1..]);
      assert forall x :: x in actions[1..] ==> x in actions;
    }
  }

  /** What the action queue reads of the level: the blocked cells, the
      player's cell, the grid size and the path search. */
  datatype Board = Board(blocked: set<Position>, player: Position, dimX: nat, dimY: nat,
                         router: (set<Position>, Position, Position) -> seq<Position>)

  /** The move scan of an action of `amount`, with the player's cell freed. */
  function ScanOf(b: Board, amount: int): ScanEnv
  {
    ScanEnv(b.blocked - {b.player}, b.player, amount, b.dimX, b.dimY, b.router)
  }

  /** An action that marks cells and waits for a click. */
  predicate Waits(b: Board, a: Action)
  {
    a.actionType == Melee || a.actionType == Range || a.actionType == Push ||
    (a.actionType == Move && |MoveTargets(ScanOf(b, a.amount))| > 0)
  }

  /** How many actions finish at once before one waits (all of them when
      none waits). */
  function Pending(b: Board, actions: seq<Action>): (k: nat)
    ensures k <= |actions|
    ensures forall j :: 0 <= j < k ==> !Waits(b, actions[j])
    ensures k < |actions| ==> Waits(b, actions[k])
    decreases |actions|
  {
    if |actions| == 0 then 0
    else if Waits(b, actions[0]) then 0
    else 1 + Pending(b, actions[1..])
  }

  predicate AnyMove(actions: seq<Action>)
  {
    exists a :: a in actions && a.actionType == Move
  }

  /** The blocked cells once `done` has run: a move action frees the
      player's cell for its scan and blocks it again afterwards. */
  function Reblocked(b: Board, done: seq<Action>): set<Position>
  {
    if AnyMove(done) then b.blocked + {b.player} else b.blocked
  }

  /** The cells a waiting action marks. */
  function Marks(b: Board, a: Action): seq<Indicator>
  {
    match a.actionType
    case Melee => AttackIndicators(MeleeTargets(b.player), a.amount)
    case Range => AttackIndicators(RangeTargets(b.player), a.amount)
    case Push => PushIndicators(b.player, a.amount)
    case Move => WalkIndicators(MoveTargets(ScanOf(b, a.amount)))
    case _ => []
  }

  /** The cells a list of marks covers, in order. */
  function Cells(marks: seq<Indicator>): (cs: seq<Position>)
    ensures |cs| == |marks| && forall i :: 0 <= i < |marks| ==> cs[i] == marks[i].cell
  {
    seq(|marks|, i requires 0 <= i < |marks| => marks[i].cell)
  }

  /** A waiting action marks exactly: for a melee or push, the four
      orthogonal neighbours of the player; for a range attack, the cells 2
      to 4 away along the axes; for a move, the scanned cells; each once. */
  lemma MarksCells(b: Board, a: Action, c: Position)
    ensures var p := b.player;
            c in Cells(Marks(b, a)) <==>
              match a.actionType
              case Melee => Abs(c.x - p.x) + Abs(c.y - p.y) == 1
              case Push => Abs(c.x - p.x) + Abs(c.y - p.y) == 1
              case Range => InRange(p, c)
              case Move => c in MoveTargets(ScanOf(b, a.amount))
              case _ => false
    ensures forall i, j :: 0 <= i < j < |Marks(b, a)| ==> Marks(b, a)[i].cell != Marks(b, a)[j].cell
  {
    var p := b.player;
    var cs := Cells(Marks(b, a));
    match a.actionType
    case Melee =>
      MeleeTargetsExact(p, c);
      assert cs == MeleeTargets(p);
    case Push =>
      MeleeTargetsExact(p, c);
      assert cs == MeleeTargets(p);
    case Range =>
      RangeTargetsExact(p, c);
      assert cs == RangeTargets(p);
    case Move =>
      MoveTargetsExact(ScanOf(b, a.amount), c);
      assert cs == MoveTargets(ScanOf(b, a.amount));
    case _ =>
  }

  /** The state an action run starts from: the actions still to do, the
      player and the level, the marked cells, the hand, the number of
      enemy turns, and the played card and its hand slot. */
  datatype Snapshot = Snapshot(actions: seq<Action>, vitals: Vitals, board: Board, indicators: seq<Indicator>,
                               slots: seq<CardSlot>, turns: nat, original: seq<Action>,
                               originalArray: array<Action>, name: string, uses: int, slot: CardSlot)

  /** The state an action run ends in. */
  datatype Outcome = Outcome(vitals: Vitals, position: Position, blocked: set<Position>, temp: Card,
                             remaining: seq<Action>, tempArray: array<Action>, tempName: string, tempUses: int,
                             slots: seq<CardSlot>, turns: nat, indicators: seq<Indicator>)

  /** The actions run before the queue stops: those that finish at once
      and, when one waits, that one too (it marks its cells). */
  function Done(s: Snapshot): seq<Action>
  {
    var k := Pending(s.board, s.actions);
    s.actions[..if k < |s.actions| then k + 1 else k]
  }

  /** The queue stopped at the waiting action `k`: it is still first,
      has marked its cells, and the hand is untouched. */
  ghost predicate StillWaiting(s: Snapshot, o: Outcome, k: nat)
    requires k < |s.actions|
  {
    o.remaining == s.actions[k..] && o.slots == s.slots && o.turns == s.turns &&
    o.indicators == (if s.actions[k].actionType == Move || k > 0 then [] else s.indicators) +
                    Marks(s.board, s.actions[k])
  }

  /** No action was left: the card has been used up, or put back with one
      use fewer and the full action list, and the enemies' turn has come. */
  ghost predicate CardFinished(s: Snapshot, o: Outcome)
  {
    o.tempName == s.name && o.tempUses == s.uses - 1 &&
    o.tempArray == s.originalArray && o.remaining == s.original &&
    o.turns == s.turns + 1 && o.indicators == (if |s.actions| == 0 then s.indicators else []) &&
    if s.uses - 1 == 0 then o.slots == Without(s.slots, s.slot)
    else |o.slots| > 0 && o.slots == Without(s.slots, s.slot) + [o.slots[|o.slots| - 1]] &&
         o.slots[|o.slots| - 1].card == o.temp
  }

  /** Running the actions from `s` ends in `o`: the actions that finish at
      once have had their effect, in order; then either the first waiting
      action has marked its cells and is still first in the queue, or none
      was left and the card is finished. */
  ghost predicate Follows(s: Snapshot, o: Outcome)
  {
    var k := Pending(s.board, s.actions);
    o.vitals == VitalsAfter(s.vitals, s.actions[..k]) &&
    o.position == s.board.player &&
    o.blocked == Reblocked(s.board, Done(s)) &&
    if k < |s.actions| then StillWaiting(s, o, k) else CardFinished(s, o)
  }

  /** The state after the first action finished at once. */
  function Advance(s: Snapshot): Snapshot
    requires |s.actions| > 0
  {
    var a := s.actions[0];
    s.(actions := s.actions[1..], vitals := Effect(s.vitals, a), indicators := [],
       board := if a.actionType == Move then s.board.(blocked := s.board.blocked + {s.board.player}) else s.board)
  }

  /** Blocking the player's cell again changes nothing the queue reads. */
  lemma ReblockInvisible(b: Board, actions: seq<Action>)
    ensures var b' := b.(blocked := b.blocked + {b.player});
            (forall amount :: ScanOf(b', amount) == ScanOf(b, amount)) &&
            Pending(b', actions) == Pending(b, actions) &&
            (forall a :: Marks(b', a) == Marks(b, a))
  {
    var b' := b.(blocked := b.blocked + {b.player});
    assert b'.blocked - {b.player} == b.blocked - {b.player};
    forall amount ensures ScanOf(b', amount) == ScanOf(b, amount) {
    }
    PendingSameWaits(b, b', actions);
  }

  /** Two boards on which the same actions wait give the same count. */
  lemma {:induction false} PendingSameWaits(b: Board, b': Board, actions: seq<Action>)
    requires forall a :: Waits(b, a) == Waits(b', a)
    ensures Pending(b', actions) == Pending(b, actions)
    decreases |actions|
  {
    if |actions| > 0 {
      PendingSameWaits(b, b', actions[1..]);
    }
  }

  /** Advancing past an action that finishes at once: one fewer pending
      action, the same later actions, the same marks, and the same cells
      blocked at the end. */
  lemma AdvanceStep(s: Snapshot)
    requires |s.actions| > 0 && !Waits(s.board, s.actions[0])
    ensures var s1 := Advance(s);
            var k := Pending(s.board, s.actions);
            Pending(s1.board, s1.actions) + 1 == k &&
            s.actions[..k] == [s.actions[0]] + s1.actions[..k - 1] &&
            (k < |s.actions| ==> s.actions[k..] == s1.actions[k - 1..] &&
                                 Marks(s1.board, s.actions[k]) == Marks(s.board, s.actions[k])) &&
            Done(s) == [s.actions[0]] + Done(s1) &&
            Reblocked(s1.board, Done(s1)) == Reblocked(s.board, Done(s))
  {
    var s1 := Advance(s);
    var a := s.actions[0];
    ReblockInvisible(s.board, s1.actions);
    var k := Pending(s.board, s.actions);
    assert s.actions[..k] == [a] + s1.actions[..k - 1];
    var done1 := Done(s1);
    assert Done(s) == [a] + done1;
    assert AnyMove(Done(s)) <==> a.actionType == Move || AnyMove(done1) by {
      assert forall x :: x in Done(s) <==> x == a || x in done1;
    }
    if k < |s.actions| {
      assert s.actions[k..] == s1.actions[k - 1..];
    }
  }

  /** A waiting first action stops the run at once: nothing before it
      had an effect. */
  lemma WaitingFirst(s: Snapshot, o: Outcome)
    requires |s.actions| > 0 && Waits(s.board, s.actions[0])
    requires o.vitals == s.vitals && o.position == s.board.player
    requires o.blocked == Reblocked(s.board, s.actions[..1])
    requires StillWaiting(s, o, 0)
    ensures Follows(s, o)
  {
    assert s.actions[..0] == [];
  }

  /** An action that finishes at once hands the rest of the run on: what
      follows from the advanced state follows from the original one. */
  lemma ChainStep(s: Snapshot, o: Outcome)
    requires |s.actions| > 0 && !Waits(s.board, s.actions[0])
    requires Follows(Advance(s), o)
    ensures Follows(s, o)
  {
    var s1 := Advance(s);
    AdvanceStep(s);
    var k := Pending(s.board, s.actions);
    assert VitalsAfter(s.vitals, s.actions[..k]) == VitalsAfter(s1.vitals, s1.actions[..k - 1]);
    if k < |s.actions| {
      assert StillWaiting(s1, o, k - 1);
    } else {
      assert CardFinished(s1, o);
    }
  }

  /** The first index at which `cell` occurs in `ps`, or |ps| when it
      does not. */
  function FirstIndex(ps: seq<Position>, cell: Position): (k: nat)
    ensures k <= |ps|
    ensures forall j :: 0 <= j < k ==> ps[j] != cell
    ensures k < |ps| ==> ps[k] == cell
    decreases |ps|
  {
    if |ps| == 0 then 0
    else if ps[0] == cell then 0
    else 1 + FirstIndex(ps[1..], cell)
  }

  /** An index before which `cell` does not occur and at which it does
      (or the end) is the first index. */
  lemma {:induction false} FirstIndexAt(ps: seq<Position>, cell: Position, k: nat)
    requires k <= |ps| && forall j :: 0 <= j < k ==> ps[j] != cell
    requires k < |ps| ==> ps[k] == cell
    ensures FirstIndex(ps, cell) == k
    decreases k
  {
    if k > 0 {
      FirstIndexAt(ps[1..], cell, k - 1);
    }
  }

  /** The blocked cells after an enemy at `cell` with `health` is pushed to
      `dest`: it moves there, and dies and frees the cell when `dest` was
      blocked (lava, or the enemy's own cell when the push is stopped at
      once) and the damage takes all its health. */
  function AfterPush(blocked: set<Position>, cell: Position, dest: Position, health: int): set<Position>
  {
    var moved := MovedBlocked(blocked, cell, dest);
    if dest in blocked && health - EnemyMaxHealth <= 0 then moved - {dest} else moved
  }

  class ActionHandler {
    const player: PlayerController
    const roster: EnemyRoster
    const hand: CardHand
    /** The level's path-finding grid, the one the player stands on. */
    const grid: CostGrid
    var activatedCard: Card?
    /** The copy of the played card whose actions are worked through. */
    var tempCard: Card?
    /** The hand slot of the played card. */
    var cardSlot: CardSlot?
    /** The marked cells still clickable. */
    var tileIndicators: seq<Indicator>
    /** How many enemy turns the handler has started. */
    var enemyTurns: nat

    constructor (player: PlayerController, roster: EnemyRoster, hand: CardHand)
      ensures this.player == player && this.roster == roster && this.hand == hand
      ensures grid == player.entity.grid
      ensures activatedCard == null && tempCard == null && cardSlot == null
      ensures tileIndicators == [] && enemyTurns == 0
    {
      this.player := player;
      this.roster := roster;
      this.hand := hand;
      this.grid := player.entity.grid;
      activatedCard := null;
      tempCard := null;
      cardSlot := null;
      tileIndicators := [];
      enemyTurns := 0;
    }

    /** A card is being played: its copy is a different object. */
    ghost predicate Ready()
      reads this
    {
      activatedCard != null && tempCard != null && cardSlot != null &&
      tempCard != activatedCard && player.entity.grid == grid
    }

    ghost function CurrentBoard(): Board
      reads this, player.entity, grid
    {
      Board(grid.blocked, player.entity.position, grid.dimX, grid.dimY, grid.router)
    }

    ghost function Snap(): Snapshot
      requires Ready()
      reads this, player, player.data, player.entity, grid, hand, tempCard, activatedCard
      reads tempCard.actions, activatedCard.actions
    {
      Snapshot(tempCard.actions[..], Vitals(player.health, player.data.playerHealth), CurrentBoard(),
               tileIndicators, hand.slots, enemyTurns, activatedCard.actions[..], activatedCard.actions,
               activatedCard.name, activatedCard.uses, cardSlot)
    }

    ghost function Now(): Outcome
      requires tempCard != null
      reads this, player, player.data, player.entity, grid, hand, tempCard, tempCard.actions
    {
      Outcome(Vitals(player.health, player.data.playerHealth), player.entity.position, grid.blocked,
              tempCard, tempCard.actions[..], tempCard.actions, tempCard.name, tempCard.uses,
              hand.slots, enemyTurns, tileIndicators)
    }

    /** Does the next action, or finishes the card when none is left. */
    method CheckForActions()
      requires Ready()
      modifies this, player, player.data, grid, hand, tempCard
      ensures SessionOf(player.data) == old(SessionOf(player.data))
      decreases tempCard.actions.Length, 3
      ensures Ready() && activatedCard == old(activatedCard) && cardSlot == old(cardSlot)
      ensures Follows(old(Snap()), Now())
      ensures Pending(old(Snap()).board, old(Snap()).actions) < old(tempCard.actions.Length) ==>
                tempCard == old(tempCard)
      ensures Pending(old(Snap()).board, old(Snap()).actions) == old(tempCard.actions.Length) ==>
                fresh(tempCard)
    {
      if tempCard.actions.Length > 0 {
        DoAction(tempCard.actions[0]);
      } else {
        AllActionsComplete();
      }
    }

    /** Carries out the first action of the queue: attacks and pushes mark
        cells, heals, damage, bombs and draws finish at once, and a move
        marks the cells it can reach or finishes when there are none. */
    method DoAction(action: Action)
      requires Ready() && tempCard.actions.Length > 0 && action == tempCard.actions[0]
      modifies this, player, player.data, grid, hand, tempCard
      ensures SessionOf(player.data) == old(SessionOf(player.data))
      decreases tempCard.actions.Length, 2
      ensures Ready() && activatedCard == old(activatedCard) && cardSlot == old(cardSlot)
      ensures Follows(old(Snap()), Now())
      ensures Pending(old(Snap()).board, old(Snap()).actions) < old(tempCard.actions.Length) ==>
                tempCard == old(tempCard)
      ensures Pending(old(Snap()).board, old(Snap()).actions) == old(tempCard.actions.Length) ==>
                fresh(tempCard)
    {
      match action.actionType
      case Melee => MarkTargets(action);
      case Heal => FinishAtOnce(action);
      case Bomb => FinishAtOnce(action);
      case Damage => FinishAtOnce(action);
      case Range => MarkTargets(action);
      case Move => MoveAction(action);
      case Draw => FinishAtOnce(action);
      case Push => MarkTargets(action);
    }

    /** A melee, range or push action marks its cells around the player
        and waits. */
    method MarkTargets(action: Action)
      requires Ready() && tempCard.actions.Length > 0 && action == tempCard.actions[0]
      requires action.actionType == Melee || action.actionType == Range || action.actionType == Push
      modifies this
      ensures Ready() && activatedCard == old(activatedCard) && cardSlot == old(cardSlot)
      ensures Follows(old(Snap()), Now())
      ensures Pending(old(Snap()).board, old(Snap()).actions) < old(tempCard.actions.Length) ==>
                tempCard == old(tempCard)
      ensures Pending(old(Snap()).board, old(Snap()).actions) == old(tempCard.actions.Length) ==>
                fresh(tempCard)
    {
      ghost var s := Snap();
      SpawnIndicators(action);
      WaitingFirst(s, Now());
    }

    /** The marks of a melee, range or push action, added to the marked
        cells. */
    method SpawnIndicators(action: Action)
      requires action.actionType == Melee || action.actionType == Range || action.actionType == Push
      modifies this
      ensures tileIndicators == old(tileIndicators) + Marks(old(CurrentBoard()), action)
      ensures activatedCard == old(activatedCard) && tempCard == old(tempCard) && cardSlot == old(cardSlot)
      ensures enemyTurns == old(enemyTurns)
    {
      var p := player.entity.position;
      if action.actionType == Melee {
        SpawnAttackRing(p, 1, action.amount);
      } else if action.actionType == Range {
        SpawnAttackRing(p, 2, action.amount);
        SpawnAttackRing(p, 3, action.amount);
        SpawnAttackRing(p, 4, action.amount);
        AttackIndicatorsAppend(Ring(p, 2), Ring(p, 3), action.amount);
        AttackIndicatorsAppend(Ring(p, 2) + Ring(p, 3), Ring(p, 4), action.amount);
      } else {
        SpawnPushRing(p, action.amount);
      }
    }

    /** Marks the four neighbours of `p` for pushes away from `p`, in the
        order above, below, right, left. */
    method SpawnPushRing(p: Position, distance: int)
      modifies this
      ensures tileIndicators == old(tileIndicators) + PushIndicators(p, distance)
      ensures activatedCard == old(activatedCard) && tempCard == old(tempCard) && cardSlot == old(cardSlot)
      ensures enemyTurns == old(enemyTurns)
    {
      SpawnPushIndicator(Step(p, 0, 1), distance, p);
      SpawnPushIndicator(Step(p, 0, -1), distance, p);
      SpawnPushIndicator(Step(p, 1, 0), distance, p);
      SpawnPushIndicator(Step(p, -1, 0), distance, p);
    }

    /** Marks the four cells `d` away from `p` along the axes for attacks,
        in the order above, below, right, left. */
    method SpawnAttackRing(p: Position, d: int, amount: int)
      modifies this
      ensures tileIndicators == old(tileIndicators) + AttackIndicators(Ring(p, d), amount)
      ensures activatedCard == old(activatedCard) && tempCard == old(tempCard) && cardSlot == old(cardSlot)
      ensures enemyTurns == old(enemyTurns)
    {
      SpawnAttackIndicator(Step(p, 0, d), amount);
      SpawnAttackIndicator(Step(p, 0, -d), amount);
      SpawnAttackIndicator(Step(p, d, 0), amount);
      SpawnAttackIndicator(Step(p, -d, 0), amount);
    }

    /** A heal or damage changes the player's health; it, a bomb and a draw
        then complete at once. */
    method FinishAtOnce(action: Action)
      requires Ready() && tempCard.actions.Length > 0 && action == tempCard.actions[0]
      requires action.actionType in {Heal, Bomb, Damage, Draw}
      modifies this, player, player.data, grid, hand, tempCard
      ensures SessionOf(player.data) == old(SessionOf(player.data))
      decreases tempCard.actions.Length, 1
      ensures Ready() && activatedCard == old(activatedCard) && cardSlot == old(cardSlot)
      ensures Follows(old(Snap()), Now())
      ensures Pending(old(Snap()).board, old(Snap()).actions) < old(tempCard.actions.Length) ==>
                tempCard == old(tempCard)
      ensures Pending(old(Snap()).board, old(Snap()).actions) == old(tempCard.actions.Length) ==>
                fresh(tempCard)
    {
      ghost var s := Snap();
      ApplyEffect(action);
      CompleteAction();
      ChainStep(s, Now());
    }

    /** A heal raises and damage lowers the player's health; other actions
        leave it. */
    method ApplyEffect(action: Action)
      modifies player, player.data
      ensures var v := Effect(Vitals(old(player.health), old(player.data.playerHealth)), action);
              player.health == v.health && player.data.playerHealth == v.stored
      ensures SessionOf(player.data) == old(SessionOf(player.data))
    {
      if action.actionType == Heal {
        player.ChangeHealth(action.amount);
      } else if action.actionType == Damage {
        player.ChangeHealth(-action.amount);
      }
    }

    /** A move marks the cells it can reach and waits, or completes at
        once when there are none. */
    method MoveAction(action: Action)
      requires Ready() && tempCard.actions.Length > 0 && action == tempCard.actions[0]
      requires action.actionType == Move
      modifies this, player, player.data, grid, hand, tempCard
      ensures SessionOf(player.data) == old(SessionOf(player.data))
      decreases tempCard.actions.Length, 1
      ensures Ready() && activatedCard == old(activatedCard) && cardSlot == old(cardSlot)
      ensures Follows(old(Snap()), Now())
      ensures Pending(old(Snap()).board, old(Snap()).actions) < old(tempCard.actions.Length) ==>
                tempCard == old(tempCard)
      ensures Pending(old(Snap()).board, old(Snap()).actions) == old(tempCard.actions.Length) ==>
                fresh(tempCard)
    {
      ghost var s := Snap();
      MarkWalkable(action.amount);
      if |tileIndicators| == 0 {
        CompleteAction();
        ChainStep(s, Now());
      } else {
        WaitingFirst(s, Now());
      }
    }

    /** Marks a cell for an attack. */
    method SpawnAttackIndicator(cell: Position, amount: int)
      modifies this
      ensures tileIndicators == old(tileIndicators) + [AttackIndicator(cell, amount)]
      ensures activatedCard == old(activatedCard) && tempCard == old(tempCard) && cardSlot == old(cardSlot)
      ensures enemyTurns == old(enemyTurns)
    {
      tileIndicators := tileIndicators + [AttackIndicator(cell, amount)];
    }

    /** Marks a cell for a push away from `from`. */
    method SpawnPushIndicator(cell: Position, distance: int, from: Position)
      modifies this
      ensures tileIndicators == old(tileIndicators) + [PushIndicator(cell, distance, from)]
      ensures activatedCard == old(activatedCard) && tempCard == old(tempCard) && cardSlot == old(cardSlot)
      ensures enemyTurns == old(enemyTurns)
    {
      tileIndicators := tileIndicators + [PushIndicator(cell, distance, from)];
    }

    /** The move action's marking: with the player's cell freed, marks the
        scanned cells, then blocks the player's cell again. */
    method MarkWalkable(amount: int)
      requires player.entity.grid == grid
      modifies this, grid
      ensures var b := old(CurrentBoard());
              tileIndicators == WalkIndicators(MoveTargets(ScanOf(b, amount))) &&
              grid.blocked == b.blocked + {b.player}
      ensures activatedCard == old(activatedCard) && tempCard == old(tempCard) && cardSlot == old(cardSlot)
      ensures enemyTurns == old(enemyTurns)
    {
      var p := player.entity.position;
      grid.UnblockCell(p);
      ScanMove(amount);
      grid.BlockCell(p);
    }

    /** The scan itself: tries every cell column by column and marks the
        cells of the short enough paths of the candidates. */
    method ScanMove(amount: int)
      modifies this
      ensures var env := ScanEnv(grid.blocked, player.entity.position, amount, grid.dimX, grid.dimY, grid.router);
              tileIndicators == WalkIndicators(MoveTargets(env))
      ensures activatedCard == old(activatedCard) && tempCard == old(tempCard) && cardSlot == old(cardSlot)
      ensures enemyTurns == old(enemyTurns)
    {
      var p := player.entity.position;
      ghost var env := ScanEnv(grid.blocked, p, amount, grid.dimX, grid.dimY, grid.router);
      var positionsWithIndicators: seq<Position> := [];
      tileIndicators := [];
      var x := 0;
      while x < grid.dimX
        invariant 0 <= x <= grid.dimX
        invariant positionsWithIndicators == ScanColumns(env, x)
        invariant tileIndicators == WalkIndicators(positionsWithIndicators)
        invariant activatedCard == old(activatedCard) && tempCard == old(tempCard) && cardSlot == old(cardSlot)
        invariant enemyTurns == old(enemyTurns)
      {
        var y := 0;
        while y < grid.dimY
          invariant 0 <= y <= grid.dimY
          invariant positionsWithIndicators == ScanColumn(ScanColumns(env, x), env, x, y)
          invariant tileIndicators == WalkIndicators(positionsWithIndicators)
          invariant activatedCard == old(activatedCard) && tempCard == old(tempCard) && cardSlot == old(cardSlot)
          invariant enemyTurns == old(enemyTurns)
        {
          var cell := Position(x, y);
          if !(grid.GetCellCost(cell) > 1) && Abs(p.x - x) <= amount && Abs(p.y - y) <= amount {
            var path := grid.GetPath(cell, p);
            if |path| <= amount + 1 {
              assert path == CellPath(env, x, y);
              ghost var before := positionsWithIndicators;
              var j := 0;
              while j < |path|
                invariant 0 <= j <= |path|
                invariant positionsWithIndicators == AddNew(before, path[..j], p)
                invariant tileIndicators == WalkIndicators(positionsWithIndicators)
                invariant activatedCard == old(activatedCard) && tempCard == old(tempCard) && cardSlot == old(cardSlot)
                invariant enemyTurns == old(enemyTurns)
              {
                var position := path[j];
                assert path[..j + 1][..j] == path[..j];
                if position != p && position !in positionsWithIndicators {
                  tileIndicators := tileIndicators + [WalkIndicator(position)];
                  positionsWithIndicators := positionsWithIndicators + [position];
                }
                j := j + 1;
              }
              assert path[..|path|] == path;
            } else {
              assert CellPath(env, x, y) == [];
            }
          } else {
            assert CellPath(env, x, y) == [];
          }
          y := y + 1;
        }
        x := x + 1;
      }
    }

    /** The current action is done: its marks go, the action leaves the
        front of the copy's queue (a new, shorter array), and the next one
        is taken up. */
    method CompleteAction()
      requires Ready() && tempCard.actions.Length > 0
      modifies this, player, player.data, grid, hand, tempCard
      ensures SessionOf(player.data) == old(SessionOf(player.data))
      decreases tempCard.actions.Length, 0
      ensures Ready() && activatedCard == old(activatedCard) && cardSlot == old(cardSlot)
      ensures activatedCard.actions == old(activatedCard.actions)
      ensures activatedCard.actions[..] == old(activatedCard.actions[..])
      ensures var s := old(Snap());
              Follows(s.(actions := s.actions[1..], indicators := []), Now())
      ensures var s := old(Snap());
              Pending(s.board, s.actions[1..]) < |s.actions| - 1 ==> tempCard == old(tempCard)
      ensures var s := old(Snap());
              Pending(s.board, s.actions[1..]) == |s.actions| - 1 ==> fresh(tempCard)
    {
      tileIndicators := [];
      var rest := tempCard.actions[1..];
      tempCard.actions := new Action[|rest|](i requires 0 <= i < |rest| => rest[i]);
      assert tempCard.actions[..] == rest;
      CheckForActions();
    }

    /** The card is done: a copy of the played card with one use fewer
        goes back into the hand, unless that leaves it no uses, and the
        played card's slot leaves the hand. Then the enemies' turn starts. */
    method AllActionsComplete()
      requires Ready()
      modifies this, hand
      ensures Ready() && activatedCard == old(activatedCard) && cardSlot == old(cardSlot)
      ensures fresh(tempCard)
      ensures tempCard.name == activatedCard.name && tempCard.uses == activatedCard.uses - 1
      ensures tempCard.actions == activatedCard.actions
      ensures tempCard.uses == 0 ==> hand.slots == Without(old(hand.slots), cardSlot)
      ensures tempCard.uses != 0 ==>
                |hand.slots| > 0 && hand.slots == Without(old(hand.slots), cardSlot) + [hand.slots[|hand.slots| - 1]] &&
                hand.slots[|hand.slots| - 1].card == tempCard
      ensures enemyTurns == old(enemyTurns) + 1 && tileIndicators == old(tileIndicators)
    {
      tempCard := activatedCard.CopyCard();
      tempCard.uses := tempCard.uses - 1;
      if tempCard.uses == 0 {
        hand.RemoveCard(cardSlot);
      } else {
        var added := hand.AddCard(tempCard);
        hand.RemoveCard(cardSlot);
        WithoutAppend(old(hand.slots), cardSlot, added);
      }
      enemyTurns := enemyTurns + 1;
    }

    /** The state a played card starts its run from. */
    ghost function EntrySnap(card: Card, slot: CardSlot): Snapshot
      reads this, player, player.data, player.entity, grid, hand, card, card.actions
    {
      Snapshot(card.actions[..], Vitals(player.health, player.data.playerHealth), CurrentBoard(),
               tileIndicators, hand.slots, enemyTurns, card.actions[..], card.actions, card.name, card.uses, slot)
    }

    /** Plays `card` from hand slot `slot`: its actions are worked through
        on a copy, and the run goes as far as the first action that waits. */
    method CardActivated(card: Card, slot: CardSlot)
      requires player.entity.grid == grid
      modifies this, player, player.data, grid, hand
      ensures SessionOf(player.data) == old(SessionOf(player.data))
      ensures Ready() && activatedCard == card && cardSlot == slot
      ensures Follows(old(EntrySnap(card, slot)), Now())
    {
      tempCard := card.CopyCard();
      activatedCard := card;
      cardSlot := slot;
      CheckForActions();
    }

    /** The enemies stand on the level's grid, off the player's entity, and
        belong to this roster. */
    ghost predicate Fielded()
      reads roster
    {
      (forall e :: e in roster.enemies ==> e.entity.grid == grid && e.entity != player.entity && e.roster == roster) &&
      (forall e, f :: e in roster.enemies && f in roster.enemies && e != f ==> e.entity != f.entity)
    }

    /** The index of the first enemy standing on `cell`, or the number of
        enemies when none does. */
    method FirstEnemyAt(cell: Position) returns (index: nat)
      ensures index == FirstIndex(Positions(roster.enemies), cell)
    {
      var enemies := roster.enemies;
      index := 0;
      while index < |enemies|
        invariant index <= |enemies|
        invariant forall j :: 0 <= j < index ==> enemies[j].entity.position != cell
      {
        if enemies[index].entity.position == cell {
          FirstIndexAt(Positions(enemies), cell, index);
          return;
        }
        index := index + 1;
      }
      FirstIndexAt(Positions(enemies), cell, index);
    }

    /** How many steps a push of `distance` from `cell` along (dx, dy) goes:
        up to, and not onto, the first enemy on the line. */
    method PushStop(cell: Position, dx: int, dy: int, distance: int) returns (steps: int)
      ensures steps == PushSteps(cell, dx, dy, distance, Positions(roster.enemies))
    {
      ghost var ps := Positions(roster.enemies);
      var i := 1;
      while i < distance + 1
        invariant 1 <= i
        invariant PushStepsFrom(cell, dx, dy, distance, ps, i) == PushSteps(cell, dx, dy, distance, ps)
        decreases distance - i
      {
        var blocker := FirstEnemyAt(Offset(cell, dx, dy, i));
        if blocker < |roster.enemies| {
          return i - 1;
        }
        i := i + 1;
      }
      steps := distance;
    }

    /** An attack mark is clicked: the first enemy on the cell, if any,
        takes the damage, and the action completes. */
    method AttackClicked(cell: Position, amount: int)
      requires Ready() && tempCard.actions.Length > 0 && Fielded()
      modifies this, player, player.data, grid, hand, tempCard, roster, set e | e in roster.enemies
      ensures SessionOf(player.data) == old(SessionOf(player.data))
      ensures Ready() && activatedCard == old(activatedCard) && cardSlot == old(cardSlot)
      ensures var ps := old(Positions(roster.enemies));
              var k := FirstIndex(ps, cell);
              var dies := k < |ps| && old(roster.enemies[k].health) - amount <= 0;
              var s := old(Snap());
              var b := s.board.(blocked := if dies then s.board.blocked - {cell} else s.board.blocked);
              Follows(s.(actions := s.actions[1..], indicators := [], board := b), Now())
    {
      ghost var s := Snap();
      HitEnemyAt(cell, amount);
      assert Snap() == s.(board := s.board.(blocked := grid.blocked));
      CompleteAction();
    }

    /** The first enemy on `cell`, if any, takes `amount` of damage: it
        leaves the roster and frees its cell when that kills it. */
    method HitEnemyAt(cell: Position, amount: int)
      requires Fielded()
      modifies roster, grid, set e | e in roster.enemies
      ensures var ps := old(Positions(roster.enemies));
              var k := FirstIndex(ps, cell);
              var dies := k < |ps| && old(roster.enemies[k].health) - amount <= 0;
              grid.blocked == if dies then old(grid.blocked) - {cell} else old(grid.blocked)
      ensures var ps := old(Positions(roster.enemies));
              var k := FirstIndex(ps, cell);
              k < |ps| ==>
                var e := old(roster.enemies[k]);
                var h := old(e.health) - amount;
                e.health == (if h > EnemyMaxHealth then EnemyMaxHealth else h) &&
                roster.enemies == if h <= 0 then RemovedOnce(old(roster.enemies), e) else old(roster.enemies)
      ensures FirstIndex(old(Positions(roster.enemies)), cell) == old(|roster.enemies|) ==>
                roster.enemies == old(roster.enemies)
      ensures var ps := old(Positions(roster.enemies));
              var k := FirstIndex(ps, cell);
              forall e :: e in old(roster.enemies) && (k == |ps| || e != old(roster.enemies)[k]) ==> unchanged(e)
    {
      var index := FirstEnemyAt(cell);
      if index < |roster.enemies| {
        var enemy := roster.enemies[index];
        enemy.ChangeHealth(-amount);
      }
    }

    /** A push mark is clicked: the first enemy on the cell, if any, is
        pushed away from the player's cell the mark was made from, and the
        action completes. */
    method PushClicked(cell: Position, distance: int, from: Position)
      requires Ready() && tempCard.actions.Length > 0 && Fielded()
      modifies this, player, player.data, grid, hand, tempCard, roster
      modifies set e | e in roster.enemies, set e | e in roster.enemies :: e.entity
      ensures SessionOf(player.data) == old(SessionOf(player.data))
      ensures Ready() && activatedCard == old(activatedCard) && cardSlot == old(cardSlot)
      ensures var ps := old(Positions(roster.enemies));
              var k := FirstIndex(ps, cell);
              var dest := PushDestination(cell, cell.x - from.x, cell.y - from.y, distance, ps);
              var s := old(Snap());
              var b := s.board.(blocked := if k < |ps| && cell in MeleeTargets(from)
                                           then AfterPush(s.board.blocked, cell, dest, old(roster.enemies[k].health))
                                           else s.board.blocked);
              Follows(s.(actions := s.actions[1..], indicators := [], board := b), Now())
    {
      ghost var s := Snap();
      PushEnemyAt(cell, distance, from);
      assert Snap() == s.(board := s.board.(blocked := grid.blocked));
      CompleteAction();
    }

    /** The first enemy on `cell`, if any, is pushed `distance` cells away
        from `from` when `cell` is next to `from`: up to, and not onto, the
        first enemy on its line. */
    method PushEnemyAt(cell: Position, distance: int, from: Position)
      requires Fielded()
      modifies roster, grid, set e | e in roster.enemies, set e | e in roster.enemies :: e.entity
      ensures var ps := old(Positions(roster.enemies));
              var k := FirstIndex(ps, cell);
              var dest := PushDestination(cell, cell.x - from.x, cell.y - from.y, distance, ps);
              grid.blocked == if k < |ps| && cell in MeleeTargets(from)
                              then AfterPush(old(grid.blocked), cell, dest, old(roster.enemies[k].health))
                              else old(grid.blocked)
      ensures var ps := old(Positions(roster.enemies));
              var k := FirstIndex(ps, cell);
              var dest := PushDestination(cell, cell.x - from.x, cell.y - from.y, distance, ps);
              k < |ps| && cell in MeleeTargets(from) ==>
                var e := old(roster.enemies[k]);
                var h := old(e.health) - EnemyMaxHealth;
                var dies := dest in old(grid.blocked) && h <= 0;
                e.entity.position == dest &&
                e.health == (if dest !in old(grid.blocked) then old(e.health)
                             else if h > EnemyMaxHealth then EnemyMaxHealth else h) &&
                e.indicators == old(e.indicators) && e.playerController == old(e.playerController) &&
                roster.enemies == if dies then RemovedOnce(old(roster.enemies), e) else old(roster.enemies)
      ensures var ps := old(Positions(roster.enemies));
              !(FirstIndex(ps, cell) < |ps| && cell in MeleeTargets(from)) ==> roster.enemies == old(roster.enemies)
      ensures var ps := old(Positions(roster.enemies));
              var k := FirstIndex(ps, cell);
              forall e :: e in old(roster.enemies) && (k == |ps| || e != old(roster.enemies)[k] || cell !in MeleeTargets(from)) ==>
                unchanged(e) && unchanged(e.entity)
    {
      var index := FirstEnemyAt(cell);
      if index < |roster.enemies| {
        var enemy := roster.enemies[index];
        if cell == Step(from, 0, 1) {
          assert cell in MeleeTargets(from) && cell.x - from.x == 0 && cell.y - from.y == 1;
          PushAlong(enemy, cell, 0, 1, distance);
        } else if cell == Step(from, 0, -1) {
          assert cell in MeleeTargets(from) && cell.x - from.x == 0 && cell.y - from.y == -1;
          PushAlong(enemy, cell, 0, -1, distance);
        } else if cell == Step(from, 1, 0) {
          assert cell in MeleeTargets(from) && cell.x - from.x == 1 && cell.y - from.y == 0;
          PushAlong(enemy, cell, 1, 0, distance);
        } else if cell == Step(from, -1, 0) {
          assert cell in MeleeTargets(from) && cell.x - from.x == -1 && cell.y - from.y == 0;
          PushAlong(enemy, cell, -1, 0, distance);
        } else {
          assert cell !in MeleeTargets(from);
        }
      }
    }

    /** Pushes `enemy`, standing on `cell`, along (dx, dy). */
    method PushAlong(enemy: Enemy, cell: Position, dx: int, dy: int, distance: int)
      requires enemy in roster.enemies && enemy.entity.position == cell && Fielded()
      modifies enemy, enemy.entity, grid, roster
      ensures var dest := PushDestination(cell, dx, dy, distance, old(Positions(roster.enemies)));
              var h := old(enemy.health) - EnemyMaxHealth;
              var dies := dest in old(grid.blocked) && h <= 0;
              enemy.entity.position == dest &&
              enemy.health == (if dest !in old(grid.blocked) then old(enemy.health)
                               else if h > EnemyMaxHealth then EnemyMaxHealth else h) &&
              enemy.indicators == old(enemy.indicators) && enemy.playerController == old(enemy.playerController) &&
              grid.blocked == AfterPush(old(grid.blocked), cell, dest, old(enemy.health)) &&
              roster.enemies == if dies then RemovedOnce(old(roster.enemies), enemy) else old(roster.enemies)
      ensures forall e :: e in old(roster.enemies) && e != enemy ==> unchanged(e) && unchanged(e.entity)
    {
      var steps := PushStop(cell, dx, dy, distance);
      enemy.PushedToTile(Offset(cell, dx, dy, steps));
    }

    /** A walk mark is clicked: the player moves onto the cell, and the
        action completes. */
    method WalkClicked(position: Position)
      requires Ready() && tempCard.actions.Length > 0
      modifies this, player, player.entity, player.data, grid, hand, tempCard
      ensures SessionOf(player.data) == old(SessionOf(player.data))
      ensures Ready() && activatedCard == old(activatedCard) && cardSlot == old(cardSlot)
      ensures var s := old(Snap());
              var b := s.board.(player := position, blocked := MovedBlocked(s.board.blocked, s.board.player, position));
              Follows(s.(actions := s.actions[1..], indicators := [], board := b), Now())
    {
      player.entity.MoveToTile(position);
      CompleteAction();
    }
  }
}
