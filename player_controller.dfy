/** The player: an entity with health, which walks along paths on the
    shared grid and mirrors its health into the cross-scene data. */
module Players {
  import opened Pathing
  import opened Entities
  import opened GameSession

  /** The player's maximum health. */
  const MaxHealth: int := 5

  /** The largest change one call can apply, either way. */
  const MaxChange: int := 5

  /** A requested change clamped to [-MaxChange, MaxChange]. */
  function ClampChange(change: int): (c: int)
    ensures -MaxChange <= c <= MaxChange
    ensures -MaxChange <= change <= MaxChange ==> c == change
    ensures change > MaxChange ==> c == MaxChange
    ensures change < -MaxChange ==> c == -MaxChange
  {
    if change > MaxChange then MaxChange
    else if change < -MaxChange then -MaxChange
    else change
  }

  /** The health after a change, step by step as the game computes it:
      clamp the change, cut a heal that would overshoot by more than one
      down to what reaches the maximum, apply it, then cap at the maximum. */
  function ChangedHealth(health: int, change: int): int
  {
    var clamped := ClampChange(change);
    var applied := if clamped + health > MaxHealth + 1 then MaxHealth - health else clamped;
    var raised := health + applied;
    if raised > MaxHealth then MaxHealth else raised
  }

  /** What the steps amount to: the clamped change applied and the result
      capped at the maximum. So health never rises above the maximum, a
      player at or below the maximum moves by at most MaxChange either way,
      and damage is taken in full. */
  lemma ChangedHealthMeaning(health: int, change: int)
    ensures var c := ClampChange(change);
            ChangedHealth(health, change) == if health + c > MaxHealth then MaxHealth else health + c
    ensures ChangedHealth(health, change) <= MaxHealth
    ensures health <= MaxHealth ==>
              -MaxChange <= ChangedHealth(health, change) - health <= MaxChange
    ensures health <= MaxHealth && change <= 0 ==>
              ChangedHealth(health, change) == health + ClampChange(change)
  {
  }

  /** A blow of the full maximum kills any player not above the maximum,
      and a heal never kills a living player. */
  lemma LethalBlowKills(health: int, heal: int)
    requires health <= MaxHealth
    ensures ChangedHealth(health, -MaxHealth) < 1
    ensures heal >= 0 && health >= 1 ==> ChangedHealth(health, heal) >= 1
  {
  }

  class PlayerController {
    const entity: Entity
    var health: int
    /** The cross-scene data the health is mirrored into. */
    const data: PlayerData

    /** The player at the start of a floor, with the health carried over. */
    constructor (entity: Entity, data: PlayerData)
      ensures this.entity == entity && this.data == data
      ensures health == data.playerHealth
    {
      this.entity := entity;
      this.data := data;
      if data.playerHealth != MaxHealth {
        health := data.playerHealth;
      } else {
        health := MaxHealth;
      }
    }

    /** Changes the health and stores it as the carried-over health. */
    method ChangeHealth(healthChange: int)
      modifies this, data
      ensures health == ChangedHealth(old(health), healthChange)
      ensures data.playerHealth == health
      ensures SessionOf(data) == old(SessionOf(data))
    {
      var change := healthChange;
      if change > MaxChange {
        change := MaxChange;
      } else if change < -MaxChange {
        change := -MaxChange;
      }
      if change + health > MaxHealth + 1 {
        change := MaxHealth - health;
      }
      health := health + change;
      if health > MaxHealth {
        health := MaxHealth;
      }
      data.playerHealth := health;
    }

    /** Whether the player has no health left. */
    function IsDead(): (dead: bool)
      reads this
      ensures dead <==> health < 1
    {
      if health < 1 then true else false
    }

    /** Pushed onto a lava cell: the player stands there (the grid is not
        touched), loses the maximum health directly and then once more
        through ChangeHealth. */
    method PushedIntoLava(p: Position)
      modifies this, entity, data
      ensures entity.position == p
      ensures health == ChangedHealth(old(health) - MaxHealth, -MaxHealth)
      ensures data.playerHealth == health
      ensures SessionOf(data) == old(SessionOf(data))
    {
      entity.position := p;
      health := health - MaxHealth;
      ChangeHealth(-MaxHealth);
    }

    /** Walks the path from its last entry towards its first after freeing
        the player's cell. The walk stops on the first visited entry equal
        to `target`, which is blocked; a path without `target` ends on its
        first entry with nothing blocked. `visited` lists the cells stood
        on, in order. */
    method WalkToTile(path: seq<Position>, target: Position) returns (visited: seq<Position>)
      modifies entity, entity.grid
      ensures |visited| <= |path|
      ensures forall k :: 0 <= k < |visited| ==> visited[k] == path[|path| - 1 - k]
      ensures target in path ==>
                |visited| > 0 && visited[|visited| - 1] == target && target !in visited[..|visited| - 1]
      ensures target !in path ==> |visited| == |path|
      ensures target in path ==> entity.position == target
      ensures target !in path && |path| > 0 ==> entity.position == path[0]
      ensures |path| == 0 ==> entity.position == old(entity.position)
      ensures var freed := old(entity.grid.blocked) - {old(entity.position)};
              entity.grid.blocked == if target in path then freed + {target} else freed
    {
      var grid := entity.grid;
      if grid.GetCellCost(entity.position) > 1 {
        grid.UnblockCell(entity.position);
      }
      ghost var freed := grid.blocked;
      visited := [];
      var i := |path| - 1;
      while i > -1
        invariant -1 <= i < |path|
        invariant |visited| == |path| - 1 - i
        invariant forall k :: 0 <= k < |visited| ==> visited[k] == path[|path| - 1 - k]
        invariant target !in visited
        invariant i + 1 < |path| ==> entity.position == path[i + 1]
        invariant i + 1 == |path| ==> entity.position == old(entity.position)
        invariant grid.blocked == freed
        decreases i
      {
        entity.position := path[i];
        visited := visited + [path[i]];
        if entity.position == target {
          grid.BlockCell(path[i]);
          return;
        }
        i := i - 1;
      }
      assert target !in path by {
        forall j | 0 <= j < |path| ensures path[j] != target {
          assert path[j] == visited[|path| - 1 - j];
        }
      }
    }
  }
}
