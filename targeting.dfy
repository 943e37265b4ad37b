/** Where a card's attacks land: the cells marked by melee and range
    actions, and where a push sends an enemy. */
module Targeting {
  import opened Pathing

  /** The four cells `d` away along the axes, in marking order: above,
      below, right, left. */
  function Ring(p: Position, d: int): seq<Position>
  {
    [Step(p, 0, d), Step(p, 0, -d), Step(p, d, 0), Step(p, -d, 0)]
  }

  /** The melee cells: the orthogonal neighbours. */
  function MeleeTargets(p: Position): seq<Position>
  {
    Ring(p, 1)
  }

  /** Melee marks exactly the four orthogonal neighbours, each once. */
  lemma MeleeTargetsExact(p: Position, c: Position)
    ensures |MeleeTargets(p)| == 4
    ensures c in MeleeTargets(p) <==> Abs(c.x - p.x) + Abs(c.y - p.y) == 1
    ensures forall i, j :: 0 <= i < j < 4 ==> MeleeTargets(p)[i] != MeleeTargets(p)[j]
  {
  }

  /** The range cells, in marking order: distance 2, then 3, then 4, each
      above, below, right and left. */
  function RangeTargets(p: Position): seq<Position>
  {
    Ring(p, 2) + Ring(p, 3) + Ring(p, 4)
  }

  /** A cell on one of the player's axes between 2 and 4 cells away. */
  predicate InRange(p: Position, c: Position)
  {
    (c.x == p.x && 2 <= Abs(c.y - p.y) <= 4) || (c.y == p.y && 2 <= Abs(c.x - p.x) <= 4)
  }

  /** Range marks exactly the twelve cells 2, 3 and 4 away along the axes,
      each once. */
  lemma RangeTargetsExact(p: Position, c: Position)
    ensures |RangeTargets(p)| == 12
    ensures c in RangeTargets(p) <==> InRange(p, c)
    ensures forall i, j :: 0 <= i < j < 12 ==> RangeTargets(p)[i] != RangeTargets(p)[j]
  {
  }

  /** The cell `k` steps from `cell` along (dx, dy). */
  function Offset(cell: Position, dx: int, dy: int, k: int): Position
  {
    Position(cell.x + k * dx, cell.y + k * dy)
  }

  /** How far a push of `distance` goes from `cell`, trying steps `i`
      upwards: the step before the first step an enemy stands on, or the
      full distance. */
  function PushStepsFrom(cell: Position, dx: int, dy: int, distance: int, occupied: seq<Position>, i: int): int
    requires 1 <= i
    decreases distance - i + 1
  {
    if i > distance then distance
    else if Offset(cell, dx, dy, i) in occupied then i - 1
    else PushStepsFrom(cell, dx, dy, distance, occupied, i + 1)
  }

  /** How far a push of `distance` from `cell` along (dx, dy) goes. */
  function PushSteps(cell: Position, dx: int, dy: int, distance: int, occupied: seq<Position>): int
  {
    PushStepsFrom(cell, dx, dy, distance, occupied, 1)
  }

  /** Where the pushed enemy ends. */
  function PushDestination(cell: Position, dx: int, dy: int, distance: int, occupied: seq<Position>): Position
  {
    Offset(cell, dx, dy, PushSteps(cell, dx, dy, distance, occupied))
  }

  /** The search from step `i` on, when steps 1 to i - 1 are free. */
  lemma {:induction false} PushStepsFromMeaning(cell: Position, dx: int, dy: int, distance: int,
                                                occupied: seq<Position>, i: int)
    requires 1 <= i <= distance + 1
    requires forall j :: 1 <= j < i ==> Offset(cell, dx, dy, j) !in occupied
    ensures var k := PushStepsFrom(cell, dx, dy, distance, occupied, i);
            i - 1 <= k <= distance &&
            (forall j :: 1 <= j <= k ==> Offset(cell, dx, dy, j) !in occupied) &&
            (k < distance ==> Offset(cell, dx, dy, k + 1) in occupied)
    decreases distance - i + 1
  {
    if i <= distance && Offset(cell, dx, dy, i) !in occupied {
      PushStepsFromMeaning(cell, dx, dy, distance, occupied, i + 1);
    }
  }

  /** A push of at least one step goes up to, and not onto, the first
      enemy on its line, and never past the push distance; every step it
      passes is free. A push of zero or fewer steps goes that many steps
      without looking. */
  lemma PushStepsMeaning(cell: Position, dx: int, dy: int, distance: int, occupied: seq<Position>)
    ensures var k := PushSteps(cell, dx, dy, distance, occupied);
            (distance < 1 ==> k == distance) &&
            (1 <= distance ==>
               0 <= k <= distance &&
               (forall j :: 1 <= j <= k ==> Offset(cell, dx, dy, j) !in occupied) &&
               (k < distance ==> Offset(cell, dx, dy, k + 1) in occupied))
  {
    if 1 <= distance {
      PushStepsFromMeaning(cell, dx, dy, distance, occupied, 1);
    }
  }

  /** A push with no enemy on its line goes the full distance. */
  lemma {:induction false} ClearLinePushesFully(cell: Position, dx: int, dy: int, distance: int,
                                               occupied: seq<Position>)
    requires forall j :: 1 <= j <= distance ==> Offset(cell, dx, dy, j) !in occupied
    ensures PushDestination(cell, dx, dy, distance, occupied) == Offset(cell, dx, dy, distance)
  {
    PushStepsMeaning(cell, dx, dy, distance, occupied);
  }
}
