/** The A* grid that every entity moves on, as the game uses it.
    The path-finding library behind it is not part of this model: its
    search is the uninterpreted `router`, and only the block/unblock/cost
    discipline the game relies on is stated here. */
module Pathing {

  /** A cell of the unified path-finding grid. */
  datatype Position = Position(x: int, y: int)

  /** The cost the grid reports for a blocked cell. The library stores
      positive infinity; every caller in the game only asks whether a cost
      exceeds 1, so any value above 1 reads the same. */
  const BlockedCost: int := 2

  /** The distance between two coordinates along one axis. */
  function Abs(n: int): nat
  {
    if n < 0 then -n else n
  }

  /** The four unit steps, used for adjacency and pushes. */
  function Step(p: Position, dx: int, dy: int): (q: Position)
    ensures q.x - p.x == dx && q.y - p.y == dy
  {
    Position(p.x + dx, p.y + dy)
  }

  class CostGrid {
    const dimX: nat
    const dimY: nat
    /** The cells whose cost is above 1 (walls, lava and occupied cells). */
    var blocked: set<Position>
    /** The library's path search, left uninterpreted: given the blocked
        cells, a start and a goal, some sequence of cells. */
    const router: (set<Position>, Position, Position) -> seq<Position>

    constructor (dimX: nat, dimY: nat, blocked: set<Position>,
                 router: (set<Position>, Position, Position) -> seq<Position>)
      ensures this.dimX == dimX && this.dimY == dimY
      ensures this.blocked == blocked && this.router == router
    {
      this.dimX := dimX;
      this.dimY := dimY;
      this.blocked := blocked;
      this.router := router;
    }

    /** 1 for a passable cell, more than 1 for a blocked one. */
    function GetCellCost(p: Position): (cost: int)
      reads this
      ensures 1 <= cost
      ensures cost > 1 <==> p in blocked
    {
      if p in blocked then BlockedCost else 1
    }

    /** Raises the cell's cost above 1; no other cell changes. */
    method BlockCell(p: Position)
      modifies this
      ensures blocked == old(blocked) + {p}
    {
      blocked := blocked + {p};
    }

    /** Sets the cell's cost back to 1; no other cell changes. */
    method UnblockCell(p: Position)
      modifies this
      ensures blocked == old(blocked) - {p}
    {
      blocked := blocked - {p};
    }

    /** The library's path between two cells over the current costs. */
    function GetPath(from: Position, to: Position): seq<Position>
      reads this
    {
      router(blocked, from, to)
    }
  }
}
