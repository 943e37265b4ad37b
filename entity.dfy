/** What players and enemies share: a cell on the path-finding grid that
    they keep blocked while they stand on it. */
module Entities {
  import opened Pathing

  /** The blocked cells after an entity standing on `from` moves to `to`:
      its old cell is freed (unblocking a passable cell changes nothing),
      then its new cell is blocked. */
  function MovedBlocked(blocked: set<Position>, from: Position, to: Position): set<Position>
  {
    (blocked - {from}) + {to}
  }

  class Entity {
    var position: Position
    /** The one path-finding grid of the level, shared by every entity. */
    const grid: CostGrid

    constructor (position: Position, grid: CostGrid)
      ensures this.position == position && this.grid == grid
    {
      this.position := position;
      this.grid := grid;
    }

    /** Frees the current cell if it is blocked, blocks the new one and
        stands on it. */
    method MoveToTile(p: Position)
      modifies this, grid
      ensures position == p
      ensures grid.blocked == MovedBlocked(old(grid.blocked), old(position), p)
    {
      if grid.GetCellCost(position) > 1 {
        grid.UnblockCell(position);
      }
      grid.BlockCell(p);
      position := p;
    }
  }

  /** The occupancy discipline of a move: the destination ends blocked, a
      different source ends passable, and no third cell changes cost. */
  lemma MoveOccupancy(blocked: set<Position>, from: Position, to: Position, q: Position)
    ensures to in MovedBlocked(blocked, from, to)
    ensures from != to ==> from !in MovedBlocked(blocked, from, to)
    ensures q != from && q != to ==> (q in MovedBlocked(blocked, from, to) <==> q in blocked)
  {
  }

  /** Moving twice is the same as freeing the first cell and going straight
      to the last one, when the middle cell was free before. */
  lemma MovesCompose(blocked: set<Position>, a: Position, b: Position, c: Position)
    requires b !in blocked || b == a
    ensures MovedBlocked(MovedBlocked(blocked, a, b), b, c) == MovedBlocked(blocked, a, c)
  {
  }
}
