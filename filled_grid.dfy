/** The room grid: a width x height array of 0 (open) and 1 (wall) cells,
    filled from a stream of random draws and then smoothed in place by the
    8-neighbour wall-count rule. */
module CellularGrid {

  /** A grid value, column-major like the game's `int[x, y]`: `g[x][y]`. */
  type Cells = seq<seq<int>>

  ghost predicate IsShape(g: Cells, w: nat, h: nat)
  {
    |g| == w && forall x :: 0 <= x < w ==> |g[x]| == h
  }

  ghost predicate IsBinary(g: Cells, w: nat, h: nat)
  {
    IsShape(g, w, h) &&
    forall x, y :: 0 <= x < w && 0 <= y < h ==> g[x][y] == 0 || g[x][y] == 1
  }

  ghost predicate AllWalls(g: Cells, w: nat, h: nat)
  {
    IsShape(g, w, h) &&
    forall x, y :: 0 <= x < w && 0 <= y < h ==> g[x][y] == 1
  }

  // ---------------------------------------------------------------------
  // Random fill

  /** The value a cell gets from its draw in 0..99. */
  function FillValue(draw: int, fillPercent: int): int
  {
    if draw < fillPercent then 1 else 0
  }

  lemma DrawIndexBound(x: nat, y: nat, w: nat, h: nat)
    requires x < w && y < h
    ensures x * h + y < w * h
  {
    assert x * h + h == (x + 1) * h;
    assert (x + 1) * h <= w * h by {
      assert x + 1 <= w;
    }
  }

  /** The draw cell (x, y) receives: the fill visits x outer, y inner. */
  function DrawFor(draws: seq<int>, w: nat, h: nat, x: nat, y: nat): int
    requires |draws| == w * h && x < w && y < h
  {
    DrawIndexBound(x, y, w, h);
    draws[x * h + y]
  }

  /** The grid right after the random fill, one draw per cell. */
  function Filled(draws: seq<int>, w: nat, h: nat, fillPercent: int): (g: Cells)
    requires |draws| == w * h
    ensures IsBinary(g, w, h)
    ensures forall x: nat, y: nat :: x < w && y < h ==>
              (g[x][y] == 1 <==> DrawFor(draws, w, h, x, y) < fillPercent)
  {
    seq(w, x requires 0 <= x < w =>
      seq(h, y requires 0 <= y < h => FillValue(DrawFor(draws, w, h, x, y), fillPercent)))
  }

  /** With draws in 0..99, a fill percentage of 0 or less leaves every cell
      open and one of 100 or more walls every cell. */
  lemma FillExtremes(draws: seq<int>, w: nat, h: nat, fillPercent: int)
    requires |draws| == w * h
    requires forall i :: 0 <= i < |draws| ==> 0 <= draws[i] < 100
    ensures fillPercent <= 0 ==>
              forall x, y :: 0 <= x < w && 0 <= y < h ==> Filled(draws, w, h, fillPercent)[x][y] == 0
    ensures fillPercent >= 100 ==> AllWalls(Filled(draws, w, h, fillPercent), w, h)
  {
    var g := Filled(draws, w, h, fillPercent);
    forall x, y | 0 <= x < w && 0 <= y < h
      ensures fillPercent <= 0 ==> g[x][y] == 0
      ensures fillPercent >= 100 ==> g[x][y] == 1
    {
      DrawIndexBound(x, y, w, h);
      assert DrawFor(draws, w, h, x, y) == draws[x * h + y];
    }
  }

  // ---------------------------------------------------------------------
  // Neighbour count

  /** What neighbour (nx, ny) adds to the count of cell (gx, gy): its value
      when inside the grid (nothing for the cell itself), 1 when outside. */
  function NeighbourWall(g: Cells, w: nat, h: nat, nx: int, ny: int, gx: int, gy: int): int
    requires IsShape(g, w, h)
  {
    if 0 <= nx < w && 0 <= ny < h then
      (if nx != gx || ny != gy then g[nx][ny] else 0)
    else 1
  }

  /** Sum over ny in gy-1 .. upto-1 of column nx. */
  function ColumnWalls(g: Cells, w: nat, h: nat, nx: int, gx: int, gy: int, upto: int): int
    requires IsShape(g, w, h)
    decreases upto - gy
  {
    if upto <= gy - 1 then 0
    else ColumnWalls(g, w, h, nx, gx, gy, upto - 1) + NeighbourWall(g, w, h, nx, upto - 1, gx, gy)
  }

  /** Sum over nx in gx-1 .. upto-1 of the three-cell columns. */
  function BlockWalls(g: Cells, w: nat, h: nat, gx: int, gy: int, upto: int): int
    requires IsShape(g, w, h)
    decreases upto - gx
  {
    if upto <= gx - 1 then 0
    else BlockWalls(g, w, h, gx, gy, upto - 1) + ColumnWalls(g, w, h, upto - 1, gx, gy, gy + 2)
  }

  /** The cells that get the corner correction, as the game tests them:
      the y coordinate is compared with width - 1, not height - 1. */
  predicate IsCorrectedCorner(x: int, y: int, w: int)
  {
    (x == 0 && y == 0) || (x == w - 1 && y == w - 1) ||
    (x == w - 1 && y == 0) || (x == 0 && y == w - 1)
  }

  /** The number of walls around (gx, gy), corner correction included. */
  function WallCount(g: Cells, w: nat, h: nat, gx: int, gy: int): int
    requires IsShape(g, w, h)
  {
    BlockWalls(g, w, h, gx, gy, gx + 2) - (if IsCorrectedCorner(gx, gy, w) then 1 else 0)
  }

  /** One column of the block written out as its three terms. */
  lemma ColumnWallsTerms(g: Cells, w: nat, h: nat, nx: int, gx: int, gy: int)
    requires IsShape(g, w, h)
    ensures ColumnWalls(g, w, h, nx, gx, gy, gy + 2) ==
      NeighbourWall(g, w, h, nx, gy - 1, gx, gy) + NeighbourWall(g, w, h, nx, gy, gx, gy) +
      NeighbourWall(g, w, h, nx, gy + 1, gx, gy)
  {
    assert ColumnWalls(g, w, h, nx, gx, gy, gy - 1) == 0;
    assert ColumnWalls(g, w, h, nx, gx, gy, gy) == NeighbourWall(g, w, h, nx, gy - 1, gx, gy);
    assert ColumnWalls(g, w, h, nx, gx, gy, gy + 1) ==
      ColumnWalls(g, w, h, nx, gx, gy, gy) + NeighbourWall(g, w, h, nx, gy, gx, gy);
  }

  /** The count of an in-grid cell written out as its eight neighbour terms. */
  lemma WallCountTerms(g: Cells, w: nat, h: nat, gx: int, gy: int)
    requires IsShape(g, w, h) && 0 <= gx < w && 0 <= gy < h
    ensures WallCount(g, w, h, gx, gy) ==
      NeighbourWall(g, w, h, gx - 1, gy - 1, gx, gy) + NeighbourWall(g, w, h, gx - 1, gy, gx, gy) +
      NeighbourWall(g, w, h, gx - 1, gy + 1, gx, gy) + NeighbourWall(g, w, h, gx, gy - 1, gx, gy) +
      NeighbourWall(g, w, h, gx, gy + 1, gx, gy) + NeighbourWall(g, w, h, gx + 1, gy - 1, gx, gy) +
      NeighbourWall(g, w, h, gx + 1, gy, gx, gy) + NeighbourWall(g, w, h, gx + 1, gy + 1, gx, gy) -
      (if IsCorrectedCorner(gx, gy, w) then 1 else 0)
  {
    ColumnWallsTerms(g, w, h, gx - 1, gx, gy);
    ColumnWallsTerms(g, w, h, gx, gx, gy);
    ColumnWallsTerms(g, w, h, gx + 1, gx, gy);
    assert BlockWalls(g, w, h, gx, gy, gx - 1) == 0;
    assert BlockWalls(g, w, h, gx, gy, gx) == ColumnWalls(g, w, h, gx - 1, gx, gy, gy + 2);
    assert BlockWalls(g, w, h, gx, gy, gx + 1) ==
      BlockWalls(g, w, h, gx, gy, gx) + ColumnWalls(g, w, h, gx, gx, gy, gy + 2);
    assert NeighbourWall(g, w, h, gx, gy, gx, gy) == 0;
  }

  /** On a 0/1 grid the count of an in-grid cell lies in 0..8: the
      correction only ever applies on the left or right edge, where three
      neighbours are outside the grid. */
  lemma WallCountRange(g: Cells, w: nat, h: nat, gx: int, gy: int)
    requires IsBinary(g, w, h) && 0 <= gx < w && 0 <= gy < h
    ensures 0 <= WallCount(g, w, h, gx, gy) <= 8
  {
    WallCountTerms(g, w, h, gx, gy);
    if IsCorrectedCorner(gx, gy, w) {
      if gx == 0 {
        assert NeighbourWall(g, w, h, gx - 1, gy, gx, gy) == 1;
      } else {
        assert NeighbourWall(g, w, h, gx + 1, gy, gx, gy) == 1;
      }
    }
  }

  /** Every cell of an all-wall grid counts at least 7 walls. */
  lemma AllWallsCount(g: Cells, w: nat, h: nat, gx: int, gy: int)
    requires AllWalls(g, w, h) && 0 <= gx < w && 0 <= gy < h
    ensures WallCount(g, w, h, gx, gy) >= 7
  {
    WallCountTerms(g, w, h, gx, gy);
  }

  /** On a grid that is not square, the geometric corner (0, h-1) gets no
      correction, because the game tests y against width - 1. */
  lemma UncorrectedTopCorner(g: Cells, w: nat, h: nat)
    requires IsShape(g, w, h) && 1 < h && h != w
    ensures !IsCorrectedCorner(0, h - 1, w)
    ensures WallCount(g, w, h, 0, h - 1) == BlockWalls(g, w, h, 0, h - 1, 2)
  {
  }

  // ---------------------------------------------------------------------
  // Smoothing

  /** The smoothing rule: more than 4 walls around makes a wall, fewer than
      4 makes an opening, exactly 4 keeps the cell. */
  function Rule(current: int, count: int): (v: int)
    ensures count > 4 ==> v == 1
    ensures count < 4 ==> v == 0
    ensures count == 4 ==> v == current
  {
    if count > 4 then 1 else if count < 4 then 0 else current
  }

  /** One in-place cell update. */
  function SmoothCell(g: Cells, w: nat, h: nat, x: nat, y: nat): (r: Cells)
    requires IsShape(g, w, h) && x < w && y < h
    ensures IsShape(r, w, h)
    ensures r[x][y] == Rule(g[x][y], WallCount(g, w, h, x, y))
    ensures forall i, j :: 0 <= i < w && 0 <= j < h && (i != x || j != y) ==> r[i][j] == g[i][j]
  {
    g[x := g[x][y := Rule(g[x][y], WallCount(g, w, h, x, y))]]
  }

  /** Column x updated at rows 0 .. y-1, in order, each update seeing the
      ones before it. */
  function SweepColumn(g: Cells, w: nat, h: nat, x: nat, y: nat): (r: Cells)
    requires IsShape(g, w, h) && x < w && y <= h
    ensures IsShape(r, w, h)
  {
    if y == 0 then g else SmoothCell(SweepColumn(g, w, h, x, y - 1), w, h, x, y - 1)
  }

  /** Columns 0 .. x-1 swept, in order. */
  function SweepColumns(g: Cells, w: nat, h: nat, x: nat): (r: Cells)
    requires IsShape(g, w, h) && x <= w
    ensures IsShape(r, w, h)
  {
    if x == 0 then g else SweepColumn(SweepColumns(g, w, h, x - 1), w, h, x - 1, h)
  }

  /** One smoothing pass: every cell, x outer and y inner, in place. */
  function SmoothPass(g: Cells, w: nat, h: nat): (r: Cells)
    requires IsShape(g, w, h)
    ensures IsShape(r, w, h)
  {
    SweepColumns(g, w, h, w)
  }

  /** `n` passes; no pass at all when n <= 0. */
  function Smooth(g: Cells, w: nat, h: nat, n: int): (r: Cells)
    requires IsShape(g, w, h)
    ensures IsShape(r, w, h)
    decreases n
  {
    if n <= 0 then g else SmoothPass(Smooth(g, w, h, n - 1), w, h)
  }

  /** The grid the constructor builds. */
  function Generated(w: nat, h: nat, fillPercent: int, draws: seq<int>, smoothIterations: int): Cells
    requires |draws| == w * h
  {
    Smooth(Filled(draws, w, h, fillPercent), w, h, smoothIterations)
  }

  lemma {:induction false} SweepColumnKeepsBinary(g: Cells, w: nat, h: nat, x: nat, y: nat)
    requires IsBinary(g, w, h) && x < w && y <= h
    ensures IsBinary(SweepColumn(g, w, h, x, y), w, h)
  {
    if y > 0 {
      SweepColumnKeepsBinary(g, w, h, x, y - 1);
    }
  }

  lemma {:induction false} SweepColumnsKeepBinary(g: Cells, w: nat, h: nat, x: nat)
    requires IsBinary(g, w, h) && x <= w
    ensures IsBinary(SweepColumns(g, w, h, x), w, h)
  {
    if x > 0 {
      SweepColumnsKeepBinary(g, w, h, x - 1);
      SweepColumnKeepsBinary(SweepColumns(g, w, h, x - 1), w, h, x - 1, h);
    }
  }

  /** Smoothing keeps every cell 0 or 1. */
  lemma {:induction false} SmoothKeepsBinary(g: Cells, w: nat, h: nat, n: int)
    requires IsBinary(g, w, h)
    ensures IsBinary(Smooth(g, w, h, n), w, h)
    decreases n
  {
    if n > 0 {
      SmoothKeepsBinary(g, w, h, n - 1);
      SweepColumnsKeepBinary(Smooth(g, w, h, n - 1), w, h, w);
    }
  }

  /** Every constructed grid is width x height with only 0 and 1 cells. */
  lemma GeneratedIsBinary(w: nat, h: nat, fillPercent: int, draws: seq<int>, smoothIterations: int)
    requires |draws| == w * h
    ensures IsBinary(Generated(w, h, fillPercent, draws, smoothIterations), w, h)
  {
    SmoothKeepsBinary(Filled(draws, w, h, fillPercent), w, h, smoothIterations);
  }

  lemma {:induction false} SweepColumnKeepsWalls(g: Cells, w: nat, h: nat, x: nat, y: nat)
    requires AllWalls(g, w, h) && x < w && y <= h
    ensures SweepColumn(g, w, h, x, y) == g
  {
    if y > 0 {
      SweepColumnKeepsWalls(g, w, h, x, y - 1);
      AllWallsCount(g, w, h, x, y - 1);
      assert g[x][y - 1 := 1] == g[x];
      assert g[x := g[x]] == g;
    }
  }

  lemma {:induction false} SweepColumnsKeepWalls(g: Cells, w: nat, h: nat, x: nat)
    requires AllWalls(g, w, h) && x <= w
    ensures SweepColumns(g, w, h, x) == g
  {
    if x > 0 {
      SweepColumnsKeepWalls(g, w, h, x - 1);
      SweepColumnKeepsWalls(g, w, h, x - 1, h);
    }
  }

  /** An all-wall grid is a fixpoint of a smoothing pass: every cell counts
      more than 4 walls around it. */
  lemma AllWallsFixpoint(g: Cells, w: nat, h: nat)
    requires AllWalls(g, w, h)
    ensures SmoothPass(g, w, h) == g
  {
    SweepColumnsKeepWalls(g, w, h, w);
  }

  // ---------------------------------------------------------------------
  // The class

  class FilledGrid {
    /** The grid of 1's and 0's; allocated once, then filled and smoothed. */
    const Grid: array2<int>

    /** The array's contents as a value. */
    function Cells(): (g: Cells)
      reads Grid
      ensures IsShape(g, Grid.Length0, Grid.Length1)
      ensures forall x, y :: 0 <= x < Grid.Length0 && 0 <= y < Grid.Length1 ==> g[x][y] == Grid[x, y]
    {
      seq(Grid.Length0, x requires 0 <= x < Grid.Length0 reads Grid =>
        seq(Grid.Length1, y requires 0 <= y < Grid.Length1 reads Grid => Grid[x, y]))
    }

    /** The array holds exactly the grid value `g`. */
    ghost predicate Holds(g: Cells)
      reads Grid
    {
      IsShape(g, Grid.Length0, Grid.Length1) &&
      forall x, y :: 0 <= x < Grid.Length0 && 0 <= y < Grid.Length1 ==> Grid[x, y] == g[x][y]
    }

    lemma HoldsIsCells(g: Cells)
      requires Holds(g)
      ensures Cells() == g
    {
      var c := Cells();
      forall x | 0 <= x < Grid.Length0
        ensures c[x] == g[x]
      {
      }
    }

    /** Allocates the grid, fills it from `draws` (one draw in 0..99 per
        cell, standing for the seeded generator) and smooths it. */
    constructor (width: nat, height: nat, fillPercent: int, draws: seq<int>, smoothIterations: int)
      requires |draws| == width * height
      ensures fresh(Grid)
      ensures Grid.Length0 == width && Grid.Length1 == height
      ensures Cells() == Generated(width, height, fillPercent, draws, smoothIterations)
    {
      Grid := new int[width, height];
      new;
      RandomFillGrid(draws, width, height, fillPercent);
      SmoothGrid(width, height, smoothIterations);
    }

    /** Sets each cell to 1 exactly when its draw is below fillPercent. */
    method RandomFillGrid(draws: seq<int>, width: nat, height: nat, fillPercent: int)
      requires width == Grid.Length0 && height == Grid.Length1
      requires |draws| == width * height
      modifies Grid
      ensures Cells() == Filled(draws, width, height, fillPercent)
    {
      ghost var target := Filled(draws, width, height, fillPercent);
      var next := 0;  // the generator's position in its stream of draws
      for x := 0 to width
        invariant next == x * height
        invariant forall i, j :: 0 <= i < x && 0 <= j < height ==> Grid[i, j] == target[i][j]
      {
        for y := 0 to height
          invariant next == x * height + y
          invariant forall i, j :: 0 <= i < x && 0 <= j < height ==> Grid[i, j] == target[i][j]
          invariant forall j :: 0 <= j < y ==> Grid[x, j] == target[x][j]
        {
          DrawIndexBound(x, y, width, height);
          Grid[x, y] := if draws[next] < fillPercent then 1 else 0;
          next := next + 1;
        }
        assert next == (x + 1) * height;
      }
      HoldsIsCells(target);
    }

    /** The neighbour wall count of one cell, read from the array. */
    method GetSurroundingWallCount(gridX: int, gridY: int, width: nat, height: nat) returns (wallCount: int)
      requires width == Grid.Length0 && height == Grid.Length1
      ensures wallCount == WallCount(Cells(), width, height, gridX, gridY)
    {
      ghost var g := Cells();
      wallCount := 0;
      var neighbourX := gridX - 1;
      while neighbourX <= gridX + 1
        invariant gridX - 1 <= neighbourX <= gridX + 2
        invariant wallCount == BlockWalls(g, width, height, gridX, gridY, neighbourX)
      {
        var neighbourY := gridY - 1;
        while neighbourY <= gridY + 1
          invariant gridY - 1 <= neighbourY <= gridY + 2
          invariant wallCount == BlockWalls(g, width, height, gridX, gridY, neighbourX)
                               + ColumnWalls(g, width, height, neighbourX, gridX, gridY, neighbourY)
        {
          if 0 <= neighbourX < width && 0 <= neighbourY < height {
            if neighbourX != gridX || neighbourY != gridY {
              wallCount := wallCount + Grid[neighbourX, neighbourY];
            }
          } else {
            wallCount := wallCount + 1;
          }
          neighbourY := neighbourY + 1;
        }
        neighbourX := neighbourX + 1;
      }
      if IsCorrectedCorner(gridX, gridY, width) {
        wallCount := wallCount - 1;
      }
    }

    /** `smoothIterations` passes of the rule, each cell updated in place in
        x-outer, y-inner order so later cells see earlier updates. */
    method SmoothGrid(width: nat, height: nat, smoothIterations: int)
      requires width == Grid.Length0 && height == Grid.Length1
      modifies Grid
      ensures Cells() == Smooth(old(Cells()), width, height, smoothIterations)
    {
      ghost var g0 := Cells();
      var i := 0;
      while i < smoothIterations
        invariant 0 <= i && (i == 0 || i <= smoothIterations)
        invariant Holds(Smooth(g0, width, height, i))
      {
        ghost var start := Smooth(g0, width, height, i);
        for x := 0 to width
          invariant Holds(SweepColumns(start, width, height, x))
        {
          SmoothColumn(SweepColumns(start, width, height, x), x, width, height);
        }
        i := i + 1;
      }
      HoldsIsCells(Smooth(g0, width, height, i));
    }

    /** The inner loop of one pass: column x, rows in increasing order. */
    method SmoothColumn(ghost g: Cells, x: nat, width: nat, height: nat)
      requires width == Grid.Length0 && height == Grid.Length1 && x < width
      requires Holds(g)
      modifies Grid
      ensures Holds(SweepColumn(g, width, height, x, height))
    {
      for y := 0 to height
        invariant Holds(SweepColumn(g, width, height, x, y))
      {
        ghost var before := SweepColumn(g, width, height, x, y);
        HoldsIsCells(before);
        var neighbourWallTiles := GetSurroundingWallCount(x, y, width, height);
        if neighbourWallTiles > 4 {
          Grid[x, y] := 1;
        } else if neighbourWallTiles < 4 {
          Grid[x, y] := 0;
        }
        ghost var after := SmoothCell(before, width, height, x, y);
        assert Grid[x, y] == after[x][y];
        assert Holds(after);
      }
    }
  }
}
