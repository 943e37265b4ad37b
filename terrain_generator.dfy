/** The island builder: paints cellular-automaton islands onto the land and
    collision maps, checks each island's entrances and respawns it until
    they are there, and keeps a list of the islands it has placed. */
module Terrain {
  import opened Optional
  import opened CellularGrid
  import opened Tilemaps

  /** What is kept about a placed island so it can be repainted or removed. */
  datatype SpawnedIsland = SpawnedIsland(coords: Coords, grid: Cells, terrainType: TerrainType,
                                         terrainTile: TerrainTile)

  function IslandCoords(r: SpawnedIsland): Coords
  {
    r.coords
  }

  /** The builder's state as a value: both tile maps and the records. */
  datatype Layout = Layout(land: map<Cell, LandTile>, collision: set<Cell>, islands: seq<SpawnedIsland>)

  /** `a` is `b` with the island at `at` painted from grid `g` (border
      collision first, then the body) and recorded once more at the end. */
  ghost predicate CreatedFrom(b: Layout, a: Layout, w: nat, h: nat, at: Coords, g: Cells,
                              tt: TerrainType, tile: TerrainTile)
  {
    IsShape(g, w, h) &&
    a.islands == b.islands + [SpawnedIsland(at, g, tt, tile)] &&
    (forall c :: Lookup(a.land, c) == PaintedLand(b.land, g, w, h, Origin(w, h, at), tile, c)) &&
    (forall c :: c in a.collision <==> PaintedCollides(b.land, b.collision, g, w, h, Origin(w, h, at), c))
  }

  /** `a` is `b` with the island at `at` removed: its footprint cleared of
      land and covered in collision, its first record dropped, and the
      first island recorded just above it repainted from its record. */
  ghost predicate RemovedFrom(b: Layout, a: Layout, w: nat, h: nat, at: Coords)
  {
    var o := Origin(w, h, at);
    var cleared := Layout(Cleared(b.land, o, w, h), b.collision + Footprint(o, w, h),
                          RemoveFirst(b.islands, IslandCoords, at));
    match FirstAt(cleared.islands, IslandCoords, Coords(at.x, at.y + 1))
    case None => a == cleared
    case Some(i) =>
      var above := cleared.islands[i];
      CreatedFrom(cleared, a, w, h, above.coords, above.grid, above.terrainType, above.terrainTile)
  }

  /** `a` is what spawning the island at `at` leaves from `b`: the island
      painted from a fresh grid of the first draws is kept when every probe
      its type needs finds land, or when no draws are left; otherwise it is
      removed and spawned again from the remaining draws. */
  ghost predicate SpawnedFrom(b: Layout, a: Layout, w: nat, h: nat, at: Coords, fillAmount: int,
                              smoothPasses: int, tt: TerrainType, tile: TerrainTile, attempts: seq<seq<int>>)
    decreases |attempts|, 1
  {
    |attempts| > 0 && |attempts[0]| == w * h &&
    var g := Generated(w, h, fillAmount, attempts[0], smoothPasses);
    exists m :: CreatedFrom(b, m, w, h, at, g, tt, tile) &&
      Continued(m, a, w, h, at, fillAmount, smoothPasses, tt, tile, attempts)
  }

  /** What follows a painting `m` in a spawn: it is kept when it has its
      entrances or no draws are left, and is otherwise removed and spawned
      again from the remaining draws. */
  ghost predicate Continued(m: Layout, a: Layout, w: nat, h: nat, at: Coords, fillAmount: int,
                            smoothPasses: int, tt: TerrainType, tile: TerrainTile, attempts: seq<seq<int>>)
    requires |attempts| > 0
    decreases |attempts|, 0
  {
    if !NeedsRespawn(m.land, w, h, at, tt) || |attempts| == 1 then a == m
    else exists r :: RemovedFrom(m, r, w, h, at) &&
           SpawnedFrom(r, a, w, h, at, fillAmount, smoothPasses, tt, tile, attempts[1..])
  }

  /** The unfolding of SpawnedFrom for a first painting `m`. */
  lemma SpawnedByFirstTry(b: Layout, m: Layout, a: Layout, w: nat, h: nat, at: Coords, fillAmount: int,
                          smoothPasses: int, tt: TerrainType, tile: TerrainTile, attempts: seq<seq<int>>)
    requires |attempts| > 0 && |attempts[0]| == w * h
    requires CreatedFrom(b, m, w, h, at, Generated(w, h, fillAmount, attempts[0], smoothPasses), tt, tile)
    requires Continued(m, a, w, h, at, fillAmount, smoothPasses, tt, tile, attempts)
    ensures SpawnedFrom(b, a, w, h, at, fillAmount, smoothPasses, tt, tile, attempts)
  {
  }

  /** Painting an island leaves one state only. */
  lemma CreatedUnique(b: Layout, a1: Layout, a2: Layout, w: nat, h: nat, at: Coords, g: Cells,
                      tt: TerrainType, tile: TerrainTile)
    requires CreatedFrom(b, a1, w, h, at, g, tt, tile) && CreatedFrom(b, a2, w, h, at, g, tt, tile)
    ensures a1 == a2
  {
    LookupExtensional(a1.land, a2.land);
    assert a1.collision == a2.collision by {
      forall c ensures c in a1.collision <==> c in a2.collision {
        assert c in a1.collision <==> PaintedCollides(b.land, b.collision, g, w, h, Origin(w, h, at), c);
      }
    }
  }

  /** The first try decides: an island whose first painting has every
      entrance its type needs is kept exactly as painted, and a respawn
      happens only after that painting failed a probe, starting from its
      removal. */
  lemma FirstTryDecides(b: Layout, a: Layout, m: Layout, w: nat, h: nat, at: Coords, fillAmount: int,
                        smoothPasses: int, tt: TerrainType, tile: TerrainTile, attempts: seq<seq<int>>)
    requires SpawnedFrom(b, a, w, h, at, fillAmount, smoothPasses, tt, tile, attempts)
    requires CreatedFrom(b, m, w, h, at, Generated(w, h, fillAmount, attempts[0], smoothPasses), tt, tile)
    ensures !NeedsRespawn(m.land, w, h, at, tt) ==> a == m
    ensures a != m ==>
              NeedsRespawn(m.land, w, h, at, tt) && |attempts| > 1 &&
              exists r :: RemovedFrom(m, r, w, h, at) &&
                SpawnedFrom(r, a, w, h, at, fillAmount, smoothPasses, tt, tile, attempts[1..])
  {
    var g := Generated(w, h, fillAmount, attempts[0], smoothPasses);
    var m' :| CreatedFrom(b, m', w, h, at, g, tt, tile) &&
      Continued(m', a, w, h, at, fillAmount, smoothPasses, tt, tile, attempts);
    CreatedUnique(b, m, m', w, h, at, g, tt, tile);
  }

  class TerrainGenerator {
    const islandWidth: nat
    const islandHeight: nat
    /** The land tile map. */
    var land: map<Cell, LandTile>
    /** The cells of the collision tile map holding the collision tile. */
    var collision: set<Cell>
    var spawnedIslands: seq<SpawnedIsland>

    /** Every recorded grid is an island-sized 0/1 grid. */
    ghost predicate Valid()
      reads this
    {
      forall r :: r in spawnedIslands ==> IsBinary(r.grid, islandWidth, islandHeight)
    }

    /** The maps and records, as a value. */
    ghost function State(): Layout
      reads this
    {
      Layout(land, collision, spawnedIslands)
    }

    constructor (islandWidth: nat, islandHeight: nat)
      ensures Valid()
      ensures this.islandWidth == islandWidth && this.islandHeight == islandHeight
      ensures land == map[] && collision == {} && spawnedIslands == []
    {
      this.islandWidth := islandWidth;
      this.islandHeight := islandHeight;
      land := map[];
      collision := {};
      spawnedIslands := [];
    }

    /** The grid an island is painted from: the one passed in, or a fresh
        one generated from the draws. */
    ghost function GridFor(given: Option<Cells>, fillAmount: int, smoothPasses: int, draws: seq<int>): Cells
      reads this
      requires given.None? ==> |draws| == islandWidth * islandHeight
    {
      if given.Some? then given.value
      else Generated(islandWidth, islandHeight, fillAmount, draws, smoothPasses)
    }

    /** Paints the island at (xPos, yPos): the border collision first, then
        the body, and records it. `draws` stands for the random generator
        and is only used when no grid is passed in. */
    method CreateIsland(xPos: int, yPos: int, fillAmount: int, smoothPasses: int, terrainTile: TerrainTile,
                        terrainType: TerrainType, given: Option<Cells>, draws: seq<int>)
      requires Valid()
      requires given.Some? ==> IsBinary(given.value, islandWidth, islandHeight)
      requires given.None? ==> |draws| == islandWidth * islandHeight
      modifies this
      ensures Valid()
      ensures CreatedFrom(old(State()), State(), islandWidth, islandHeight, Coords(xPos, yPos),
                          GridFor(given, fillAmount, smoothPasses, draws), terrainType, terrainTile)
    {
      var g: Cells;
      if given.Some? {
        g := given.value;
      } else {
        var filledGrid := new FilledGrid(islandWidth, islandHeight, fillAmount, draws, smoothPasses);
        g := filledGrid.Cells();
        GeneratedIsBinary(islandWidth, islandHeight, fillAmount, draws, smoothPasses);
      }
      var o := Origin(islandWidth, islandHeight, Coords(xPos, yPos));
      var bordered := PaintBorder(land, collision, o, islandWidth, islandHeight);
      var painted, colliding := PaintBody(land, bordered, g, islandWidth, islandHeight, o, terrainTile);
      land, collision := painted, colliding;
      spawnedIslands := spawnedIslands + [SpawnedIsland(Coords(xPos, yPos), g, terrainType, terrainTile)];
    }

    /** Removes the island at (xPos, yPos): its footprint loses its land
        tiles and gets collision tiles, the first record there is dropped,
        and the first island recorded just above is repainted from its
        stored grid (which records it a second time). */
    method RemoveIsland(xPos: int, yPos: int)
      requires Valid()
      modifies this
      ensures Valid()
      ensures RemovedFrom(old(State()), State(), islandWidth, islandHeight, Coords(xPos, yPos))
    {
      var o := Origin(islandWidth, islandHeight, Coords(xPos, yPos));
      land, collision := ClearFootprint(land, collision, o, islandWidth, islandHeight, true);
      DropFirst(Coords(xPos, yPos));
      var above := FindIsland(spawnedIslands, IslandCoords, Coords(xPos, yPos + 1));
      if above.Some? {
        var r := spawnedIslands[above.value];
        CreateIsland(r.coords.x, r.coords.y, 0, 0, r.terrainTile, r.terrainType, Some(r.grid), []);
      }
    }

    /** Drops the first record at `at`, if any (foreach, Remove, break). */
    method DropFirst(at: Coords)
      requires Valid()
      modifies this
      ensures Valid()
      ensures spawnedIslands == RemoveFirst(old(spawnedIslands), IslandCoords, at)
      ensures land == old(land) && collision == old(collision)
    {
      var found := FindIsland(spawnedIslands, IslandCoords, at);
      if found.Some? {
        var i := found.value;
        spawnedIslands := spawnedIslands[..i] + spawnedIslands[i + 1..];
      }
      RemoveFirstTakesOne(old(spawnedIslands), IslandCoords, at);
      assert forall r :: r in spawnedIslands ==> r in old(spawnedIslands) by {
        forall r | r in spawnedIslands ensures r in old(spawnedIslands) {
          assert r in multiset(spawnedIslands);
        }
      }
    }

    /** Creates the island and respawns it while an entrance its type needs
        is missing. Each creation consumes one entry of `attempts` (the draws
        of one random grid); when they run out the last island stays and the
        result reports whether it was accepted. */
    method SpawnIsland(xPos: int, yPos: int, fillAmount: int, smoothPasses: int, terrainTile: TerrainTile,
                       terrainType: TerrainType, attempts: seq<seq<int>>) returns (accepted: bool)
      requires Valid()
      requires |attempts| > 0
      requires forall k :: 0 <= k < |attempts| ==> |attempts[k]| == islandWidth * islandHeight
      modifies this
      decreases |attempts|, 1
      ensures Valid()
      ensures accepted <==> !NeedsRespawn(land, islandWidth, islandHeight, Coords(xPos, yPos), terrainType)
      ensures |spawnedIslands| > 0
      ensures var last := spawnedIslands[|spawnedIslands| - 1];
              last.coords == Coords(xPos, yPos) && last.terrainType == terrainType &&
              last.terrainTile == terrainTile
      ensures SpawnedFrom(old(State()), State(), islandWidth, islandHeight, Coords(xPos, yPos), fillAmount,
                          smoothPasses, terrainType, terrainTile, attempts)
    {
      CreateIsland(xPos, yPos, fillAmount, smoothPasses, terrainTile, terrainType, None, attempts[0]);
      ghost var made := State();
      if NeedsRespawn(land, islandWidth, islandHeight, Coords(xPos, yPos), terrainType) {
        if |attempts| > 1 {
          accepted := RespawnIsland(xPos, yPos, fillAmount, smoothPasses, terrainTile, terrainType, attempts[1..]);
        } else {
          accepted := false;
        }
      } else {
        accepted := true;
      }
      SpawnedByFirstTry(old(State()), made, State(), islandWidth, islandHeight, Coords(xPos, yPos), fillAmount,
                        smoothPasses, terrainType, terrainTile, attempts);
    }

    /** Removes the island and spawns it again. */
    method RespawnIsland(xPos: int, yPos: int, fillAmount: int, smoothPasses: int, terrainTile: TerrainTile,
                         terrainType: TerrainType, attempts: seq<seq<int>>) returns (accepted: bool)
      requires Valid()
      requires |attempts| > 0
      requires forall k :: 0 <= k < |attempts| ==> |attempts[k]| == islandWidth * islandHeight
      modifies this
      decreases |attempts|, 2
      ensures Valid()
      ensures accepted <==> !NeedsRespawn(land, islandWidth, islandHeight, Coords(xPos, yPos), terrainType)
      ensures |spawnedIslands| > 0
      ensures var last := spawnedIslands[|spawnedIslands| - 1];
              last.coords == Coords(xPos, yPos) && last.terrainType == terrainType &&
              last.terrainTile == terrainTile
      ensures exists r :: RemovedFrom(old(State()), r, islandWidth, islandHeight, Coords(xPos, yPos)) &&
                SpawnedFrom(r, State(), islandWidth, islandHeight, Coords(xPos, yPos), fillAmount,
                            smoothPasses, terrainType, terrainTile, attempts)
    {
      RemoveIsland(xPos, yPos);
      ghost var removed := State();
      accepted := SpawnIsland(xPos, yPos, fillAmount, smoothPasses, terrainTile, terrainType, attempts);
      assert RemovedFrom(old(State()), removed, islandWidth, islandHeight, Coords(xPos, yPos));
    }
  }
}
