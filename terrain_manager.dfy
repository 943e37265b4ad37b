/** The earlier island builder. It paints islands exactly as the later one
    does, but records only where an island is and its grid, removes an
    island without putting collision tiles on its footprint, and repaints
    the island above a respawned one from the respawning caller. */
module LegacyTerrain {
  import opened Optional
  import opened CellularGrid
  import opened Tilemaps

  datatype SpawnedIsland = SpawnedIsland(coords: Coords, grid: Cells)

  function IslandCoords(r: SpawnedIsland): Coords
  {
    r.coords
  }

  /** The builder's state as a value: both tile maps and the records. */
  datatype Layout = Layout(land: map<Cell, LandTile>, collision: set<Cell>, islands: seq<SpawnedIsland>)

  /** `a` is `b` with the island at `at` painted from grid `g` with tile
      `tile` (border collision first, then the body) and recorded once more
      at the end. */
  ghost predicate CreatedFrom(b: Layout, a: Layout, w: nat, h: nat, at: Coords, g: Cells, tile: TerrainTile)
  {
    IsShape(g, w, h) &&
    a.islands == b.islands + [SpawnedIsland(at, g)] &&
    (forall c :: Lookup(a.land, c) == PaintedLand(b.land, g, w, h, Origin(w, h, at), tile, c)) &&
    (forall c :: c in a.collision <==> PaintedCollides(b.land, b.collision, g, w, h, Origin(w, h, at), c))
  }

  /** `a` is `b` with the island at `at` removed: its footprint cleared of
      land (collision untouched) and its first record dropped. */
  ghost predicate RemovedFrom(b: Layout, a: Layout, w: nat, h: nat, at: Coords)
  {
    a.land == Cleared(b.land, Origin(w, h, at), w, h) && a.collision == b.collision &&
    a.islands == RemoveFirst(b.islands, IslandCoords, at)
  }

  /** `a` is `b` with the first island recorded just above `at` repainted
      from its stored grid but with tile `tile`, and recorded again; `a` is
      `b` when there is none. */
  ghost predicate RepaintedAbove(b: Layout, a: Layout, w: nat, h: nat, at: Coords, tile: TerrainTile)
  {
    match FirstAt(b.islands, IslandCoords, Coords(at.x, at.y + 1))
    case None => a == b
    case Some(i) => CreatedFrom(b, a, w, h, b.islands[i].coords, b.islands[i].grid, tile)
  }

  /** `a` is what spawning the island at `at` leaves from `b`: the island
      painted from a fresh grid of the first draws, then what follows it. */
  ghost predicate SpawnedFrom(b: Layout, a: Layout, w: nat, h: nat, at: Coords, fillAmount: int,
                              smoothPasses: int, tt: TerrainType, tile: TerrainTile, attempts: seq<seq<int>>)
    decreases |attempts|, 1
  {
    |attempts| > 0 && |attempts[0]| == w * h &&
    var g := Generated(w, h, fillAmount, attempts[0], smoothPasses);
    exists m :: CreatedFrom(b, m, w, h, at, g, tile) &&
      Continued(m, a, w, h, at, fillAmount, smoothPasses, tt, tile, attempts)
  }

  /** What follows a painting `m` in a spawn: it is kept when it has its
      entrances or no draws are left; otherwise it is removed, the island
      above is repainted with this island's tile, and the island is spawned
      again from the remaining draws. */
  ghost predicate Continued(m: Layout, a: Layout, w: nat, h: nat, at: Coords, fillAmount: int,
                            smoothPasses: int, tt: TerrainType, tile: TerrainTile, attempts: seq<seq<int>>)
    requires |attempts| > 0
    decreases |attempts|, 0
  {
    if !NeedsRespawn(m.land, w, h, at, tt) || |attempts| == 1 then a == m
    else exists r, p :: RemovedFrom(m, r, w, h, at) && RepaintedAbove(r, p, w, h, at, tile) &&
           SpawnedFrom(p, a, w, h, at, fillAmount, smoothPasses, tt, tile, attempts[1..])
  }

  /** The unfolding of SpawnedFrom for a first painting `m`. */
  lemma SpawnedByFirstTry(b: Layout, m: Layout, a: Layout, w: nat, h: nat, at: Coords, fillAmount: int,
                          smoothPasses: int, tt: TerrainType, tile: TerrainTile, attempts: seq<seq<int>>)
    requires |attempts| > 0 && |attempts[0]| == w * h
    requires CreatedFrom(b, m, w, h, at, Generated(w, h, fillAmount, attempts[0], smoothPasses), tile)
    requires Continued(m, a, w, h, at, fillAmount, smoothPasses, tt, tile, attempts)
    ensures SpawnedFrom(b, a, w, h, at, fillAmount, smoothPasses, tt, tile, attempts)
  {
  }

  /** Painting an island leaves one state only. */
  lemma CreatedUnique(b: Layout, a1: Layout, a2: Layout, w: nat, h: nat, at: Coords, g: Cells, tile: TerrainTile)
    requires CreatedFrom(b, a1, w, h, at, g, tile) && CreatedFrom(b, a2, w, h, at, g, tile)
    ensures a1 == a2
  {
    LookupExtensional(a1.land, a2.land);
    assert a1.collision == a2.collision by {
      forall c ensures c in a1.collision <==> c in a2.collision {
        assert c in a1.collision <==> PaintedCollides(b.land, b.collision, g, w, h, Origin(w, h, at), c);
      }
    }
  }

  /** The first try decides: an island whose first painting has every
      entrance its type needs is kept exactly as painted, and a respawn
      happens only after that painting failed a probe, starting from its
      removal and the repaint above it. */
  lemma FirstTryDecides(b: Layout, a: Layout, m: Layout, w: nat, h: nat, at: Coords, fillAmount: int,
                        smoothPasses: int, tt: TerrainType, tile: TerrainTile, attempts: seq<seq<int>>)
    requires SpawnedFrom(b, a, w, h, at, fillAmount, smoothPasses, tt, tile, attempts)
    requires CreatedFrom(b, m, w, h, at, Generated(w, h, fillAmount, attempts[0], smoothPasses), tile)
    ensures !NeedsRespawn(m.land, w, h, at, tt) ==> a == m
    ensures a != m ==>
              NeedsRespawn(m.land, w, h, at, tt) && |attempts| > 1 &&
              exists r, p :: RemovedFrom(m, r, w, h, at) && RepaintedAbove(r, p, w, h, at, tile) &&
                SpawnedFrom(p, a, w, h, at, fillAmount, smoothPasses, tt, tile, attempts[1..])
  {
    var g := Generated(w, h, fillAmount, attempts[0], smoothPasses);
    var m' :| CreatedFrom(b, m', w, h, at, g, tile) &&
      Continued(m', a, w, h, at, fillAmount, smoothPasses, tt, tile, attempts);
    CreatedUnique(b, m, m', w, h, at, g, tile);
  }

  class TerrainManager {
    const islandWidth: nat
    const islandHeight: nat
    var land: map<Cell, LandTile>
    var collision: set<Cell>
    var spawnedIslands: seq<SpawnedIsland>

    ghost predicate Valid()
      reads this
    {
      forall r :: r in spawnedIslands ==> IsBinary(r.grid, islandWidth, islandHeight)
    }

    /** The maps and records, as a value. */
    ghost function State(): Layout
      reads this
    {
      Layout(land, collision, spawnedIslands)
    }

    constructor (islandWidth: nat, islandHeight: nat)
      ensures Valid()
      ensures this.islandWidth == islandWidth && this.islandHeight == islandHeight
      ensures land == map[] && collision == {} && spawnedIslands == []
    {
      this.islandWidth := islandWidth;
      this.islandHeight := islandHeight;
      land := map[];
      collision := {};
      spawnedIslands := [];
    }

    ghost function GridFor(given: Option<Cells>, fillAmount: int, smoothPasses: int, draws: seq<int>): Cells
      reads this
      requires given.None? ==> |draws| == islandWidth * islandHeight
    {
      if given.Some? then given.value
      else Generated(islandWidth, islandHeight, fillAmount, draws, smoothPasses)
    }

    /** Paints the island at (xPos, yPos) and records its coordinates and grid. */
    method CreateIsland(xPos: int, yPos: int, fillAmount: int, smoothPasses: int, terrainTile: TerrainTile,
                        given: Option<Cells>, draws: seq<int>)
      requires Valid()
      requires given.Some? ==> IsBinary(given.value, islandWidth, islandHeight)
      requires given.None? ==> |draws| == islandWidth * islandHeight
      modifies this
      ensures Valid()
      ensures CreatedFrom(old(State()), State(), islandWidth, islandHeight, Coords(xPos, yPos),
                          GridFor(given, fillAmount, smoothPasses, draws), terrainTile)
    {
      var g: Cells;
      if given.Some? {
        g := given.value;
      } else {
        var filledGrid := new FilledGrid(islandWidth, islandHeight, fillAmount, draws, smoothPasses);
        g := filledGrid.Cells();
        GeneratedIsBinary(islandWidth, islandHeight, fillAmount, draws, smoothPasses);
      }
      var o := Origin(islandWidth, islandHeight, Coords(xPos, yPos));
      var bordered := PaintBorder(land, collision, o, islandWidth, islandHeight);
      var painted, colliding := PaintBody(land, bordered, g, islandWidth, islandHeight, o, terrainTile);
      land, collision := painted, colliding;
      spawnedIslands := spawnedIslands + [SpawnedIsland(Coords(xPos, yPos), g)];
    }

    /** Clears the footprint's land tiles (collision untouched) and drops
        the first record at (xPos, yPos). */
    method RemoveIsland(xPos: int, yPos: int)
      requires Valid()
      modifies this
      ensures Valid()
      ensures RemovedFrom(old(State()), State(), islandWidth, islandHeight, Coords(xPos, yPos))
    {
      var o := Origin(islandWidth, islandHeight, Coords(xPos, yPos));
      land, collision := ClearFootprint(land, collision, o, islandWidth, islandHeight, false);
      DropFirst(Coords(xPos, yPos));
    }

    /** Drops the first record at `at`, if any (foreach, Remove, break). */
    method DropFirst(at: Coords)
      requires Valid()
      modifies this
      ensures Valid()
      ensures spawnedIslands == RemoveFirst(old(spawnedIslands), IslandCoords, at)
      ensures land == old(land) && collision == old(collision)
    {
      var found := FindIsland(spawnedIslands, IslandCoords, at);
      if found.Some? {
        var i := found.value;
        spawnedIslands := spawnedIslands[..i] + spawnedIslands[i + 1..];
      }
      RemoveFirstTakesOne(old(spawnedIslands), IslandCoords, at);
      assert forall r :: r in spawnedIslands ==> r in old(spawnedIslands) by {
        forall r | r in spawnedIslands ensures r in old(spawnedIslands) {
          assert r in multiset(spawnedIslands);
        }
      }
    }

    /** Creates the island and respawns it while a needed entrance is
        missing; one entry of `attempts` per creation, as in the later
        builder. */
    method SpawnIsland(xPos: int, yPos: int, fillAmount: int, smoothPasses: int, terrainTile: TerrainTile,
                       terrainType: TerrainType, attempts: seq<seq<int>>) returns (accepted: bool)
      requires Valid()
      requires |attempts| > 0
      requires forall k :: 0 <= k < |attempts| ==> |attempts[k]| == islandWidth * islandHeight
      modifies this
      decreases |attempts|, 1
      ensures Valid()
      ensures accepted <==> !NeedsRespawn(land, islandWidth, islandHeight, Coords(xPos, yPos), terrainType)
      ensures |spawnedIslands| > 0 && spawnedIslands[|spawnedIslands| - 1].coords == Coords(xPos, yPos)
      ensures SpawnedFrom(old(State()), State(), islandWidth, islandHeight, Coords(xPos, yPos), fillAmount,
                          smoothPasses, terrainType, terrainTile, attempts)
    {
      CreateIsland(xPos, yPos, fillAmount, smoothPasses, terrainTile, None, attempts[0]);
      ghost var made := State();
      if NeedsRespawn(land, islandWidth, islandHeight, Coords(xPos, yPos), terrainType) {
        if |attempts| > 1 {
          accepted := RespawnIsland(xPos, yPos, fillAmount, smoothPasses, terrainTile, terrainType, attempts[1..]);
        } else {
          accepted := false;
        }
      } else {
        accepted := true;
      }
      SpawnedByFirstTry(old(State()), made, State(), islandWidth, islandHeight, Coords(xPos, yPos), fillAmount,
                        smoothPasses, terrainType, terrainTile, attempts);
    }

    /** Removes the island, repaints the first island recorded just above it
        from its stored grid but with this island's terrain tile (recording it
        again), then spawns this island anew. */
    method RespawnIsland(xPos: int, yPos: int, fillAmount: int, smoothPasses: int, terrainTile: TerrainTile,
                         terrainType: TerrainType, attempts: seq<seq<int>>) returns (accepted: bool)
      requires Valid()
      requires |attempts| > 0
      requires forall k :: 0 <= k < |attempts| ==> |attempts[k]| == islandWidth * islandHeight
      modifies this
      decreases |attempts|, 2
      ensures Valid()
      ensures accepted <==> !NeedsRespawn(land, islandWidth, islandHeight, Coords(xPos, yPos), terrainType)
      ensures |spawnedIslands| > 0 && spawnedIslands[|spawnedIslands| - 1].coords == Coords(xPos, yPos)
      ensures exists r, p :: RemovedFrom(old(State()), r, islandWidth, islandHeight, Coords(xPos, yPos)) &&
                RepaintedAbove(r, p, islandWidth, islandHeight, Coords(xPos, yPos), terrainTile) &&
                SpawnedFrom(p, State(), islandWidth, islandHeight, Coords(xPos, yPos), fillAmount,
                            smoothPasses, terrainType, terrainTile, attempts)
    {
      RemoveIsland(xPos, yPos);
      ghost var removed := State();
      RepaintAbove(xPos, yPos, terrainTile);
      ghost var repainted := State();
      accepted := SpawnIsland(xPos, yPos, fillAmount, smoothPasses, terrainTile, terrainType, attempts);
      assert RemovedFrom(old(State()), removed, islandWidth, islandHeight, Coords(xPos, yPos));
    }

    /** The repaint step of a respawn: the first island recorded just above
        (xPos, yPos) is painted from its own grid with the tile it is given,
        and recorded again. */
    method RepaintAbove(xPos: int, yPos: int, terrainTile: TerrainTile)
      requires Valid()
      modifies this
      ensures Valid()
      ensures RepaintedAbove(old(State()), State(), islandWidth, islandHeight, Coords(xPos, yPos), terrainTile)
    {
      var above := FindIsland(spawnedIslands, IslandCoords, Coords(xPos, yPos + 1));
      if above.Some? {
        var r := spawnedIslands[above.value];
        CreateIsland(r.coords.x, r.coords.y, 0, 0, terrainTile, Some(r.grid), []);
      }
    }
  }
}
