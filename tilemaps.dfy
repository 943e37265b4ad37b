/** The two tile maps an island is painted onto (land and collision), the
    island footprint and its border, and the entrance probes both terrain
    builders check after painting an island. */
module Tilemaps {
  import opened Optional
  import opened CellularGrid

  /** A cell of the tile maps. */
  datatype Cell = Cell(x: int, y: int)

  /** A terrain set: its land tile and its lands-end tile. */
  datatype TerrainTile = TerrainTile(id: nat)

  /** What a land-map cell holds. Lands-end tiles are the ones whose asset
      name contains "End"; land tiles are the others. */
  datatype LandTile = Land(tile: TerrainTile) | LandsEnd(tile: TerrainTile)

  /** Island grid coordinates: island (0, 0) is the base. */
  datatype Coords = Coords(x: int, y: int)

  /** The island layouts; the letters name the sides that need an entrance. */
  datatype TerrainType = T | R | L | B | TR | TL | TB | RL | RB | LB | TRL | TRB | TLB | RLB | TRLB

  datatype Side = Top | Right | Left | Bottom

  /** The land map's content at a cell (HasTile / GetTile). */
  function Lookup(land: map<Cell, LandTile>, c: Cell): (r: Option<LandTile>)
    ensures r.Some? <==> c in land
    ensures r.Some? ==> r.value == land[c]
  {
    if c in land then Some(land[c]) else None
  }

  /** The tile-map cell of local grid cell (0, 0) of island (xPos, yPos):
      islands are width x height blocks centred on (width*xPos, height*yPos). */
  function Origin(w: nat, h: nat, at: Coords): Cell
  {
    Cell(w * at.x - w / 2, h * at.y - h / 2)
  }

  predicate InFootprint(c: Cell, o: Cell, w: nat, h: nat)
  {
    0 <= c.x - o.x < w && 0 <= c.y - o.y < h
  }

  /** The row above, the row below and the columns either side of the
      footprint, without the four diagonal corners. */
  predicate InRing(c: Cell, o: Cell, w: nat, h: nat)
  {
    var lx := c.x - o.x;
    var ly := c.y - o.y;
    (0 <= lx < w && (ly == h || ly == -1)) || (0 <= ly < h && (lx == w || lx == -1))
  }

  /** Row-major progress of an x-outer, y-inner sweep: (lx, ly) has been
      visited once the sweep stands at (x, y). */
  predicate Done(lx: int, ly: int, x: int, y: int)
  {
    lx < x || (lx == x && ly < y)
  }

  // ---------------------------------------------------------------------
  // Border collision

  /** Collision after the border loops have run over the top and bottom rows
      up to column x and the side columns up to row y. */
  predicate BorderCollides(land: map<Cell, LandTile>, collision: set<Cell>, o: Cell, w: nat, h: nat,
                           x: int, y: int, c: Cell)
  {
    var lx := c.x - o.x;
    var ly := c.y - o.y;
    c in collision ||
    (c !in land &&
      ((0 <= lx < x && lx < w && (ly == h || ly == -1)) ||
       (0 <= ly < y && ly < h && (lx == w || lx == -1))))
  }

  /** A collision tile on every border cell that has no land tile. */
  method PaintBorder(land: map<Cell, LandTile>, collision: set<Cell>, o: Cell, w: nat, h: nat)
    returns (painted: set<Cell>)
    ensures forall c :: c in painted <==> c in collision || (InRing(c, o, w, h) && c !in land)
  {
    painted := collision;
    for x := 0 to w
      invariant forall c :: c in painted <==> BorderCollides(land, collision, o, w, h, x, 0, c)
    {
      var above := Cell(o.x + x, o.y + h);
      if above !in land {
        painted := painted + {above};
      }
      var below := Cell(o.x + x, o.y - 1);
      if below !in land {
        painted := painted + {below};
      }
    }
    for y := 0 to h
      invariant forall c :: c in painted <==> BorderCollides(land, collision, o, w, h, w, y, c)
    {
      var right := Cell(o.x + w, o.y + y);
      if right !in land {
        painted := painted + {right};
      }
      var left := Cell(o.x - 1, o.y + y);
      if left !in land {
        painted := painted + {left};
      }
    }
  }

  // ---------------------------------------------------------------------
  // Island body

  /** Land after the body loop has reached (x, y): an open grid cell gets
      the land tile; a wall cell whose upper neighbour is open gets the
      lands-end tile; an open bottom-row cell puts a lands-end tile on the
      empty cell below the island; everything else keeps its tile. */
  function BodyLand(land: map<Cell, LandTile>, g: Cells, w: nat, h: nat, o: Cell, t: TerrainTile,
                    x: int, y: int, c: Cell): Option<LandTile>
    requires IsShape(g, w, h)
  {
    var lx := c.x - o.x;
    var ly := c.y - o.y;
    if 0 <= lx < w && 0 <= ly < h && Done(lx, ly, x, y) then
      if g[lx][ly] == 0 then Some(Land(t))
      else if ly < h - 1 && g[lx][ly + 1] == 0 then Some(LandsEnd(t))
      else Lookup(land, c)
    else if 0 <= lx < w && ly == -1 && 0 < h && Done(lx, 0, x, y) && g[lx][0] == 0 && c !in land then
      Some(LandsEnd(t))
    else Lookup(land, c)
  }

  /** Collision after the body loop has reached (x, y): an open cell loses
      its collision tile, a wall cell gets one. */
  predicate BodyCollides(collision: set<Cell>, g: Cells, w: nat, h: nat, o: Cell, x: int, y: int, c: Cell)
    requires IsShape(g, w, h)
  {
    var lx := c.x - o.x;
    var ly := c.y - o.y;
    if 0 <= lx < w && 0 <= ly < h && Done(lx, ly, x, y) then
      if g[lx][ly] == 0 then false
      else if g[lx][ly] == 1 then true
      else c in collision
    else c in collision
  }

  /** The final land of an island painted from grid `g`. */
  function PaintedLand(land: map<Cell, LandTile>, g: Cells, w: nat, h: nat, o: Cell, t: TerrainTile,
                       c: Cell): Option<LandTile>
    requires IsShape(g, w, h)
  {
    BodyLand(land, g, w, h, o, t, w, 0, c)
  }

  /** The final collision of an island painted from grid `g`, border included. */
  predicate PaintedCollides(land: map<Cell, LandTile>, collision: set<Cell>, g: Cells, w: nat, h: nat,
                            o: Cell, c: Cell)
    requires IsShape(g, w, h)
  {
    if InFootprint(c, o, w, h) && (g[c.x - o.x][c.y - o.y] == 0 || g[c.x - o.x][c.y - o.y] == 1) then
      g[c.x - o.x][c.y - o.y] == 1
    else c in collision || (InRing(c, o, w, h) && c !in land)
  }

  /** Paints the island body: the x-outer, y-inner loop over the grid. */
  method PaintBody(land: map<Cell, LandTile>, collision: set<Cell>, g: Cells, w: nat, h: nat,
                   o: Cell, t: TerrainTile)
    returns (land': map<Cell, LandTile>, collision': set<Cell>)
    requires IsShape(g, w, h)
    ensures forall c :: Lookup(land', c) == PaintedLand(land, g, w, h, o, t, c)
    ensures forall c :: c in collision' <==> BodyCollides(collision, g, w, h, o, w, 0, c)
  {
    land', collision' := land, collision;
    for x := 0 to w
      invariant forall c :: Lookup(land', c) == BodyLand(land, g, w, h, o, t, x, 0, c)
      invariant forall c :: c in collision' <==> BodyCollides(collision, g, w, h, o, x, 0, c)
    {
      for y := 0 to h
        invariant forall c :: Lookup(land', c) == BodyLand(land, g, w, h, o, t, x, y, c)
        invariant forall c :: c in collision' <==> BodyCollides(collision, g, w, h, o, x, y, c)
      {
        land', collision' := PaintCell(land, collision, g, w, h, o, t, x, y, land', collision');
      }
      forall c
        ensures BodyLand(land, g, w, h, o, t, x, h, c) == BodyLand(land, g, w, h, o, t, x + 1, 0, c)
        ensures BodyCollides(collision, g, w, h, o, x, h, c) == BodyCollides(collision, g, w, h, o, x + 1, 0, c)
      {
      }
    }
  }

  /** One iteration of the body loop, at grid cell (x, y). */
  method PaintCell(land0: map<Cell, LandTile>, collision0: set<Cell>, g: Cells, w: nat, h: nat,
                   o: Cell, t: TerrainTile, x: nat, y: nat,
                   land: map<Cell, LandTile>, collision: set<Cell>)
    returns (land': map<Cell, LandTile>, collision': set<Cell>)
    requires IsShape(g, w, h) && x < w && y < h
    requires forall c :: Lookup(land, c) == BodyLand(land0, g, w, h, o, t, x, y, c)
    requires forall c :: c in collision <==> BodyCollides(collision0, g, w, h, o, x, y, c)
    ensures forall c :: Lookup(land', c) == BodyLand(land0, g, w, h, o, t, x, y + 1, c)
    ensures forall c :: c in collision' <==> BodyCollides(collision0, g, w, h, o, x, y + 1, c)
  {
    var here := Cell(o.x + x, o.y + y);
    var below := Cell(o.x + x, o.y - 1);
    land', collision' := land, collision;
    if g[x][y] == 0 {
      land' := land'[here := Land(t)];
      if y == 0 && below !in land' {
        assert Lookup(land, below) == Lookup(land0, below);
        land' := land'[below := LandsEnd(t)];
      }
      collision' := collision' - {here};
    } else if y < h - 1 && g[x][y + 1] == 0 {
      land' := land'[here := LandsEnd(t)];
    }
    if g[x][y] == 1 {
      collision' := collision' + {here};
    }
    forall c
      ensures Lookup(land', c) == BodyLand(land0, g, w, h, o, t, x, y + 1, c)
    {
      if c != here && c != below {
        assert Lookup(land', c) == Lookup(land, c);
      } else if c == below && y == 0 {
        assert Lookup(land, below) == Lookup(land0, below);
      } else if c == below {
        assert Lookup(land', c) == Lookup(land, c);
      }
    }
  }

  /** An island painted over empty ground: its open cells are exactly its
      land tiles and carry no collision, its wall cells all collide, and
      nothing outside the footprint, the border and the row below changes. */
  lemma PaintedOnEmptyGround(land: map<Cell, LandTile>, collision: set<Cell>, g: Cells, w: nat, h: nat,
                             o: Cell, t: TerrainTile, c: Cell)
    requires IsBinary(g, w, h)
    requires InFootprint(c, o, w, h) ==> c !in land
    ensures InFootprint(c, o, w, h) ==>
              (PaintedLand(land, g, w, h, o, t, c) == Some(Land(t)) <==> g[c.x - o.x][c.y - o.y] == 0)
    ensures InFootprint(c, o, w, h) ==>
              (PaintedCollides(land, collision, g, w, h, o, c) <==> PaintedLand(land, g, w, h, o, t, c) != Some(Land(t)))
    ensures !InFootprint(c, o, w, h) && !InRing(c, o, w, h) ==>
              PaintedLand(land, g, w, h, o, t, c) == Lookup(land, c) &&
              (PaintedCollides(land, collision, g, w, h, o, c) <==> c in collision)
  {
  }

  // ---------------------------------------------------------------------
  // Clearing

  /** The footprint after removal: no land tile; a collision tile when
      `block` is set, otherwise the collision it had. */
  method ClearFootprint(land: map<Cell, LandTile>, collision: set<Cell>, o: Cell, w: nat, h: nat, block: bool)
    returns (land': map<Cell, LandTile>, collision': set<Cell>)
    ensures forall c :: Lookup(land', c) == if InFootprint(c, o, w, h) then None else Lookup(land, c)
    ensures forall c :: c in collision' <==> (if InFootprint(c, o, w, h) && block then true else c in collision)
    ensures land' == Cleared(land, o, w, h)
    ensures collision' == if block then collision + Footprint(o, w, h) else collision
  {
    land', collision' := land, collision;
    for x := 0 to w
      invariant forall c :: Lookup(land', c) ==
                  if InFootprint(c, o, w, h) && c.x - o.x < x then None else Lookup(land, c)
      invariant forall c :: c in collision' <==>
                  (if InFootprint(c, o, w, h) && c.x - o.x < x && block then true else c in collision)
    {
      for y := 0 to h
        invariant forall c :: Lookup(land', c) ==
                    if InFootprint(c, o, w, h) && Done(c.x - o.x, c.y - o.y, x, y) then None else Lookup(land, c)
        invariant forall c :: c in collision' <==>
                    (if InFootprint(c, o, w, h) && Done(c.x - o.x, c.y - o.y, x, y) && block then true
                     else c in collision)
      {
        var here := Cell(o.x + x, o.y + y);
        land' := land' - {here};
        if block {
          collision' := collision' + {here};
        }
      }
    }
    forall c
      ensures Lookup(land', c) == Lookup(Cleared(land, o, w, h), c)
      ensures c in collision' <==> c in (if block then collision + Footprint(o, w, h) else collision)
    {
      FootprintMembers(o, w, h, c);
    }
    LookupExtensional(land', Cleared(land, o, w, h));
  }

  /** The land map with every footprint tile removed. */
  function Cleared(land: map<Cell, LandTile>, o: Cell, w: nat, h: nat): map<Cell, LandTile>
  {
    map c | c in land.Keys && !InFootprint(c, o, w, h) :: land[c]
  }

  /** The footprint cells, as a set. */
  function Footprint(o: Cell, w: nat, h: nat): set<Cell>
  {
    set x: int, y: int | 0 <= x < w && 0 <= y < h :: At(o, x, y)
  }

  /** The tile-map cell of local cell (x, y) of the island with origin o. */
  function At(o: Cell, x: int, y: int): (c: Cell)
    ensures c.x - o.x == x && c.y - o.y == y
  {
    Cell(o.x + x, o.y + y)
  }

  lemma FootprintMembers(o: Cell, w: nat, h: nat, c: Cell)
    ensures c in Footprint(o, w, h) <==> InFootprint(c, o, w, h)
  {
    if InFootprint(c, o, w, h) {
      var x, y := c.x - o.x, c.y - o.y;
      assert c == At(o, x, y);
    }
  }

  /** Two land maps with the same content at every cell are equal. */
  lemma LookupExtensional(a: map<Cell, LandTile>, b: map<Cell, LandTile>)
    requires forall c :: Lookup(a, c) == Lookup(b, c)
    ensures a == b
  {
    assert a.Keys == b.Keys by {
      forall c | c in a.Keys ensures c in b.Keys {
        assert Lookup(a, c).Some?;
      }
      forall c | c in b.Keys ensures c in a.Keys {
        assert Lookup(b, c).Some?;
      }
    }
    forall c | c in a.Keys ensures a[c] == b[c] {
      assert Lookup(a, c) == Lookup(b, c);
    }
  }

  /** Clearing an island and repainting it from the same grid restores its
      footprint tiles, whatever was there before. */
  lemma ClearThenPaintFootprint(land: map<Cell, LandTile>, g: Cells, w: nat, h: nat, o: Cell,
                                t: TerrainTile, cleared: map<Cell, LandTile>, c: Cell)
    requires IsBinary(g, w, h) && InFootprint(c, o, w, h)
    requires forall d :: Lookup(cleared, d) == if InFootprint(d, o, w, h) then None else Lookup(land, d)
    ensures PaintedLand(cleared, g, w, h, o, t, c) ==
              (if g[c.x - o.x][c.y - o.y] == 0 then Some(Land(t))
               else if c.y - o.y < h - 1 && g[c.x - o.x][c.y - o.y + 1] == 0 then Some(LandsEnd(t))
               else None)
  {
    assert Lookup(cleared, c) == None;
  }

  // ---------------------------------------------------------------------
  // Entrance probes

  /** The probe cell checked for an entrance on side `s` of island `at`. */
  function Probe(w: nat, h: nat, at: Coords, s: Side): Cell
  {
    match s
    case Top => Cell(w * at.x, h * at.y + h / 2)
    case Right => Cell(w * at.x + w / 2, h * at.y)
    case Left => Cell(w * at.x - w / 2, h * at.y)
    case Bottom => Cell(w * at.x, h * at.y - h / 2)
  }

  /** A probe fails when the cell has no land tile or holds a lands-end tile. */
  predicate ProbeFails(land: map<Cell, LandTile>, c: Cell)
  {
    c !in land || land[c].LandsEnd?
  }

  /** The check after painting, case by case as the builders write it: the
      island is respawned when any probe of its type fails. */
  predicate NeedsRespawn(land: map<Cell, LandTile>, w: nat, h: nat, at: Coords, tt: TerrainType)
  {
    var top := ProbeFails(land, Probe(w, h, at, Top));
    var right := ProbeFails(land, Probe(w, h, at, Right));
    var left := ProbeFails(land, Probe(w, h, at, Left));
    var bottom := ProbeFails(land, Probe(w, h, at, Bottom));
    match tt
    case T => top
    case R => right
    case L => left
    case B => bottom
    case TR => top || right
    case TL => top || left
    case TB => top || bottom
    case RL => right || left
    case RB => right || bottom
    case LB => left || bottom
    case TRL => top || right || left
    case TRB => top || right || bottom
    case TLB => top || left || bottom
    case RLB => right || left || bottom
    case TRLB => top || right || left || bottom
  }

  /** The sides a terrain type's name spells. */
  function Sides(tt: TerrainType): (sides: set<Side>)
    ensures |sides| >= 1
  {
    match tt
    case T => {Top}
    case R => {Right}
    case L => {Left}
    case B => {Bottom}
    case TR => {Top, Right}
    case TL => {Top, Left}
    case TB => {Top, Bottom}
    case RL => {Right, Left}
    case RB => {Right, Bottom}
    case LB => {Left, Bottom}
    case TRL => {Top, Right, Left}
    case TRB => {Top, Right, Bottom}
    case TLB => {Top, Left, Bottom}
    case RLB => {Right, Left, Bottom}
    case TRLB => {Top, Right, Left, Bottom}
  }

  /** The fifteen cases agree with the type's name: an island is kept
      exactly when every side its name spells has a land probe. */
  lemma NeedsRespawnBySides(land: map<Cell, LandTile>, w: nat, h: nat, at: Coords, tt: TerrainType)
    ensures NeedsRespawn(land, w, h, at, tt) <==>
              exists s :: s in Sides(tt) && ProbeFails(land, Probe(w, h, at, s))
  {
    var P := (s: Side) => ProbeFails(land, Probe(w, h, at, s));
    if NeedsRespawn(land, w, h, at, tt) {
      if P(Top) && Top in Sides(tt) {
      } else if P(Right) && Right in Sides(tt) {
      } else if P(Left) && Left in Sides(tt) {
      } else {
        assert P(Bottom) && Bottom in Sides(tt);
      }
    }
  }

  /** Where the probes fall for even dimensions: the left and bottom probes
      are inside the island, but the top probe is on the border row above it
      and the right probe on the border column to its right, so painting
      the island can never give those two a land tile. */
  lemma ProbeLocations(w: nat, h: nat, at: Coords)
    requires 0 < w && 0 < h && w % 2 == 0 && h % 2 == 0
    ensures InFootprint(Probe(w, h, at, Left), Origin(w, h, at), w, h)
    ensures InFootprint(Probe(w, h, at, Bottom), Origin(w, h, at), w, h)
    ensures Probe(w, h, at, Top).y - Origin(w, h, at).y == h
    ensures Probe(w, h, at, Right).x - Origin(w, h, at).x == w
  {
  }

  /** For even dimensions painting an island never changes what its top
      probe sees: a type needing a top entrance whose probe fails keeps
      failing on every repaint. */
  lemma TopProbeUnpainted(land: map<Cell, LandTile>, g: Cells, w: nat, h: nat, at: Coords, t: TerrainTile)
    requires IsShape(g, w, h) && 0 < w && 0 < h && w % 2 == 0 && h % 2 == 0
    ensures PaintedLand(land, g, w, h, Origin(w, h, at), t, Probe(w, h, at, Top)) ==
              Lookup(land, Probe(w, h, at, Top))
  {
    ProbeLocations(w, h, at);
  }

  // ---------------------------------------------------------------------
  // Island placement

  /** Distinct islands never share a footprint cell. */
  lemma FootprintsDisjoint(w: nat, h: nat, a: Coords, b: Coords, c: Cell)
    requires a != b
    ensures !(InFootprint(c, Origin(w, h, a), w, h) && InFootprint(c, Origin(w, h, b), w, h))
  {
    if InFootprint(c, Origin(w, h, a), w, h) && InFootprint(c, Origin(w, h, b), w, h) {
      if a.x != b.x {
        OffsetsApart(w, a.x, b.x, c.x - Origin(w, h, a).x, c.x - Origin(w, h, b).x);
      } else {
        OffsetsApart(h, a.y, b.y, c.y - Origin(w, h, a).y, c.y - Origin(w, h, b).y);
      }
    }
  }

  /** Two blocks of length n starting at n*i and n*j overlap only when i == j. */
  lemma OffsetsApart(n: nat, i: int, j: int, di: int, dj: int)
    requires i != j && 0 <= di < n && 0 <= dj < n
    ensures n * i + di != n * j + dj
  {
    if i < j {
      GapAtLeastOne(n, i, j);
    } else {
      GapAtLeastOne(n, j, i);
    }
  }

  lemma GapAtLeastOne(n: nat, i: int, j: int)
    requires i < j
    ensures n * j >= n * i + n
  {
    var k := j - i - 1;
    assert j == i + 1 + k;
    assert n * j == n * i + n + n * k;
  }

  // ---------------------------------------------------------------------
  // Spawned-island records

  /** The index of the first record at `at`, as a foreach with break finds it. */
  function FirstAt<R>(records: seq<R>, coords: R -> Coords, at: Coords): (found: Option<nat>)
    ensures found.None? <==> forall i :: 0 <= i < |records| ==> coords(records[i]) != at
    ensures found.Some? ==> (found.value < |records| && coords(records[found.value]) == at &&
              forall i :: 0 <= i < found.value ==> coords(records[i]) != at)
  {
    if |records| == 0 then None
    else if coords(records[0]) == at then Some(0)
    else match FirstAt(records[1..], coords, at)
      case None => None
      case Some(i) => Some(i + 1)
  }

  /** The records with the first one at `at` taken out (List.Remove). */
  function RemoveFirst<R>(records: seq<R>, coords: R -> Coords, at: Coords): seq<R>
  {
    match FirstAt(records, coords, at)
    case None => records
    case Some(i) => records[..i] + records[i + 1..]
  }

  /** Removal takes out exactly one record at `at` when there is one, and
      keeps every other record in order. */
  lemma RemoveFirstTakesOne<R>(records: seq<R>, coords: R -> Coords, at: Coords)
    ensures FirstAt(records, coords, at).None? ==> RemoveFirst(records, coords, at) == records
    ensures FirstAt(records, coords, at).Some? ==>
              var i := FirstAt(records, coords, at).value;
              |RemoveFirst(records, coords, at)| == |records| - 1 &&
              multiset(RemoveFirst(records, coords, at)) + multiset{records[i]} == multiset(records)
  {
    if FirstAt(records, coords, at).Some? {
      var i := FirstAt(records, coords, at).value;
      var r := RemoveFirst(records, coords, at);
      assert r == records[..i] + records[i + 1..];
      assert records == records[..i] + [records[i]] + records[i + 1..];
      assert multiset(records) == multiset(records[..i]) + multiset{records[i]} + multiset(records[i + 1..]);
    }
  }

  /** The foreach-with-break search for the first record at `at`. */
  method FindIsland<R>(records: seq<R>, coords: R -> Coords, at: Coords) returns (found: Option<nat>)
    ensures found == FirstAt(records, coords, at)
  {
    found := None;
    var i := 0;
    while i < |records|
      invariant 0 <= i <= |records|
      invariant forall j :: 0 <= j < i ==> coords(records[j]) != at
    {
      if coords(records[i]) == at {
        found := Some(i);
        FirstAtIsFirst(records, coords, at, i);
        return;
      }
      i := i + 1;
    }
  }

  lemma {:induction false} FirstAtIsFirst<R>(records: seq<R>, coords: R -> Coords, at: Coords, i: nat)
    requires i < |records| && coords(records[i]) == at
    requires forall j :: 0 <= j < i ==> coords(records[j]) != at
    ensures FirstAt(records, coords, at) == Some(i)
  {
    if i > 0 {
      FirstAtIsFirst(records[1..], coords, at, i - 1);
    }
  }
}
