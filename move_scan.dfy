/** The cells a move action offers: every grid cell is tried, column by
    column; a passable cell within the move amount of the player on both
    axes whose path to the player is at most one longer than the amount
    contributes every cell of that path, except the player's own cell and
    cells already offered. */
module MoveScan {
  import opened Pathing

  /** What the scan reads: the blocked cells (with the player's own cell
      freed), the player, the move amount, the grid size and the path
      search. */
  datatype ScanEnv = ScanEnv(blocked: set<Position>, player: Position, amount: int, dimX: nat, dimY: nat,
                             router: (set<Position>, Position, Position) -> seq<Position>)

  /** A cell whose path is looked at: passable and within the amount of
      the player along each axis. */
  predicate Candidate(env: ScanEnv, x: int, y: int)
  {
    Position(x, y) !in env.blocked &&
    Abs(env.player.x - x) <= env.amount && Abs(env.player.y - y) <= env.amount
  }

  /** The path search from a cell to the player. */
  function PathOf(env: ScanEnv, x: int, y: int): seq<Position>
  {
    env.router(env.blocked, Position(x, y), env.player)
  }

  /** What a cell contributes: its path, when it is a candidate and the
      path is short enough, and nothing otherwise. */
  function CellPath(env: ScanEnv, x: int, y: int): seq<Position>
  {
    if Candidate(env, x, y) && |PathOf(env, x, y)| <= env.amount + 1 then PathOf(env, x, y) else []
  }

  /** Offers a cell unless it is the player's or already offered. */
  function AddOne(found: seq<Position>, c: Position, player: Position): seq<Position>
  {
    if c != player && c !in found then found + [c] else found
  }

  /** Offers the cells of a path in order. */
  function AddNew(found: seq<Position>, path: seq<Position>, player: Position): seq<Position>
    decreases |path|
  {
    if |path| == 0 then found
    else AddOne(AddNew(found, path[..|path| - 1], player), path[|path| - 1], player)
  }

  /** The cells offered once the first `n` cells of column `x` are tried. */
  function ScanColumn(found: seq<Position>, env: ScanEnv, x: int, n: nat): seq<Position>
  {
    if n == 0 then found
    else AddNew(ScanColumn(found, env, x, n - 1), CellPath(env, x, n - 1), env.player)
  }

  /** The cells offered once the first `n` columns are tried. */
  function ScanColumns(env: ScanEnv, n: nat): seq<Position>
  {
    if n == 0 then []
    else ScanColumn(ScanColumns(env, n - 1), env, n - 1, env.dimY)
  }

  /** Every cell the move action offers, in offering order. */
  function MoveTargets(env: ScanEnv): seq<Position>
  {
    ScanColumns(env, env.dimX)
  }

  predicate Distinct(s: seq<Position>)
  {
    forall i, j :: 0 <= i < j < |s| ==> s[i] != s[j]
  }

  /** Offering a path adds exactly its cells other than the player's, and
      keeps the offered cells distinct and free of the player's cell. */
  lemma {:induction false} AddNewMembers(found: seq<Position>, path: seq<Position>, player: Position, c: Position)
    ensures c in AddNew(found, path, player) <==> c in found || (c in path && c != player)
    ensures Distinct(found) && player !in found ==>
              Distinct(AddNew(found, path, player)) && player !in AddNew(found, path, player)
    decreases |path|
  {
    if |path| > 0 {
      var init := path[..|path| - 1];
      var last := path[|path| - 1];
      AddNewMembers(found, init, player, c);
      assert path == init + [last];
      assert c in path <==> c in init || c == last;
      AddNewMembers(found, init, player, last);
    }
  }

  /** A partly scanned column adds exactly the contributions of its tried
      cells, other than the player's cell. */
  lemma {:induction false} ScanColumnMembers(found: seq<Position>, env: ScanEnv, x: int, n: nat, c: Position)
    ensures c in ScanColumn(found, env, x, n) <==>
              c in found || (c != env.player && exists y :: 0 <= y < n && c in CellPath(env, x, y))
    ensures Distinct(found) && env.player !in found ==>
              Distinct(ScanColumn(found, env, x, n)) && env.player !in ScanColumn(found, env, x, n)
  {
    if n > 0 {
      var before := ScanColumn(found, env, x, n - 1);
      ScanColumnMembers(found, env, x, n - 1, c);
      ScanColumnMembers(found, env, x, n - 1, env.player);
      AddNewMembers(before, CellPath(env, x, n - 1), env.player, c);
    }
  }

  /** The offered cells after `n` columns: exactly the contributions of
      their cells other than the player's, each offered once. */
  lemma {:induction false} ScanColumnsMembers(env: ScanEnv, n: nat, c: Position)
    ensures c in ScanColumns(env, n) <==>
              c != env.player &&
              exists x, y :: 0 <= x < n && 0 <= y < env.dimY && c in CellPath(env, x, y)
    ensures Distinct(ScanColumns(env, n)) && env.player !in ScanColumns(env, n)
  {
    if n > 0 {
      var before := ScanColumns(env, n - 1);
      ScanColumnsMembers(env, n - 1, c);
      ScanColumnsMembers(env, n - 1, env.player);
      ScanColumnMembers(before, env, n - 1, env.dimY, c);
      if c in ScanColumns(env, n) {
        if c !in before {
          var y :| 0 <= y < env.dimY && c in CellPath(env, n - 1, y);
          assert 0 <= n - 1 < n && c in CellPath(env, n - 1, y);
        }
      } else if c != env.player {
        forall x, y | 0 <= x < n && 0 <= y < env.dimY
          ensures c !in CellPath(env, x, y)
        {
        }
      }
    }
  }

  /** The move action offers exactly the cells, other than the player's,
      lying on the short enough path of some passable cell within the move
      amount of the player, and offers each of them once. */
  lemma MoveTargetsExact(env: ScanEnv, c: Position)
    ensures c in MoveTargets(env) <==>
              c != env.player &&
              exists x, y :: 0 <= x < env.dimX && 0 <= y < env.dimY &&
                Candidate(env, x, y) && |PathOf(env, x, y)| <= env.amount + 1 && c in PathOf(env, x, y)
    ensures Distinct(MoveTargets(env)) && env.player !in MoveTargets(env)
  {
    ScanColumnsMembers(env, env.dimX, c);
    if c in MoveTargets(env) {
      var x, y :| 0 <= x < env.dimX && 0 <= y < env.dimY && c in CellPath(env, x, y);
      assert Candidate(env, x, y) && |PathOf(env, x, y)| <= env.amount + 1 && c in PathOf(env, x, y);
    } else if c != env.player {
      forall x, y | 0 <= x < env.dimX && 0 <= y < env.dimY &&
                    Candidate(env, x, y) && |PathOf(env, x, y)| <= env.amount + 1
        ensures c !in PathOf(env, x, y)
      {
        assert CellPath(env, x, y) == PathOf(env, x, y);
      }
    }
  }
}
