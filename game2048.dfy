/**
 * The 4x4 sliding-tile engine (Models/Game2048.swift).
 *
 * The board is a 4x4 grid of optional tiles, updated in place by `move`.
 * The four slide passes of the source (moveUp, moveDown, moveLeft, moveRight)
 * run the same algorithm under a change of coordinates: a pass walks each
 * line perpendicular to the move, and each line is read from the edge the
 * tiles move towards. `Coord(d, line, k)` names the cell at distance `k`
 * from that edge in line `line`; the functions `Slide`, `ProcessCell`,
 * `ProcessLine` and `ProcessLines` state what the passes compute, and the
 * lemmas below state what the source promises about it.
 */
module Game2048Model {
  import opened Wrappers

  const BoardSize: int := 4
  const WinValue: int := 2048
  const InitialTileCount: int := 2

  datatype MoveDirection = Up | Down | Left | Right

  datatype Position = Position(row: int, column: int)

  datatype Tile = Tile(value: int, position: Position, isNew: bool, isMerged: bool)

  type Board = seq<seq<Option<Tile>>>

  predicate IsBoard(b: Board)
  {
    |b| == BoardSize && forall r :: 0 <= r < BoardSize ==> |b[r]| == BoardSize
  }

  function EmptyBoard(): (b: Board)
    ensures IsBoard(b)
    ensures forall r, c :: 0 <= r < BoardSize && 0 <= c < BoardSize ==> b[r][c] == None
  {
    var row := [None, None, None, None];
    [row, row, row, row]
  }

  /** Tile values are powers of two, starting at 2. */
  predicate PowerOfTwo(v: int)
    decreases v
  {
    v == 2 || (v > 2 && v % 2 == 0 && PowerOfTwo(v / 2))
  }

  /** Every tile's `position` equals its board coordinates. */
  predicate PositionsMatch(b: Board)
    requires IsBoard(b)
  {
    forall r, c :: 0 <= r < BoardSize && 0 <= c < BoardSize && b[r][c].Some? ==>
      b[r][c].value.position == Position(r, c)
  }

  predicate ValuesArePowers(b: Board)
    requires IsBoard(b)
  {
    forall r, c :: 0 <= r < BoardSize && 0 <= c < BoardSize && b[r][c].Some? ==>
      PowerOfTwo(b[r][c].value.value)
  }

  predicate NoMergedTile(b: Board)
    requires IsBoard(b)
  {
    forall r, c :: 0 <= r < BoardSize && 0 <= c < BoardSize && b[r][c].Some? ==>
      !b[r][c].value.isMerged
  }

  // ---------------------------------------------------------------------
  // Flat, row-major view of the board and weighted sums over it

  function Cells(b: Board): (s: seq<Option<Tile>>)
    requires IsBoard(b)
    ensures |s| == BoardSize * BoardSize
  {
    b[0] + b[1] + b[2] + b[3]
  }

  /** Cell (`r`, `c`) sits at index `4 * r + c` of the flat view. */
  lemma CellsAt(b: Board, r: int, c: int)
    requires IsBoard(b) && InRange(r) && InRange(c)
    ensures Cells(b)[BoardSize * r + c] == b[r][c]
  {
  }

  function SumBy(s: seq<Option<Tile>>, w: Option<Tile> -> int): int
  {
    if s == [] then 0 else SumBy(s[..|s| - 1], w) + w(s[|s| - 1])
  }

  function ValueOf(t: Option<Tile>): int
  {
    if t.Some? then t.value.value else 0
  }

  function CountOf(t: Option<Tile>): int
  {
    if t.Some? then 1 else 0
  }

  function MergedOf(t: Option<Tile>): int
  {
    if t.Some? && t.value.isMerged then 1 else 0
  }

  /** Sum of all tile values on the board. */
  function TotalValue(b: Board): int
    requires IsBoard(b)
  {
    SumBy(Cells(b), ValueOf)
  }

  /** Number of tiles on the board. */
  function TileCount(b: Board): int
    requires IsBoard(b)
  {
    SumBy(Cells(b), CountOf)
  }

  /** Number of tiles flagged `isMerged`. */
  function MergedCount(b: Board): int
    requires IsBoard(b)
  {
    SumBy(Cells(b), MergedOf)
  }

  lemma {:induction false} SumByUpdate(s: seq<Option<Tile>>, w: Option<Tile> -> int, i: int, x: Option<Tile>)
    requires 0 <= i < |s|
    ensures SumBy(s[i := x], w) == SumBy(s, w) - w(s[i]) + w(x)
    decreases |s|
  {
    var n := |s| - 1;
    assert s[i := x][..n] == if i < n then s[..n][i := x] else s[..n];
    if i < n {
      SumByUpdate(s[..n], w, i, x);
    }
  }

  lemma {:induction false} SumByNonNegative(s: seq<Option<Tile>>, w: Option<Tile> -> int)
    requires forall t :: w(t) >= 0
    ensures SumBy(s, w) >= 0
    decreases |s|
  {
    if s != [] {
      SumByNonNegative(s[..|s| - 1], w);
    }
  }

  // ---------------------------------------------------------------------
  // Coordinates of a slide pass

  /**
   * The cell at distance `k` from the edge the tiles move towards, in line `line`.
   * For Up the lines are the columns and `k` is the row; for Down `k` counts
   * rows from the bottom; for Left the lines are the rows and `k` is the column;
   * for Right `k` counts columns from the right.
   */
  function Coord(d: MoveDirection, line: int, k: int): Position
  {
    match d
    case Up => Position(k, line)
    case Down => Position(BoardSize - 1 - k, line)
    case Left => Position(line, k)
    case Right => Position(line, BoardSize - 1 - k)
  }

  predicate InRange(i: int)
  {
    0 <= i < BoardSize
  }

  lemma CoordInRange(d: MoveDirection, line: int, k: int)
    requires InRange(line) && InRange(k)
    ensures InRange(Coord(d, line, k).row) && InRange(Coord(d, line, k).column)
  {
  }

  lemma CoordInjective(d: MoveDirection, line: int, k: int, line': int, k': int)
    requires Coord(d, line, k) == Coord(d, line', k')
    ensures line == line' && k == k'
  {
  }

  function At(b: Board, d: MoveDirection, line: int, k: int): Option<Tile>
    requires IsBoard(b) && InRange(line) && InRange(k)
  {
    var p := Coord(d, line, k);
    b[p.row][p.column]
  }

  function Put(b: Board, d: MoveDirection, line: int, k: int, x: Option<Tile>): (b': Board)
    requires IsBoard(b) && InRange(line) && InRange(k)
    ensures IsBoard(b')
    ensures At(b', d, line, k) == x
  {
    var p := Coord(d, line, k);
    b[p.row := b[p.row][p.column := x]]
  }

  /** A write changes only the cell it names. */
  lemma PutFrame(b: Board, d: MoveDirection, line: int, k: int, x: Option<Tile>, l: int, j: int)
    requires IsBoard(b) && InRange(line) && InRange(k) && InRange(l) && InRange(j)
    requires l != line || j != k
    ensures At(Put(b, d, line, k, x), d, l, j) == At(b, d, l, j)
  {
  }

  function CellIndex(p: Position): int
  {
    BoardSize * p.row + p.column
  }

  lemma CellsPutAt(b: Board, r: int, c: int, x: Option<Tile>)
    requires IsBoard(b) && InRange(r) && InRange(c)
    ensures IsBoard(b[r := b[r][c := x]])
    ensures Cells(b[r := b[r][c := x]]) == Cells(b)[BoardSize * r + c := x]
  {
    var b' := b[r := b[r][c := x]];
    var i := BoardSize * r + c;
    forall j | 0 <= j < BoardSize * BoardSize
      ensures Cells(b')[j] == Cells(b)[i := x][j]
    {
      var rj := if j < 4 then 0 else if j < 8 then 1 else if j < 12 then 2 else 3;
      CellsAt(b', rj, j - BoardSize * rj);
      CellsAt(b, rj, j - BoardSize * rj);
    }
  }

  lemma CellsPut(b: Board, d: MoveDirection, line: int, k: int, x: Option<Tile>)
    requires IsBoard(b) && InRange(line) && InRange(k)
    ensures 0 <= CellIndex(Coord(d, line, k)) < BoardSize * BoardSize
    ensures Cells(Put(b, d, line, k, x)) == Cells(b)[CellIndex(Coord(d, line, k)) := x]
    ensures At(b, d, line, k) == Cells(b)[CellIndex(Coord(d, line, k))]
  {
    CoordInRange(d, line, k);
    var p := Coord(d, line, k);
    assert Put(b, d, line, k, x) == b[p.row := b[p.row][p.column := x]];
    CellsPutAt(b, p.row, p.column, x);
    assert At(b, d, line, k) == b[p.row][p.column];
  }

  /** How one write changes the three board totals. */
  lemma PutWeights(b: Board, d: MoveDirection, line: int, k: int, x: Option<Tile>)
    requires IsBoard(b) && InRange(line) && InRange(k)
    ensures TotalValue(Put(b, d, line, k, x)) == TotalValue(b) - ValueOf(At(b, d, line, k)) + ValueOf(x)
    ensures TileCount(Put(b, d, line, k, x)) == TileCount(b) - CountOf(At(b, d, line, k)) + CountOf(x)
    ensures MergedCount(Put(b, d, line, k, x)) == MergedCount(b) - MergedOf(At(b, d, line, k)) + MergedOf(x)
  {
    CellsPut(b, d, line, k, x);
    CoordInRange(d, line, k);
    var i := CellIndex(Coord(d, line, k));
    SumByUpdate(Cells(b), ValueOf, i, x);
    SumByUpdate(Cells(b), CountOf, i, x);
    SumByUpdate(Cells(b), MergedOf, i, x);
  }

  /** A write keeps positions and powers of two when the written tile has them. */
  lemma PutShape(b: Board, d: MoveDirection, line: int, k: int, x: Option<Tile>)
    requires IsBoard(b) && InRange(line) && InRange(k)
    requires x.Some? ==> x.value.position == Coord(d, line, k)
    ensures PositionsMatch(b) ==> PositionsMatch(Put(b, d, line, k, x))
    ensures ValuesArePowers(b) && (x.Some? ==> PowerOfTwo(x.value.value)) ==> ValuesArePowers(Put(b, d, line, k, x))
  {
    CoordInRange(d, line, k);
  }

  // ---------------------------------------------------------------------
  // What a slide pass computes

  function Max(a: int, b: int): int
  {
    if a >= b then a else b
  }

  /**
   * The engine state a slide pass reads and writes. `merges` is the list of
   * values the pass produced by merging, in order; the source keeps no such
   * list, it is here to state what the pass did.
   */
  datatype Sweep = Sweep(board: Board, score: int, bestScore: int, hasWon: bool, moved: bool, merges: seq<int>)

  /** The state a pass starts from: nothing moved, nothing merged yet. */
  function StartSweep(b: Board, score: int, bestScore: int, hasWon: bool): Sweep
  {
    Sweep(b, score, bestScore, hasWon, false, [])
  }

  /** The tile a slide step leaves at distance `k`: value kept, flags cleared. */
  function SlidTile(v: int, d: MoveDirection, line: int, k: int): Tile
  {
    Tile(v, Coord(d, line, k), false, false)
  }

  /** The tile a merge leaves at distance `k`. */
  function MergedTile(v: int, d: MoveDirection, line: int, k: int): Tile
  {
    Tile(v, Coord(d, line, k), false, true)
  }

  /**
   * The inner `while` of a pass: the tile of value `v` at distance `cur`
   * steps towards the edge while the next cell is empty. Returns the board
   * and the distance where the tile stopped.
   */
  function Slide(b: Board, d: MoveDirection, line: int, cur: int, v: int): (r: (Board, int))
    requires IsBoard(b) && InRange(line) && InRange(cur)
    ensures IsBoard(r.0) && 0 <= r.1 <= cur
    decreases cur
  {
    if cur > 0 && At(b, d, line, cur - 1) == None then
      var b1 := Put(b, d, line, cur - 1, Some(SlidTile(v, d, line, cur - 1)));
      Slide(Put(b1, d, line, cur, None), d, line, cur - 1, v)
    else
      (b, cur)
  }

  /** The merge guard: a tile of equal value that has not merged in this move. */
  predicate CanMergeInto(t: Option<Tile>, v: int)
  {
    t.Some? && t.value.value == v && !t.value.isMerged
  }

  /** A merge: the tile at distance `c` joins the one at `c - 1`, which becomes the merged tile of value `m`. */
  function MergeAt(b: Board, d: MoveDirection, line: int, c: int, m: int): (b': Board)
    requires IsBoard(b) && InRange(line) && 1 <= c < BoardSize
    ensures IsBoard(b')
  {
    Put(Put(b, d, line, c - 1, Some(MergedTile(m, d, line, c - 1))), d, line, c, None)
  }

  /** One iteration of a pass's inner `for`: slide the tile at distance `k`, then try to merge it. */
  function ProcessCell(s: Sweep, d: MoveDirection, line: int, k: int): (s': Sweep)
    requires IsBoard(s.board) && InRange(line) && InRange(k)
    ensures IsBoard(s'.board)
  {
    if At(s.board, d, line, k).None? then s
    else
      var v := At(s.board, d, line, k).value.value;
      var r := Slide(s.board, d, line, k, v);
      if r.1 > 0 && CanMergeInto(At(r.0, d, line, r.1 - 1), v) then
        var m := 2 * v;
        Sweep(MergeAt(r.0, d, line, r.1, m), s.score + m, Max(s.score + m, s.bestScore), s.hasWon || m >= WinValue, true, s.merges + [m])
      else
        s.(board := r.0, moved := s.moved || r.1 < k)
  }

  /** The inner `for` of a pass over distances `k`, ..., 3 of one line. */
  function ProcessLine(s: Sweep, d: MoveDirection, line: int, k: int): (s': Sweep)
    requires IsBoard(s.board) && InRange(line) && 1 <= k <= BoardSize
    ensures IsBoard(s'.board)
    decreases BoardSize - k
  {
    if k == BoardSize then s else ProcessLine(ProcessCell(s, d, line, k), d, line, k + 1)
  }

  /** The outer `for` of a pass over lines `line`, ..., 3. */
  function ProcessLines(s: Sweep, d: MoveDirection, line: int): (s': Sweep)
    requires IsBoard(s.board) && 0 <= line <= BoardSize
    ensures IsBoard(s'.board)
    decreases BoardSize - line
  {
    if line == BoardSize then s else ProcessLines(ProcessLine(s, d, line, 1), d, line + 1)
  }

  /** A whole pass (moveUp, moveDown, moveLeft or moveRight). */
  function SlideBoard(s: Sweep, d: MoveDirection): (s': Sweep)
    requires IsBoard(s.board)
    ensures IsBoard(s'.board)
  {
    ProcessLines(s, d, 0)
  }

  // ---------------------------------------------------------------------
  // What a slide pass keeps

  lemma {:induction false} SumByZero(s: seq<Option<Tile>>, w: Option<Tile> -> int)
    requires forall i :: 0 <= i < |s| ==> w(s[i]) == 0
    ensures SumBy(s, w) == 0
    decreases |s|
  {
    if s != [] {
      SumByZero(s[..|s| - 1], w);
    }
  }

  lemma NoMergedTileCount(b: Board)
    requires IsBoard(b) && NoMergedTile(b)
    ensures MergedCount(b) == 0
  {
    var s := Cells(b);
    forall i | 0 <= i < |s|
      ensures MergedOf(s[i]) == 0
    {
      var r := if i < 4 then 0 else if i < 8 then 1 else if i < 12 then 2 else 3;
      CellsAt(b, r, i - BoardSize * r);
    }
    SumByZero(s, MergedOf);
  }

  lemma PowerOfTwoDouble(v: int)
    requires PowerOfTwo(v)
    ensures PowerOfTwo(2 * v) && v >= 2
  {
    assert (2 * v) / 2 == v;
  }

  /** Sum of a list of integers. */
  function SumInts(m: seq<int>): int
  {
    if m == [] then 0 else SumInts(m[..|m| - 1]) + m[|m| - 1]
  }

  /** Merged values are at least 4, so the score gains at least 4 per merge. */
  lemma {:induction false} SumIntsAtLeast(m: seq<int>)
    requires forall v :: v in m ==> v >= 4
    ensures SumInts(m) >= 4 * |m|
    decreases |m|
  {
    if m != [] {
      var m' := m[..|m| - 1];
      forall v | v in m' ensures v >= 4 {
        var i :| 0 <= i < |m'| && m'[i] == v;
        assert m[i] == v && m[i] in m;
      }
      assert m[|m| - 1] in m;
      SumIntsAtLeast(m');
    }
  }

  /** Where the tile at distance `cur` ends up. */
  lemma {:induction false} SlideEnd(b: Board, d: MoveDirection, line: int, cur: int, v: int)
    requires IsBoard(b) && InRange(line) && InRange(cur)
    requires At(b, d, line, cur).Some? && At(b, d, line, cur).value.value == v
    requires !At(b, d, line, cur).value.isMerged
    ensures var r := Slide(b, d, line, cur, v);
      At(r.0, d, line, r.1).Some? && At(r.0, d, line, r.1).value.value == v && !At(r.0, d, line, r.1).value.isMerged
    ensures var r := Slide(b, d, line, cur, v);
      r.1 == cur ==> r.0 == b
    ensures var r := Slide(b, d, line, cur, v);
      r.1 > 0 ==> At(r.0, d, line, r.1 - 1).Some?
    decreases cur
  {
    if cur > 0 && At(b, d, line, cur - 1) == None {
      var t := Some(SlidTile(v, d, line, cur - 1));
      var b1 := Put(b, d, line, cur - 1, t);
      SlideEnd(Put(b1, d, line, cur, None), d, line, cur - 1, v);
    }
  }

  /** A slide from `cur` to `c` leaves every cell outside `c`..`cur` of its line alone. */
  lemma {:induction false} SlideFrame(b: Board, d: MoveDirection, line: int, cur: int, v: int, l: int, j: int)
    requires IsBoard(b) && InRange(line) && InRange(cur) && InRange(l) && InRange(j)
    requires l != line || j > cur || j < Slide(b, d, line, cur, v).1
    ensures At(Slide(b, d, line, cur, v).0, d, l, j) == At(b, d, l, j)
    decreases cur
  {
    if cur > 0 && At(b, d, line, cur - 1) == None {
      var t := Some(SlidTile(v, d, line, cur - 1));
      var b1 := Put(b, d, line, cur - 1, t);
      var b2 := Put(b1, d, line, cur, None);
      SlideFrame(b2, d, line, cur - 1, v, l, j);
      PutFrame(b, d, line, cur - 1, t, l, j);
      PutFrame(b1, d, line, cur, None, l, j);
    }
  }

  /** A slide keeps the value total, the tile count and the merged count. */
  lemma {:induction false} SlideWeights(b: Board, d: MoveDirection, line: int, cur: int, v: int)
    requires IsBoard(b) && InRange(line) && InRange(cur)
    requires At(b, d, line, cur).Some? && At(b, d, line, cur).value.value == v
    requires !At(b, d, line, cur).value.isMerged
    ensures var b' := Slide(b, d, line, cur, v).0;
      TotalValue(b') == TotalValue(b) && TileCount(b') == TileCount(b) && MergedCount(b') == MergedCount(b)
    decreases cur
  {
    if cur > 0 && At(b, d, line, cur - 1) == None {
      var t := Some(SlidTile(v, d, line, cur - 1));
      var b1 := Put(b, d, line, cur - 1, t);
      PutFrame(b, d, line, cur - 1, t, line, cur);
      PutWeights(b, d, line, cur - 1, t);
      PutWeights(b1, d, line, cur, None);
      SlideWeights(Put(b1, d, line, cur, None), d, line, cur - 1, v);
    }
  }

  /** A slide keeps positions equal to coordinates and values powers of two. */
  lemma {:induction false} SlideKeepsShape(b: Board, d: MoveDirection, line: int, cur: int, v: int)
    requires IsBoard(b) && InRange(line) && InRange(cur)
    requires PositionsMatch(b) && ValuesArePowers(b) && PowerOfTwo(v)
    ensures PositionsMatch(Slide(b, d, line, cur, v).0) && ValuesArePowers(Slide(b, d, line, cur, v).0)
    decreases cur
  {
    if cur > 0 && At(b, d, line, cur - 1) == None {
      var t := Some(SlidTile(v, d, line, cur - 1));
      var b1 := Put(b, d, line, cur - 1, t);
      PutShape(b, d, line, cur - 1, t);
      PutShape(b1, d, line, cur, None);
      SlideKeepsShape(Put(b1, d, line, cur, None), d, line, cur - 1, v);
    }
  }

  lemma TileValueIsPower(b: Board, d: MoveDirection, line: int, k: int)
    requires IsBoard(b) && InRange(line) && InRange(k) && ValuesArePowers(b)
    requires At(b, d, line, k).Some?
    ensures PowerOfTwo(At(b, d, line, k).value.value)
  {
    CoordInRange(d, line, k);
  }

  /** Cells not yet visited by the pass carry no merge flag. */
  ghost predicate Unvisited(b: Board, d: MoveDirection, line: int, k: int)
    requires IsBoard(b)
  {
    forall l, j :: InRange(l) && InRange(j) && (l > line || (l == line && j >= k)) ==> MergedOf(At(b, d, l, j)) == 0
  }

  /** What holds of the board after the pass has visited everything before (`line`, `k`). */
  ghost predicate BoardInv(o: Sweep, s: Sweep, d: MoveDirection, line: int, k: int)
  {
    && IsBoard(o.board) && IsBoard(s.board)
    && TotalValue(s.board) == TotalValue(o.board)
    && TileCount(s.board) + |s.merges| == TileCount(o.board)
    && MergedCount(s.board) == |s.merges|
    && Unvisited(s.board, d, line, k)
    && PositionsMatch(s.board) && ValuesArePowers(s.board)
  }

  /** What holds of the counters after part of a pass started from `o`. */
  ghost predicate ScoreInv(o: Sweep, s: Sweep)
  {
    && s.score == o.score + SumInts(s.merges)
    && s.hasWon == (o.hasWon || exists v :: v in s.merges && v >= WinValue)
    && s.bestScore == (if s.merges == [] then o.bestScore else Max(o.bestScore, s.score))
    && (forall v :: v in s.merges ==> v >= 4)
    && (!s.moved ==> s == o)
  }

  /** The tile a pass visits at (`line`, `k`) has no merge flag. */
  lemma VisitedTileUnflagged(b: Board, d: MoveDirection, line: int, k: int)
    requires IsBoard(b) && InRange(line) && InRange(k) && Unvisited(b, d, line, k)
    ensures At(b, d, line, k).Some? ==> !At(b, d, line, k).value.isMerged
  {
    assert MergedOf(At(b, d, line, k)) == 0;
  }

  /** A merge writes only the two cells it names. */
  lemma MergeAtFrame(b: Board, d: MoveDirection, line: int, c: int, m: int, l: int, j: int)
    requires IsBoard(b) && InRange(line) && 1 <= c < BoardSize && InRange(l) && InRange(j)
    requires l != line || j > c || j < c - 1
    ensures At(MergeAt(b, d, line, c, m), d, l, j) == At(b, d, l, j)
  {
    var t := Some(MergedTile(m, d, line, c - 1));
    PutFrame(b, d, line, c - 1, t, l, j);
    PutFrame(Put(b, d, line, c - 1, t), d, line, c, None, l, j);
  }

  /** Merging two tiles of value `v` into one of `2 * v`: the total is kept, one tile fewer, one more merged tile. */
  lemma MergeAtWeights(b: Board, d: MoveDirection, line: int, c: int, v: int)
    requires IsBoard(b) && InRange(line) && 1 <= c < BoardSize
    requires At(b, d, line, c).Some? && At(b, d, line, c).value.value == v && !At(b, d, line, c).value.isMerged
    requires CanMergeInto(At(b, d, line, c - 1), v)
    ensures var b' := MergeAt(b, d, line, c, 2 * v);
      && TotalValue(b') == TotalValue(b)
      && TileCount(b') == TileCount(b) - 1
      && MergedCount(b') == MergedCount(b) + 1
  {
    var t := Some(MergedTile(2 * v, d, line, c - 1));
    var b1 := Put(b, d, line, c - 1, t);
    var here := At(b, d, line, c);
    var next := At(b, d, line, c - 1);
    assert ValueOf(here) == v && CountOf(here) == 1 && MergedOf(here) == 0;
    assert ValueOf(next) == v && CountOf(next) == 1 && MergedOf(next) == 0;
    assert ValueOf(t) == 2 * v && CountOf(t) == 1 && MergedOf(t) == 1;
    PutFrame(b, d, line, c - 1, t, line, c);
    assert At(b1, d, line, c) == here;
    PutWeights(b, d, line, c - 1, t);
    PutWeights(b1, d, line, c, None);
    var b2 := Put(b1, d, line, c, None);
    assert MergeAt(b, d, line, c, 2 * v) == b2;
    assert TotalValue(b1) == TotalValue(b) + v;
    assert TotalValue(b2) == TotalValue(b1) - v;
    assert MergedCount(b1) == MergedCount(b) + 1;
    assert MergedCount(b2) == MergedCount(b1);
  }

  /** A merge into a power of two keeps positions equal to coordinates and values powers of two. */
  lemma MergeAtShape(b: Board, d: MoveDirection, line: int, c: int, v: int)
    requires IsBoard(b) && InRange(line) && 1 <= c < BoardSize
    requires PositionsMatch(b) && ValuesArePowers(b) && PowerOfTwo(v)
    ensures PositionsMatch(MergeAt(b, d, line, c, 2 * v)) && ValuesArePowers(MergeAt(b, d, line, c, 2 * v))
  {
    var t := Some(MergedTile(2 * v, d, line, c - 1));
    PowerOfTwoDouble(v);
    PutShape(b, d, line, c - 1, t);
    PutShape(Put(b, d, line, c - 1, t), d, line, c, None);
  }

  /** One visit writes only cells of its own line at or before distance `k`. */
  lemma StepFrame(s: Sweep, d: MoveDirection, line: int, k: int, l: int, j: int)
    requires InRange(line) && 1 <= k < BoardSize && IsBoard(s.board) && InRange(l) && InRange(j)
    requires l != line || j > k
    ensures At(ProcessCell(s, d, line, k).board, d, l, j) == At(s.board, d, l, j)
  {
    if At(s.board, d, line, k).Some? {
      var v := At(s.board, d, line, k).value.value;
      var r := Slide(s.board, d, line, k, v);
      StepUnfold(s, d, line, k);
      SlideFrame(s.board, d, line, k, v, l, j);
      if r.1 > 0 && CanMergeInto(At(r.0, d, line, r.1 - 1), v) {
        MergeAtFrame(r.0, d, line, r.1, 2 * v, l, j);
      }
    }
  }

  /** One visit keeps the cells after it untouched, so they stay unflagged. */
  lemma StepKeepsUnvisited(s: Sweep, d: MoveDirection, line: int, k: int)
    requires InRange(line) && 1 <= k < BoardSize
    requires IsBoard(s.board) && Unvisited(s.board, d, line, k)
    ensures Unvisited(ProcessCell(s, d, line, k).board, d, line, k + 1)
  {
    var b' := ProcessCell(s, d, line, k).board;
    forall l, j | InRange(l) && InRange(j) && (l > line || (l == line && j >= k + 1))
      ensures MergedOf(At(b', d, l, j)) == 0
    {
      StepFrame(s, d, line, k, l, j);
    }
  }

  /** One visit keeps the value total; the tile count drops and the merged count rises by the merges it makes. */
  lemma StepKeepsTotals(s: Sweep, d: MoveDirection, line: int, k: int)
    requires InRange(line) && 1 <= k < BoardSize
    requires IsBoard(s.board)
    requires At(s.board, d, line, k).Some? ==> !At(s.board, d, line, k).value.isMerged
    ensures var s' := ProcessCell(s, d, line, k);
      && TotalValue(s'.board) == TotalValue(s.board)
      && TileCount(s'.board) + |s'.merges| == TileCount(s.board) + |s.merges|
      && MergedCount(s'.board) - |s'.merges| == MergedCount(s.board) - |s.merges|
  {
    if At(s.board, d, line, k).Some? {
      var v := At(s.board, d, line, k).value.value;
      var r := Slide(s.board, d, line, k, v);
      StepUnfold(s, d, line, k);
      SlideEnd(s.board, d, line, k, v);
      SlideWeights(s.board, d, line, k, v);
      if r.1 > 0 && CanMergeInto(At(r.0, d, line, r.1 - 1), v) {
        MergeAtWeights(r.0, d, line, r.1, v);
      }
    }
  }

  /** One visit, spelled out in terms of where the slide stopped. */
  lemma StepUnfold(s: Sweep, d: MoveDirection, line: int, k: int)
    requires InRange(line) && 1 <= k < BoardSize && IsBoard(s.board)
    requires At(s.board, d, line, k).Some?
    ensures var v := At(s.board, d, line, k).value.value;
      var r := Slide(s.board, d, line, k, v);
      var m := 2 * v;
      ProcessCell(s, d, line, k) ==
        if r.1 > 0 && CanMergeInto(At(r.0, d, line, r.1 - 1), v) then
          Sweep(MergeAt(r.0, d, line, r.1, m), s.score + m, Max(s.score + m, s.bestScore), s.hasWon || m >= WinValue, true, s.merges + [m])
        else
          s.(board := r.0, moved := s.moved || r.1 < k)
  {
  }

  /** One visit keeps positions equal to coordinates and values powers of two. */
  lemma StepKeepsShape(s: Sweep, d: MoveDirection, line: int, k: int)
    requires InRange(line) && 1 <= k < BoardSize
    requires IsBoard(s.board) && PositionsMatch(s.board) && ValuesArePowers(s.board)
    ensures PositionsMatch(ProcessCell(s, d, line, k).board) && ValuesArePowers(ProcessCell(s, d, line, k).board)
  {
    if At(s.board, d, line, k).Some? {
      var v := At(s.board, d, line, k).value.value;
      var r := Slide(s.board, d, line, k, v);
      StepUnfold(s, d, line, k);
      TileValueIsPower(s.board, d, line, k);
      SlideKeepsShape(s.board, d, line, k, v);
      if r.1 > 0 && CanMergeInto(At(r.0, d, line, r.1 - 1), v) {
        MergeAtShape(r.0, d, line, r.1, v);
      }
    }
  }

  lemma StepKeepsBoardInv(o: Sweep, s: Sweep, d: MoveDirection, line: int, k: int)
    requires InRange(line) && 1 <= k < BoardSize
    requires BoardInv(o, s, d, line, k)
    ensures BoardInv(o, ProcessCell(s, d, line, k), d, line, k + 1)
  {
    VisitedTileUnflagged(s.board, d, line, k);
    StepKeepsUnvisited(s, d, line, k);
    StepKeepsTotals(s, d, line, k);
    StepKeepsShape(s, d, line, k);
  }

  /** A merge of value `m` keeps the counter invariant, whatever board it leaves. */
  lemma MergeKeepsScoreInv(o: Sweep, s: Sweep, m: int, b: Board)
    requires ScoreInv(o, s) && m >= 4
    ensures ScoreInv(o, Sweep(b, s.score + m, Max(s.score + m, s.bestScore), s.hasWon || m >= WinValue, true, s.merges + [m]))
  {
    var merges := s.merges + [m];
    assert merges[..|merges| - 1] == s.merges;
    assert forall v :: v in merges <==> v in s.merges || v == m;
    if m >= WinValue {
      assert m in merges;
    }
  }

  lemma SlideKeepsScoreInv(o: Sweep, s: Sweep, b: Board, moved: bool)
    requires ScoreInv(o, s)
    requires s.moved ==> moved
    requires !moved ==> b == s.board
    ensures ScoreInv(o, s.(board := b, moved := moved))
  {
  }

  /** A visit whose tile merges keeps the counter invariant. */
  lemma StepMergeKeepsScoreInv(o: Sweep, s: Sweep, d: MoveDirection, line: int, k: int)
    requires InRange(line) && 1 <= k < BoardSize
    requires IsBoard(s.board) && ValuesArePowers(s.board) && ScoreInv(o, s)
    requires At(s.board, d, line, k).Some?
    requires var r := Slide(s.board, d, line, k, At(s.board, d, line, k).value.value);
      r.1 > 0 && CanMergeInto(At(r.0, d, line, r.1 - 1), At(s.board, d, line, k).value.value)
    ensures ScoreInv(o, ProcessCell(s, d, line, k))
  {
    var v := At(s.board, d, line, k).value.value;
    var r := Slide(s.board, d, line, k, v);
    StepUnfold(s, d, line, k);
    TileValueIsPower(s.board, d, line, k);
    PowerOfTwoDouble(v);
    var m := 2 * v;
    var s' := Sweep(MergeAt(r.0, d, line, r.1, m), s.score + m, Max(s.score + m, s.bestScore), s.hasWon || m >= WinValue, true, s.merges + [m]);
    assert ProcessCell(s, d, line, k) == s';
    MergeKeepsScoreInv(o, s, m, s'.board);
  }

  /** A visit whose tile only slides keeps the counter invariant. */
  lemma StepSlideKeepsScoreInv(o: Sweep, s: Sweep, d: MoveDirection, line: int, k: int)
    requires InRange(line) && 1 <= k < BoardSize
    requires IsBoard(s.board) && ScoreInv(o, s)
    requires At(s.board, d, line, k).Some? && !At(s.board, d, line, k).value.isMerged
    requires var r := Slide(s.board, d, line, k, At(s.board, d, line, k).value.value);
      !(r.1 > 0 && CanMergeInto(At(r.0, d, line, r.1 - 1), At(s.board, d, line, k).value.value))
    ensures ScoreInv(o, ProcessCell(s, d, line, k))
  {
    var v := At(s.board, d, line, k).value.value;
    var r := Slide(s.board, d, line, k, v);
    StepUnfold(s, d, line, k);
    SlideEnd(s.board, d, line, k, v);
    var s' := s.(board := r.0, moved := s.moved || r.1 < k);
    assert ProcessCell(s, d, line, k) == s';
    SlideKeepsScoreInv(o, s, r.0, s'.moved);
  }

  lemma StepKeepsScoreInv(o: Sweep, s: Sweep, d: MoveDirection, line: int, k: int)
    requires InRange(line) && 1 <= k < BoardSize
    requires IsBoard(s.board) && ValuesArePowers(s.board) && ScoreInv(o, s)
    requires At(s.board, d, line, k).Some? ==> !At(s.board, d, line, k).value.isMerged
    ensures ScoreInv(o, ProcessCell(s, d, line, k))
  {
    if At(s.board, d, line, k).Some? {
      var v := At(s.board, d, line, k).value.value;
      var r := Slide(s.board, d, line, k, v);
      if r.1 > 0 && CanMergeInto(At(r.0, d, line, r.1 - 1), v) {
        StepMergeKeepsScoreInv(o, s, d, line, k);
      } else {
        StepSlideKeepsScoreInv(o, s, d, line, k);
      }
    } else {
      assert ProcessCell(s, d, line, k) == s;
    }
  }

  /** The inner `for` keeps both invariants from distance `k` to the end of the line. */
  lemma {:induction false} LineKeepsInv(o: Sweep, s: Sweep, d: MoveDirection, line: int, k: int)
    requires InRange(line) && 1 <= k <= BoardSize
    requires BoardInv(o, s, d, line, k) && ScoreInv(o, s)
    ensures BoardInv(o, ProcessLine(s, d, line, k), d, line, BoardSize)
    ensures ScoreInv(o, ProcessLine(s, d, line, k))
    decreases BoardSize - k
  {
    if k < BoardSize {
      VisitedTileUnflagged(s.board, d, line, k);
      StepKeepsBoardInv(o, s, d, line, k);
      StepKeepsScoreInv(o, s, d, line, k);
      LineKeepsInv(o, ProcessCell(s, d, line, k), d, line, k + 1);
    }
  }

  /** The outer `for` keeps both invariants from line `line` to the last line. */
  /** Past the end of a line, the cells still to visit are those of the following lines. */
  lemma UnvisitedNextLine(b: Board, d: MoveDirection, line: int)
    requires IsBoard(b) && InRange(line) && Unvisited(b, d, line, BoardSize)
    ensures Unvisited(b, d, line + 1, 1)
  {
  }

  lemma {:induction false} LinesKeepInv(o: Sweep, s: Sweep, d: MoveDirection, line: int)
    requires 0 <= line <= BoardSize
    requires BoardInv(o, s, d, line, 1) && ScoreInv(o, s)
    ensures BoardInv(o, ProcessLines(s, d, line), d, BoardSize, 1)
    ensures ScoreInv(o, ProcessLines(s, d, line))
    decreases BoardSize - line
  {
    if line < BoardSize {
      LineKeepsInv(o, s, d, line, 1);
      var s1 := ProcessLine(s, d, line, 1);
      UnvisitedNextLine(s1.board, d, line);
      LinesKeepInv(o, s1, d, line + 1);
    }
  }

  /** A board whose flags were reset has every cell unvisited. */
  lemma NoMergedUnvisited(b: Board, d: MoveDirection)
    requires IsBoard(b) && NoMergedTile(b)
    ensures Unvisited(b, d, 0, 1)
  {
    forall l, j | InRange(l) && InRange(j)
      ensures MergedOf(At(b, d, l, j)) == 0
    {
      CoordInRange(d, l, j);
    }
  }

  /**
   * What one pass of moveUp/moveDown/moveLeft/moveRight does, started on a
   * board whose flags were reset: tile values are conserved, each merge
   * removes one tile and leaves one merged tile, the score grows by the
   * merged values, `hasWon` is set exactly when some merge reached 2048,
   * `bestScore` follows the score, and a pass that reports no movement
   * changed nothing.
   */
  lemma SlideBoardFacts(b: Board, score: int, bestScore: int, hasWon: bool, d: MoveDirection)
    requires IsBoard(b) && NoMergedTile(b) && PositionsMatch(b) && ValuesArePowers(b)
    ensures var r := SlideBoard(StartSweep(b, score, bestScore, hasWon), d);
      && TotalValue(r.board) == TotalValue(b)
      && TileCount(r.board) == TileCount(b) - |r.merges|
      && MergedCount(r.board) == |r.merges|
      && PositionsMatch(r.board) && ValuesArePowers(r.board)
    ensures var r := SlideBoard(StartSweep(b, score, bestScore, hasWon), d);
      && r.score == score + SumInts(r.merges)
      && r.hasWon == (hasWon || exists v :: v in r.merges && v >= WinValue)
      && r.bestScore == (if r.merges == [] then bestScore else Max(bestScore, r.score))
      && (forall v :: v in r.merges ==> v >= 4)
    ensures var r := SlideBoard(StartSweep(b, score, bestScore, hasWon), d);
      !r.moved ==> r.board == b && r.score == score && r.merges == []
  {
    var o := StartSweep(b, score, bestScore, hasWon);
    NoMergedUnvisited(b, d);
    NoMergedTileCount(b);
    assert BoardInv(o, o, d, 0, 1);
    LinesKeepInv(o, o, d, 0);
  }

  // ---------------------------------------------------------------------
  // Game-over test (checkGameOver)

  /** No empty cell: the first loop of checkGameOver finds nothing to return on. */
  predicate IsFull(b: Board)
    requires IsBoard(b)
  {
    forall r, c :: 0 <= r < BoardSize && 0 <= c < BoardSize ==> b[r][c].Some?
  }

  /** No two tiles side by side, across or down, have equal values. */
  predicate NoEqualNeighbours(b: Board)
    requires IsBoard(b)
  {
    && (forall r, c :: 0 <= r < BoardSize && 0 <= c < BoardSize - 1 && b[r][c].Some? && b[r][c + 1].Some? ==>
          b[r][c].value.value != b[r][c + 1].value.value)
    && (forall r, r', c :: 0 <= r < BoardSize - 1 && r' == r + 1 && 0 <= c < BoardSize && b[r][c].Some? && b[r'][c].Some? ==>
          b[r][c].value.value != b[r'][c].value.value)
  }

  /** The condition under which checkGameOver sets `isGameOver`. */
  predicate IsStuck(b: Board)
    requires IsBoard(b)
  {
    IsFull(b) && NoEqualNeighbours(b)
  }

  /** On a stuck board, the cell one step nearer the edge is full and holds another value. */
  lemma StuckNeighbour(b: Board, d: MoveDirection, line: int, k: int)
    requires IsBoard(b) && IsStuck(b) && InRange(line) && 1 <= k < BoardSize
    ensures At(b, d, line, k - 1).Some? && At(b, d, line, k).Some?
    ensures At(b, d, line, k - 1).value.value != At(b, d, line, k).value.value
  {
    match d
    case Up => assert b[k - 1][line].Some? && b[k][line].Some?;
    case Down => assert b[BoardSize - 1 - k][line].Some? && b[BoardSize - k][line].Some?;
    case Left => assert b[line][k - 1].Some? && b[line][k].Some?;
    case Right => assert b[line][BoardSize - 1 - k].Some? && b[line][BoardSize - k].Some?;
  }

  /** On a stuck board a visit neither slides nor merges. */
  lemma StuckCell(s: Sweep, d: MoveDirection, line: int, k: int)
    requires IsBoard(s.board) && IsStuck(s.board) && InRange(line) && 1 <= k < BoardSize
    ensures ProcessCell(s, d, line, k) == s
  {
    StuckNeighbour(s.board, d, line, k);
    var v := At(s.board, d, line, k).value.value;
    assert Slide(s.board, d, line, k, v) == (s.board, k);
    assert !CanMergeInto(At(s.board, d, line, k - 1), v);
  }

  lemma {:induction false} StuckLine(s: Sweep, d: MoveDirection, line: int, k: int)
    requires IsBoard(s.board) && IsStuck(s.board) && InRange(line) && 1 <= k <= BoardSize
    ensures ProcessLine(s, d, line, k) == s
    decreases BoardSize - k
  {
    if k < BoardSize {
      StuckCell(s, d, line, k);
      StuckLine(s, d, line, k + 1);
    }
  }

  lemma {:induction false} StuckLines(s: Sweep, d: MoveDirection, line: int)
    requires IsBoard(s.board) && IsStuck(s.board) && 0 <= line <= BoardSize
    ensures ProcessLines(s, d, line) == s
    decreases BoardSize - line
  {
    if line < BoardSize {
      StuckLine(s, d, line, 1);
      StuckLines(s, d, line + 1);
    }
  }

  /** When checkGameOver declares the game over, no direction moves or merges anything. */
  lemma GameOverMeansStuck(b: Board, score: int, bestScore: int, hasWon: bool, d: MoveDirection)
    requires IsBoard(b) && IsStuck(b)
    ensures SlideBoard(StartSweep(b, score, bestScore, hasWon), d) == StartSweep(b, score, bestScore, hasWon)
  {
    StuckLines(StartSweep(b, score, bestScore, hasWon), d, 0);
  }

  // ---------------------------------------------------------------------
  // Row-major scans: empty cells (addRandomTile) and tiles (getAllTiles)

  function CellAt(b: Board, i: int): Option<Tile>
    requires IsBoard(b) && 0 <= i < BoardSize * BoardSize
  {
    b[i / BoardSize][i % BoardSize]
  }

  function PositionOf(i: int): Position
  {
    Position(i / BoardSize, i % BoardSize)
  }

  /** The empty cells among the first `n` cells in row-major order. */
  function EmptyCellsUpTo(b: Board, n: int): seq<Position>
    requires IsBoard(b) && 0 <= n <= BoardSize * BoardSize
    decreases n
  {
    if n == 0 then []
    else EmptyCellsUpTo(b, n - 1) + (if CellAt(b, n - 1) == None then [PositionOf(n - 1)] else [])
  }

  /** Row `r`, column `c` is cell `4 * r + c` of the row-major scan. */
  lemma CellAtIndex(b: Board, r: int, c: int)
    requires IsBoard(b) && InRange(r) && InRange(c)
    ensures CellAt(b, BoardSize * r + c) == b[r][c]
    ensures PositionOf(BoardSize * r + c) == Position(r, c)
  {
  }

  /** The scan at row `r`, column `c` appends that cell's position when it is empty. */
  lemma EmptyCellsStep(b: Board, r: int, c: int)
    requires IsBoard(b) && InRange(r) && InRange(c)
    ensures EmptyCellsUpTo(b, BoardSize * r + c + 1)
      == EmptyCellsUpTo(b, BoardSize * r + c) + (if b[r][c] == None then [Position(r, c)] else [])
  {
    CellAtIndex(b, r, c);
  }

  /** The `emptyCells` list addRandomTile builds. */
  function EmptyCells(b: Board): seq<Position>
    requires IsBoard(b)
  {
    EmptyCellsUpTo(b, BoardSize * BoardSize)
  }

  /** The tiles among the first `n` cells in row-major order. */
  function TilesUpTo(b: Board, n: int): seq<Tile>
    requires IsBoard(b) && 0 <= n <= BoardSize * BoardSize
    decreases n
  {
    if n == 0 then []
    else TilesUpTo(b, n - 1) + (if CellAt(b, n - 1).Some? then [CellAt(b, n - 1).value] else [])
  }

  /** What getAllTiles returns. */
  function AllTiles(b: Board): seq<Tile>
    requires IsBoard(b)
  {
    TilesUpTo(b, BoardSize * BoardSize)
  }

  /** The scan at row `r`, column `c` appends that cell's tile when there is one. */
  lemma TilesStep(b: Board, r: int, c: int)
    requires IsBoard(b) && InRange(r) && InRange(c)
    ensures TilesUpTo(b, BoardSize * r + c + 1)
      == TilesUpTo(b, BoardSize * r + c) + (if b[r][c].Some? then [b[r][c].value] else [])
  {
    CellAtIndex(b, r, c);
  }

  /** A cell is listed as empty exactly when it is in range, already scanned, and holds no tile. */
  lemma {:induction false} EmptyCellsUpToMembers(b: Board, n: int, p: Position)
    requires IsBoard(b) && 0 <= n <= BoardSize * BoardSize
    ensures p in EmptyCellsUpTo(b, n) <==>
      InRange(p.row) && InRange(p.column) && BoardSize * p.row + p.column < n && b[p.row][p.column] == None
    decreases n
  {
    if n > 0 {
      EmptyCellsUpToMembers(b, n - 1, p);
      if InRange(p.row) && InRange(p.column) {
        assert PositionOf(n - 1) == p <==> BoardSize * p.row + p.column == n - 1;
      }
    }
  }

  /** addRandomTile's list holds every empty cell of the board and nothing else. */
  lemma EmptyCellsMembers(b: Board, p: Position)
    requires IsBoard(b)
    ensures p in EmptyCells(b) <==> InRange(p.row) && InRange(p.column) && b[p.row][p.column] == None
  {
    EmptyCellsUpToMembers(b, BoardSize * BoardSize, p);
  }

  /** The `n`-th flat cell is the `n`-th cell of the row-major scan. */
  lemma CellsIndex(b: Board, i: int)
    requires IsBoard(b) && 0 <= i < BoardSize * BoardSize
    ensures Cells(b)[i] == CellAt(b, i)
  {
    CellsAt(b, i / BoardSize, i % BoardSize);
  }

  /** Among the first `n` cells, the empty ones and the tiles add up to `n`, and the tiles are the ones the count counts. */
  lemma {:induction false} ScanCounts(b: Board, n: int)
    requires IsBoard(b) && 0 <= n <= BoardSize * BoardSize
    ensures |TilesUpTo(b, n)| == SumBy(Cells(b)[..n], CountOf)
    ensures |EmptyCellsUpTo(b, n)| + |TilesUpTo(b, n)| == n
    decreases n
  {
    if n > 0 {
      ScanCounts(b, n - 1);
      CellsIndex(b, n - 1);
      assert Cells(b)[..n][..n - 1] == Cells(b)[..n - 1];
    }
  }

  /** getAllTiles returns one entry per tile, and the empty cells are the rest of the board. */
  lemma AllTilesCount(b: Board)
    requires IsBoard(b)
    ensures |AllTiles(b)| == TileCount(b)
    ensures |EmptyCells(b)| == BoardSize * BoardSize - TileCount(b)
  {
    ScanCounts(b, BoardSize * BoardSize);
    assert Cells(b)[..BoardSize * BoardSize] == Cells(b);
  }

  // ---------------------------------------------------------------------
  // Spawning a tile (addRandomTile) and clearing flags (start of move)

  /** The value of a spawned tile from the uniform draw `roll` in [0, 1]: 2 below 0.9, else 4. */
  function SpawnValue(roll: real): (v: int)
    ensures v == 2 || v == 4
    ensures v == 2 <==> roll < 0.9
  {
    if roll < 0.9 then 2 else 4
  }

  /** The cell addRandomTile fills: entry `pick` (modulo the length) of the empty-cell list. */
  function SpawnPosition(b: Board, pick: nat): (p: Position)
    requires IsBoard(b) && EmptyCells(b) != []
    ensures InRange(p.row) && InRange(p.column) && b[p.row][p.column] == None
  {
    var p := EmptyCells(b)[pick % |EmptyCells(b)|];
    EmptyCellsMembers(b, p);
    p
  }

  /**
   * addRandomTile with its two random draws as parameters: `pick` chooses
   * the entry of the empty-cell list (standing for `randomElement`), `roll`
   * the value.
   */
  function AddTile(b: Board, pick: nat, roll: real): (b': Board)
    requires IsBoard(b)
    ensures IsBoard(b')
  {
    if EmptyCells(b) == [] then b
    else
      var p := SpawnPosition(b, pick);
      b[p.row := b[p.row][p.column := Some(Tile(SpawnValue(roll), p, true, false))]]
  }

  /** addRandomTile finds no empty cell exactly when the board is full, and then leaves it alone. */
  lemma AddTileFull(b: Board, pick: nat, roll: real)
    requires IsBoard(b)
    ensures IsFull(b) <==> EmptyCells(b) == []
    ensures IsFull(b) ==> AddTile(b, pick, roll) == b
  {
    if !IsFull(b) {
      var r, c :| 0 <= r < BoardSize && 0 <= c < BoardSize && b[r][c].None?;
      EmptyCellsMembers(b, Position(r, c));
    }
    if EmptyCells(b) != [] {
      EmptyCellsMembers(b, EmptyCells(b)[0]);
    }
  }

  /**
   * On a board with an empty cell, addRandomTile fills one of the empty
   * cells with a new tile of value 2 or 4 at that position and leaves every
   * other cell alone.
   */
  lemma AddTilePlacement(b: Board, pick: nat, roll: real)
    requires IsBoard(b) && EmptyCells(b) != []
    ensures var p := SpawnPosition(b, pick);
      var b' := AddTile(b, pick, roll);
      && InRange(p.row) && InRange(p.column) && b[p.row][p.column] == None
      && b'[p.row][p.column] == Some(Tile(SpawnValue(roll), p, true, false))
      && (forall r, c :: 0 <= r < BoardSize && 0 <= c < BoardSize && (r, c) != (p.row, p.column) ==> b'[r][c] == b[r][c])
  {
  }

  /** ... and the board gains one tile and that tile's value. */
  lemma AddTileTotals(b: Board, pick: nat, roll: real)
    requires IsBoard(b) && EmptyCells(b) != []
    ensures TileCount(AddTile(b, pick, roll)) == TileCount(b) + 1
    ensures TotalValue(AddTile(b, pick, roll)) == TotalValue(b) + SpawnValue(roll)
  {
    var p := SpawnPosition(b, pick);
    var x := Some(Tile(SpawnValue(roll), p, true, false));
    CellsPutAt(b, p.row, p.column, x);
    CellsAt(b, p.row, p.column);
    var i := BoardSize * p.row + p.column;
    SumByUpdate(Cells(b), CountOf, i, x);
    SumByUpdate(Cells(b), ValueOf, i, x);
  }

  /** addRandomTile keeps positions equal to coordinates and values powers of two. */
  lemma AddTileKeepsShape(b: Board, pick: nat, roll: real)
    requires IsBoard(b) && PositionsMatch(b) && ValuesArePowers(b)
    ensures PositionsMatch(AddTile(b, pick, roll)) && ValuesArePowers(AddTile(b, pick, roll))
    ensures NoMergedTile(b) ==> NoMergedTile(AddTile(b, pick, roll))
  {
  }

  /** A tile with both per-move flags cleared (resetMergeState). */
  function ResetTile(t: Option<Tile>): (t': Option<Tile>)
    ensures t'.Some? <==> t.Some?
    ensures t'.Some? ==> t'.value == t.value.(isNew := false, isMerged := false)
  {
    if t.Some? then Some(t.value.(isNew := false, isMerged := false)) else None
  }

  /** The board after the first loop of `move`. */
  function ResetFlags(b: Board): (b': Board)
    requires IsBoard(b)
    ensures IsBoard(b')
    ensures forall r, c :: 0 <= r < BoardSize && 0 <= c < BoardSize ==> b'[r][c] == ResetTile(b[r][c])
  {
    seq(BoardSize, r requires 0 <= r < BoardSize => seq(BoardSize, c requires 0 <= c < BoardSize => ResetTile(b[r][c])))
  }

  lemma {:induction false} SumByPointwise(s: seq<Option<Tile>>, s': seq<Option<Tile>>, w: Option<Tile> -> int)
    requires |s| == |s'| && forall i :: 0 <= i < |s| ==> w(s[i]) == w(s'[i])
    ensures SumBy(s, w) == SumBy(s', w)
    decreases |s|
  {
    if s != [] {
      SumByPointwise(s[..|s| - 1], s'[..|s'| - 1], w);
    }
  }

  /**
   * Clearing the flags keeps every tile's value and position, so it keeps
   * the totals and the shape, and leaves no merged tile behind.
   */
  lemma ResetFlagsFacts(b: Board)
    requires IsBoard(b)
    ensures NoMergedTile(ResetFlags(b))
    ensures TotalValue(ResetFlags(b)) == TotalValue(b) && TileCount(ResetFlags(b)) == TileCount(b)
    ensures PositionsMatch(b) ==> PositionsMatch(ResetFlags(b))
    ensures ValuesArePowers(b) ==> ValuesArePowers(ResetFlags(b))
  {
    var b' := ResetFlags(b);
    forall i | 0 <= i < BoardSize * BoardSize
      ensures ValueOf(Cells(b)[i]) == ValueOf(Cells(b')[i]) && CountOf(Cells(b)[i]) == CountOf(Cells(b')[i])
    {
      CellsIndex(b, i);
      CellsIndex(b', i);
    }
    SumByPointwise(Cells(b), Cells(b'), ValueOf);
    SumByPointwise(Cells(b), Cells(b'), CountOf);
  }

  // ---------------------------------------------------------------------
  // A fresh board (init and resetGame)

  /** The `for _ in 0..<initialTileCount { addRandomTile() }` loop, one pair of draws per tile. */
  function AddTiles(b: Board, picks: seq<nat>, rolls: seq<real>): (b': Board)
    requires IsBoard(b) && |picks| == |rolls|
    ensures IsBoard(b')
    decreases |picks|
  {
    if picks == [] then b else AddTiles(AddTile(b, picks[0], rolls[0]), picks[1..], rolls[1..])
  }

  lemma EmptyBoardTotals()
    ensures TileCount(EmptyBoard()) == 0 && TotalValue(EmptyBoard()) == 0
    ensures NoMergedTile(EmptyBoard()) && PositionsMatch(EmptyBoard()) && ValuesArePowers(EmptyBoard())
  {
    var b := EmptyBoard();
    forall i | 0 <= i < BoardSize * BoardSize
      ensures CountOf(Cells(b)[i]) == 0 && ValueOf(Cells(b)[i]) == 0
    {
      CellsIndex(b, i);
    }
    SumByZero(Cells(b), CountOf);
    SumByZero(Cells(b), ValueOf);
  }

  /** A board with fewer than 16 tiles has an empty cell. */
  lemma NotFullBelowCapacity(b: Board)
    requires IsBoard(b) && TileCount(b) < BoardSize * BoardSize
    ensures !IsFull(b)
  {
    AllTilesCount(b);
    AddTileFull(b, 0, 0.0);
  }

  /** One spawn on a well-formed board below capacity: one more tile, worth 2 or 4. */
  lemma SpawnStep(b: Board, pick: nat, roll: real)
    requires IsBoard(b) && TileCount(b) < BoardSize * BoardSize
    requires PositionsMatch(b) && ValuesArePowers(b) && NoMergedTile(b)
    ensures var b' := AddTile(b, pick, roll);
      && TileCount(b') == TileCount(b) + 1
      && TotalValue(b) + 2 <= TotalValue(b') <= TotalValue(b) + 4
      && PositionsMatch(b') && ValuesArePowers(b') && NoMergedTile(b')
  {
    NotFullBelowCapacity(b);
    AddTileFull(b, pick, roll);
    AddTileTotals(b, pick, roll);
    AddTileKeepsShape(b, pick, roll);
  }

  /** Two spawns on a board with no tile give two tiles, each worth 2 or 4. */
  lemma SpawnTwice(b: Board, picks: seq<nat>, rolls: seq<real>)
    requires IsBoard(b) && TileCount(b) == 0 && TotalValue(b) == 0
    requires PositionsMatch(b) && ValuesArePowers(b) && NoMergedTile(b)
    requires |picks| == |rolls| == InitialTileCount
    ensures var b' := AddTiles(b, picks, rolls);
      && TileCount(b') == InitialTileCount
      && 4 <= TotalValue(b') <= 8
      && PositionsMatch(b') && ValuesArePowers(b') && NoMergedTile(b')
  {
    AddTilesTwice(b, picks, rolls);
    SpawnStep(b, picks[0], rolls[0]);
    SpawnStep(AddTile(b, picks[0], rolls[0]), picks[1], rolls[1]);
  }

  /** The spawn loop with two pairs of draws is two spawns in a row. */
  lemma AddTilesTwice(b: Board, picks: seq<nat>, rolls: seq<real>)
    requires IsBoard(b) && |picks| == |rolls| == 2
    ensures AddTiles(b, picks, rolls) == AddTile(AddTile(b, picks[0], rolls[0]), picks[1], rolls[1])
  {
    var b1 := AddTile(b, picks[0], rolls[0]);
    assert picks[1..][0] == picks[1] && rolls[1..][0] == rolls[1];
    assert picks[1..][1..] == [];
    assert AddTiles(b1, picks[1..], rolls[1..]) == AddTiles(AddTile(b1, picks[1], rolls[1]), [], []);
  }

  /** A new game starts with exactly two tiles, each worth 2 or 4, with matching positions and no merge flag. */
  lemma NewBoardFacts(picks: seq<nat>, rolls: seq<real>)
    requires |picks| == |rolls| == InitialTileCount
    ensures var b := AddTiles(EmptyBoard(), picks, rolls);
      && TileCount(b) == InitialTileCount
      && 4 <= TotalValue(b) <= 8
      && PositionsMatch(b) && ValuesArePowers(b) && NoMergedTile(b)
  {
    EmptyBoardTotals();
    SpawnTwice(EmptyBoard(), picks, rolls);
  }

  // ---------------------------------------------------------------------
  // A whole move

  /** The pass `move` makes: merge flags cleared, then one slide towards `d`. */
  function MoveSweep(b: Board, score: int, bestScore: int, hasWon: bool, d: MoveDirection): (r: Sweep)
    requires IsBoard(b)
    ensures IsBoard(r.board)
  {
    SlideBoard(StartSweep(ResetFlags(b), score, bestScore, hasWon), d)
  }

  /** The board after `move`: a tile is spawned only when the pass moved something. */
  function MovedBoard(r: Sweep, pick: nat, roll: real): (b: Board)
    requires IsBoard(r.board)
    ensures IsBoard(b)
  {
    if r.moved then AddTile(r.board, pick, roll) else r.board
  }

  /** A pass that has moved something so far has merged a tile, or started from a board with an empty cell. */
  ghost predicate RoomInv(o: Sweep, s: Sweep)
    requires IsBoard(o.board)
  {
    s.moved ==> s.merges != [] || !IsFull(o.board)
  }

  /** A tile leaves distance `cur` only into an empty cell one step nearer the edge. */
  lemma SlideLeaves(b: Board, d: MoveDirection, line: int, cur: int, v: int)
    requires IsBoard(b) && InRange(line) && InRange(cur)
    requires Slide(b, d, line, cur, v).1 < cur
    ensures cur > 0 && At(b, d, line, cur - 1) == None
  {
  }

  /** One visit keeps the room invariant: its first movement is a merge or a slide into an empty cell of the start board. */
  lemma StepKeepsRoomInv(o: Sweep, s: Sweep, d: MoveDirection, line: int, k: int)
    requires InRange(line) && 1 <= k < BoardSize
    requires IsBoard(o.board) && IsBoard(s.board) && ScoreInv(o, s) && RoomInv(o, s)
    ensures RoomInv(o, ProcessCell(s, d, line, k))
  {
    if At(s.board, d, line, k).Some? {
      var v := At(s.board, d, line, k).value.value;
      var r := Slide(s.board, d, line, k, v);
      StepUnfold(s, d, line, k);
      if !(r.1 > 0 && CanMergeInto(At(r.0, d, line, r.1 - 1), v)) && r.1 < k && !s.moved {
        SlideLeaves(s.board, d, line, k, v);
        CoordInRange(d, line, k - 1);
        var p := Coord(d, line, k - 1);
        assert o.board[p.row][p.column] == None;
      }
    }
  }

  lemma {:induction false} LineKeepsRoomInv(o: Sweep, s: Sweep, d: MoveDirection, line: int, k: int)
    requires InRange(line) && 1 <= k <= BoardSize
    requires BoardInv(o, s, d, line, k) && ScoreInv(o, s) && RoomInv(o, s)
    ensures RoomInv(o, ProcessLine(s, d, line, k))
    decreases BoardSize - k
  {
    if k < BoardSize {
      VisitedTileUnflagged(s.board, d, line, k);
      StepKeepsBoardInv(o, s, d, line, k);
      StepKeepsScoreInv(o, s, d, line, k);
      StepKeepsRoomInv(o, s, d, line, k);
      LineKeepsRoomInv(o, ProcessCell(s, d, line, k), d, line, k + 1);
    }
  }

  lemma {:induction false} LinesKeepRoomInv(o: Sweep, s: Sweep, d: MoveDirection, line: int)
    requires 0 <= line <= BoardSize
    requires BoardInv(o, s, d, line, 1) && ScoreInv(o, s) && RoomInv(o, s)
    ensures RoomInv(o, ProcessLines(s, d, line))
    decreases BoardSize - line
  {
    if line < BoardSize {
      LineKeepsInv(o, s, d, line, 1);
      LineKeepsRoomInv(o, s, d, line, 1);
      var s1 := ProcessLine(s, d, line, 1);
      UnvisitedNextLine(s1.board, d, line);
      LinesKeepRoomInv(o, s1, d, line + 1);
    }
  }

  /**
   * A pass that reports movement leaves an empty cell: either it merged two
   * tiles into one, or its first movement slid a tile into a cell that was
   * empty, and no later step adds a tile.
   */
  lemma MovedLeavesRoom(b: Board, score: int, bestScore: int, hasWon: bool, d: MoveDirection)
    requires IsBoard(b) && NoMergedTile(b) && PositionsMatch(b) && ValuesArePowers(b)
    ensures var r := SlideBoard(StartSweep(b, score, bestScore, hasWon), d);
      r.moved ==> TileCount(r.board) < BoardSize * BoardSize && EmptyCells(r.board) != []
  {
    var o := StartSweep(b, score, bestScore, hasWon);
    var r := SlideBoard(o, d);
    NoMergedUnvisited(b, d);
    NoMergedTileCount(b);
    assert BoardInv(o, o, d, 0, 1);
    LinesKeepRoomInv(o, o, d, 0);
    SlideBoardFacts(b, score, bestScore, hasWon, d);
    AllTilesCount(b);
    AllTilesCount(r.board);
    AddTileFull(b, 0, 0.0);
  }

  /**
   * A move keeps tiles at their coordinates with power-of-two values,
   * never lowers the score or the best score, keeps the score within the
   * best score, and conserves the value on the board apart from the spawned
   * tile. When nothing moved, the score and the tile count are unchanged and
   * nothing spawns. When something moved, there was an empty cell to spawn
   * on, and exactly that previously empty cell received a new tile of value
   * 2 or 4: one tile more than the pass left, every other cell as the pass
   * left it.
   */
  lemma MoveFacts(b: Board, score: int, bestScore: int, hasWon: bool, d: MoveDirection, pick: nat, roll: real)
    requires IsBoard(b) && PositionsMatch(b) && ValuesArePowers(b) && 0 <= score <= bestScore
    ensures var r := MoveSweep(b, score, bestScore, hasWon, d);
      var b' := MovedBoard(r, pick, roll);
      && PositionsMatch(r.board) && ValuesArePowers(r.board)
      && PositionsMatch(b') && ValuesArePowers(b')
      && score <= r.score <= r.bestScore && bestScore <= r.bestScore
      && TotalValue(b') == TotalValue(b) + (if r.moved then SpawnValue(roll) else 0)
      && TileCount(b') == TileCount(b) - |r.merges| + (if r.moved then 1 else 0)
      && (!r.moved ==> r.score == score && TileCount(b') == TileCount(b) && b' == r.board)
    ensures var r := MoveSweep(b, score, bestScore, hasWon, d);
      var b' := MovedBoard(r, pick, roll);
      r.moved ==>
        && EmptyCells(r.board) != []
        && TileCount(b') == TileCount(r.board) + 1
        && var p := SpawnPosition(r.board, pick);
          && r.board[p.row][p.column] == None
          && b'[p.row][p.column] == Some(Tile(SpawnValue(roll), p, true, false))
          && (forall row, c :: 0 <= row < BoardSize && 0 <= c < BoardSize && (row, c) != (p.row, p.column) ==> b'[row][c] == r.board[row][c])
  {
    var cleared := ResetFlags(b);
    var r := MoveSweep(b, score, bestScore, hasWon, d);
    ResetFlagsFacts(b);
    SlideBoardFacts(cleared, score, bestScore, hasWon, d);
    SumIntsAtLeast(r.merges);
    if r.moved {
      MovedLeavesRoom(cleared, score, bestScore, hasWon, d);
      AddTileKeepsShape(r.board, pick, roll);
      AddTileTotals(r.board, pick, roll);
      AddTilePlacement(r.board, pick, roll);
    }
  }

  // ---------------------------------------------------------------------
  // Two left moves on the top row

  /** A board whose top row holds the given cells and whose other rows are empty. */
  function TopCells(a: Option<Tile>, b: Option<Tile>, c: Option<Tile>, e: Option<Tile>): (board: Board)
    ensures IsBoard(board)
  {
    var none := [None, None, None, None];
    [[a, b, c, e], none, none, none]
  }

  /** A tile as it stands in the top row after the flags were cleared. */
  function Fresh(v: int, column: int): Option<Tile>
  {
    Some(Tile(v, Position(0, column), false, false))
  }

  /** Clearing the flags leaves a top row of unflagged tiles as it is. */
  lemma ResetFlagsTopRow(a: Option<Tile>, b: Option<Tile>, c: Option<Tile>, e: Option<Tile>)
    requires ResetTile(a) == a && ResetTile(b) == b && ResetTile(c) == c && ResetTile(e) == e
    ensures ResetFlags(TopCells(a, b, c, e)) == TopCells(a, b, c, e)
  {
    var p := ResetFlags(TopCells(a, b, c, e));
    var q := TopCells(a, b, c, e);
    assert p[0] == q[0];
    assert p[1] == q[1] && p[2] == q[2] && p[3] == q[3];
  }

  /** A write into the top row of such a board, seen as a left line. */
  lemma PutTopRow(a: Option<Tile>, b: Option<Tile>, c: Option<Tile>, e: Option<Tile>, k: int, x: Option<Tile>)
    requires InRange(k)
    ensures Put(TopCells(a, b, c, e), Left, 0, k, x)
      == TopCells(if k == 0 then x else a, if k == 1 then x else b, if k == 2 then x else c, if k == 3 then x else e)
  {
    var p := Put(TopCells(a, b, c, e), Left, 0, k, x);
    var q := TopCells(if k == 0 then x else a, if k == 1 then x else b, if k == 2 then x else c, if k == 3 then x else e);
    assert p[0] == q[0];
    assert p[1] == q[1] && p[2] == q[2] && p[3] == q[3];
  }

  /** A line with no tile past the edge cell is left as it is. */
  lemma EmptyLineUnchanged(s: Sweep, d: MoveDirection, line: int)
    requires IsBoard(s.board) && InRange(line)
    requires forall k :: 1 <= k < BoardSize ==> At(s.board, d, line, k) == None
    ensures ProcessLine(s, d, line, 1) == s
  {
    assert ProcessLine(s, d, line, 3) == s;
    assert ProcessLine(s, d, line, 2) == s;
  }

  /** Processing one line leaves every other line alone. */
  lemma {:induction false} LineLeavesOtherLines(s: Sweep, d: MoveDirection, line: int, k: int, l: int, j: int)
    requires IsBoard(s.board) && InRange(line) && 1 <= k <= BoardSize && InRange(l) && InRange(j) && l != line
    ensures At(ProcessLine(s, d, line, k).board, d, l, j) == At(s.board, d, l, j)
    decreases BoardSize - k
  {
    if k < BoardSize {
      var s1 := ProcessCell(s, d, line, k);
      StepFrame(s, d, line, k, l, j);
      LineLeavesOtherLines(s1, d, line, k + 1, l, j);
    }
  }

  /** When only the top row holds tiles, a left move is the pass over the top row. */
  lemma LeftMoveTopRow(s: Sweep)
    requires IsBoard(s.board)
    requires forall r, c :: 1 <= r < BoardSize && 0 <= c < BoardSize ==> s.board[r][c] == None
    ensures SlideBoard(s, Left) == ProcessLine(s, Left, 0, 1)
  {
    var s1 := ProcessLine(s, Left, 0, 1);
    forall r, c | 1 <= r < BoardSize && 0 <= c < BoardSize
      ensures s1.board[r][c] == None
    {
      LineLeavesOtherLines(s, Left, 0, 1, r, c);
    }
    EmptyLineUnchanged(s1, Left, 1);
    EmptyLineUnchanged(s1, Left, 2);
    EmptyLineUnchanged(s1, Left, 3);
    assert ProcessLines(s1, Left, 1) == s1;
  }

  lemma FourTwosFirstMerge()
    ensures ProcessCell(StartSweep(TopCells(Fresh(2, 0), Fresh(2, 1), Fresh(2, 2), Fresh(2, 3)), 0, 0, false), Left, 0, 1)
      == Sweep(TopCells(Some(MergedTile(4, Left, 0, 0)), None, Fresh(2, 2), Fresh(2, 3)), 4, 4, false, true, [4])
  {
    var b := TopCells(Fresh(2, 0), Fresh(2, 1), Fresh(2, 2), Fresh(2, 3));
    assert At(b, Left, 0, 1) == Fresh(2, 1);
    assert Slide(b, Left, 0, 1, 2) == (b, 1);
    assert CanMergeInto(At(b, Left, 0, 0), 2);
    PutTopRow(Fresh(2, 0), Fresh(2, 1), Fresh(2, 2), Fresh(2, 3), 0, Some(MergedTile(4, Left, 0, 0)));
    PutTopRow(Some(MergedTile(4, Left, 0, 0)), Fresh(2, 1), Fresh(2, 2), Fresh(2, 3), 1, None);
    assert MergeAt(b, Left, 0, 1, 4) == TopCells(Some(MergedTile(4, Left, 0, 0)), None, Fresh(2, 2), Fresh(2, 3));
  }

  lemma FourTwosSlide()
    ensures ProcessCell(Sweep(TopCells(Some(MergedTile(4, Left, 0, 0)), None, Fresh(2, 2), Fresh(2, 3)), 4, 4, false, true, [4]), Left, 0, 2)
      == Sweep(TopCells(Some(MergedTile(4, Left, 0, 0)), Some(SlidTile(2, Left, 0, 1)), None, Fresh(2, 3)), 4, 4, false, true, [4])
  {
    var b := TopCells(Some(MergedTile(4, Left, 0, 0)), None, Fresh(2, 2), Fresh(2, 3));
    var b1 := TopCells(Some(MergedTile(4, Left, 0, 0)), Some(SlidTile(2, Left, 0, 1)), None, Fresh(2, 3));
    assert At(b, Left, 0, 2) == Fresh(2, 2);
    assert At(b, Left, 0, 1) == None;
    PutTopRow(Some(MergedTile(4, Left, 0, 0)), None, Fresh(2, 2), Fresh(2, 3), 1, Some(SlidTile(2, Left, 0, 1)));
    PutTopRow(Some(MergedTile(4, Left, 0, 0)), Some(SlidTile(2, Left, 0, 1)), Fresh(2, 2), Fresh(2, 3), 2, None);
    assert Put(Put(b, Left, 0, 1, Some(SlidTile(2, Left, 0, 1))), Left, 0, 2, None) == b1;
    assert Slide(b1, Left, 0, 1, 2) == (b1, 1);
    assert Slide(b, Left, 0, 2, 2) == (b1, 1);
    assert !CanMergeInto(At(b1, Left, 0, 0), 2);
  }

  lemma FourTwosSecondMerge()
    ensures ProcessCell(Sweep(TopCells(Some(MergedTile(4, Left, 0, 0)), Some(SlidTile(2, Left, 0, 1)), None, Fresh(2, 3)), 4, 4, false, true, [4]), Left, 0, 3)
      == Sweep(TopCells(Some(MergedTile(4, Left, 0, 0)), Some(MergedTile(4, Left, 0, 1)), None, None), 8, 8, false, true, [4, 4])
  {
    var b := TopCells(Some(MergedTile(4, Left, 0, 0)), Some(SlidTile(2, Left, 0, 1)), None, Fresh(2, 3));
    var b1 := TopCells(Some(MergedTile(4, Left, 0, 0)), Some(SlidTile(2, Left, 0, 1)), Some(SlidTile(2, Left, 0, 2)), None);
    assert At(b, Left, 0, 3) == Fresh(2, 3);
    assert At(b, Left, 0, 2) == None;
    PutTopRow(Some(MergedTile(4, Left, 0, 0)), Some(SlidTile(2, Left, 0, 1)), None, Fresh(2, 3), 2, Some(SlidTile(2, Left, 0, 2)));
    PutTopRow(Some(MergedTile(4, Left, 0, 0)), Some(SlidTile(2, Left, 0, 1)), Some(SlidTile(2, Left, 0, 2)), Fresh(2, 3), 3, None);
    assert Put(Put(b, Left, 0, 2, Some(SlidTile(2, Left, 0, 2))), Left, 0, 3, None) == b1;
    assert Slide(b1, Left, 0, 2, 2) == (b1, 2);
    assert Slide(b, Left, 0, 3, 2) == (b1, 2);
    assert CanMergeInto(At(b1, Left, 0, 1), 2);
    PutTopRow(Some(MergedTile(4, Left, 0, 0)), Some(SlidTile(2, Left, 0, 1)), Some(SlidTile(2, Left, 0, 2)), None, 1, Some(MergedTile(4, Left, 0, 1)));
    PutTopRow(Some(MergedTile(4, Left, 0, 0)), Some(MergedTile(4, Left, 0, 1)), Some(SlidTile(2, Left, 0, 2)), None, 2, None);
    assert MergeAt(b1, Left, 0, 2, 4) == TopCells(Some(MergedTile(4, Left, 0, 0)), Some(MergedTile(4, Left, 0, 1)), None, None);
  }

  /**
   * A left move on 2 2 2 2 gives 4 4 _ _ and scores 8: the third tile
   * slides next to the merged 4 without joining it, and merges with the
   * fourth.
   */
  lemma LeftMoveFourTwos()
    ensures SlideBoard(StartSweep(TopCells(Fresh(2, 0), Fresh(2, 1), Fresh(2, 2), Fresh(2, 3)), 0, 0, false), Left)
      == Sweep(TopCells(Some(MergedTile(4, Left, 0, 0)), Some(MergedTile(4, Left, 0, 1)), None, None), 8, 8, false, true, [4, 4])
  {
    var s0 := StartSweep(TopCells(Fresh(2, 0), Fresh(2, 1), Fresh(2, 2), Fresh(2, 3)), 0, 0, false);
    LeftMoveTopRow(s0);
    FourTwosFirstMerge();
    FourTwosSlide();
    FourTwosSecondMerge();
  }

  lemma TwosAndFoursFirstMerge()
    ensures ProcessCell(StartSweep(TopCells(Fresh(2, 0), Fresh(2, 1), Fresh(4, 2), Fresh(4, 3)), 0, 0, false), Left, 0, 1)
      == Sweep(TopCells(Some(MergedTile(4, Left, 0, 0)), None, Fresh(4, 2), Fresh(4, 3)), 4, 4, false, true, [4])
  {
    var b := TopCells(Fresh(2, 0), Fresh(2, 1), Fresh(4, 2), Fresh(4, 3));
    assert At(b, Left, 0, 1) == Fresh(2, 1);
    assert Slide(b, Left, 0, 1, 2) == (b, 1);
    assert CanMergeInto(At(b, Left, 0, 0), 2);
    PutTopRow(Fresh(2, 0), Fresh(2, 1), Fresh(4, 2), Fresh(4, 3), 0, Some(MergedTile(4, Left, 0, 0)));
    PutTopRow(Some(MergedTile(4, Left, 0, 0)), Fresh(2, 1), Fresh(4, 2), Fresh(4, 3), 1, None);
    assert MergeAt(b, Left, 0, 1, 4) == TopCells(Some(MergedTile(4, Left, 0, 0)), None, Fresh(4, 2), Fresh(4, 3));
  }

  /** The 4 slides next to the merged 4 and is kept from joining it by the merge flag. */
  lemma TwosAndFoursBlocked()
    ensures ProcessCell(Sweep(TopCells(Some(MergedTile(4, Left, 0, 0)), None, Fresh(4, 2), Fresh(4, 3)), 4, 4, false, true, [4]), Left, 0, 2)
      == Sweep(TopCells(Some(MergedTile(4, Left, 0, 0)), Some(SlidTile(4, Left, 0, 1)), None, Fresh(4, 3)), 4, 4, false, true, [4])
  {
    var b := TopCells(Some(MergedTile(4, Left, 0, 0)), None, Fresh(4, 2), Fresh(4, 3));
    var b1 := TopCells(Some(MergedTile(4, Left, 0, 0)), Some(SlidTile(4, Left, 0, 1)), None, Fresh(4, 3));
    assert At(b, Left, 0, 2) == Fresh(4, 2);
    assert At(b, Left, 0, 1) == None;
    PutTopRow(Some(MergedTile(4, Left, 0, 0)), None, Fresh(4, 2), Fresh(4, 3), 1, Some(SlidTile(4, Left, 0, 1)));
    PutTopRow(Some(MergedTile(4, Left, 0, 0)), Some(SlidTile(4, Left, 0, 1)), Fresh(4, 2), Fresh(4, 3), 2, None);
    assert Put(Put(b, Left, 0, 1, Some(SlidTile(4, Left, 0, 1))), Left, 0, 2, None) == b1;
    assert Slide(b1, Left, 0, 1, 4) == (b1, 1);
    assert Slide(b, Left, 0, 2, 4) == (b1, 1);
    assert !CanMergeInto(At(b1, Left, 0, 0), 4);
  }

  lemma TwosAndFoursSecondMerge()
    ensures ProcessCell(Sweep(TopCells(Some(MergedTile(4, Left, 0, 0)), Some(SlidTile(4, Left, 0, 1)), None, Fresh(4, 3)), 4, 4, false, true, [4]), Left, 0, 3)
      == Sweep(TopCells(Some(MergedTile(4, Left, 0, 0)), Some(MergedTile(8, Left, 0, 1)), None, None), 12, 12, false, true, [4, 8])
  {
    var b := TopCells(Some(MergedTile(4, Left, 0, 0)), Some(SlidTile(4, Left, 0, 1)), None, Fresh(4, 3));
    var b1 := TopCells(Some(MergedTile(4, Left, 0, 0)), Some(SlidTile(4, Left, 0, 1)), Some(SlidTile(4, Left, 0, 2)), None);
    assert At(b, Left, 0, 3) == Fresh(4, 3);
    assert At(b, Left, 0, 2) == None;
    PutTopRow(Some(MergedTile(4, Left, 0, 0)), Some(SlidTile(4, Left, 0, 1)), None, Fresh(4, 3), 2, Some(SlidTile(4, Left, 0, 2)));
    PutTopRow(Some(MergedTile(4, Left, 0, 0)), Some(SlidTile(4, Left, 0, 1)), Some(SlidTile(4, Left, 0, 2)), Fresh(4, 3), 3, None);
    assert Put(Put(b, Left, 0, 2, Some(SlidTile(4, Left, 0, 2))), Left, 0, 3, None) == b1;
    assert Slide(b1, Left, 0, 2, 4) == (b1, 2);
    assert Slide(b, Left, 0, 3, 4) == (b1, 2);
    assert CanMergeInto(At(b1, Left, 0, 1), 4);
    PutTopRow(Some(MergedTile(4, Left, 0, 0)), Some(SlidTile(4, Left, 0, 1)), Some(SlidTile(4, Left, 0, 2)), None, 1, Some(MergedTile(8, Left, 0, 1)));
    PutTopRow(Some(MergedTile(4, Left, 0, 0)), Some(MergedTile(8, Left, 0, 1)), Some(SlidTile(4, Left, 0, 2)), None, 2, None);
    assert MergeAt(b1, Left, 0, 2, 8) == TopCells(Some(MergedTile(4, Left, 0, 0)), Some(MergedTile(8, Left, 0, 1)), None, None);
  }

  /**
   * A left move on 2 2 4 4 gives 4 8 _ _ and scores 12: the first 4 is
   * kept from joining the freshly merged 4 by its merge flag.
   */
  lemma LeftMoveTwosAndFours()
    ensures SlideBoard(StartSweep(TopCells(Fresh(2, 0), Fresh(2, 1), Fresh(4, 2), Fresh(4, 3)), 0, 0, false), Left)
      == Sweep(TopCells(Some(MergedTile(4, Left, 0, 0)), Some(MergedTile(8, Left, 0, 1)), None, None), 12, 12, false, true, [4, 8])
  {
    var s0 := StartSweep(TopCells(Fresh(2, 0), Fresh(2, 1), Fresh(4, 2), Fresh(4, 3)), 0, 0, false);
    LeftMoveTopRow(s0);
    TwosAndFoursFirstMerge();
    TwosAndFoursBlocked();
    TwosAndFoursSecondMerge();
  }

  /**
   * The whole pass of `move` on 2 2 2 2 in the top row, from a score and
   * best score of 0: the score and the best score both become 8.
   */
  lemma MoveFourTwos()
    ensures MoveSweep(TopCells(Fresh(2, 0), Fresh(2, 1), Fresh(2, 2), Fresh(2, 3)), 0, 0, false, Left).score == 8
    ensures MoveSweep(TopCells(Fresh(2, 0), Fresh(2, 1), Fresh(2, 2), Fresh(2, 3)), 0, 0, false, Left).bestScore == 8
  {
    ResetFlagsTopRow(Fresh(2, 0), Fresh(2, 1), Fresh(2, 2), Fresh(2, 3));
    LeftMoveFourTwos();
  }
}
