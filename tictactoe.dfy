/**
 * Models/TicTacToe.swift: players, the 3x3 board of cells, and the
 * `TicTacToe` struct as a class whose moves update the board in place.
 * The checks of `makeMove` are specified by pure functions: the eight
 * lines in the order `checkForWin` scans them, the first complete line,
 * and the number of occupied cells.
 */
module TicTacToeModel {
  import opened Wrappers

  const BoardSize := 3
  /** Three rows, three columns and two diagonals. */
  const LineCount := 8

  datatype Player = Player1 | Player2

  /** `Player.next`: the other player. */
  function Next(p: Player): (q: Player)
    ensures q != p
  {
    if p == Player1 then Player2 else Player1
  }

  /** `next` swaps the two players, so applying it twice is the identity. */
  lemma NextInvolution(p: Player)
    ensures Next(Next(p)) == p
    ensures Next(p) == (if p == Player1 then Player2 else Player1)
  {
  }

  datatype Position = Position(row: int, column: int)

  /** `TicTacCell` without its UUID. */
  datatype Cell = Cell(position: Position, player: Option<Player>, isWinningCell: bool)

  type Board = seq<seq<Cell>>

  predicate InBounds(p: Position)
  {
    0 <= p.row < BoardSize && 0 <= p.column < BoardSize
  }

  /** A 3x3 board. */
  predicate IsBoard(b: Board)
  {
    |b| == BoardSize && forall r :: 0 <= r < BoardSize ==> |b[r]| == BoardSize
  }

  /** Every cell carries its own coordinates. */
  predicate PositionsMatch(b: Board)
    requires IsBoard(b)
  {
    && PositionAt(b, 0, 0) && PositionAt(b, 0, 1) && PositionAt(b, 0, 2)
    && PositionAt(b, 1, 0) && PositionAt(b, 1, 1) && PositionAt(b, 1, 2)
    && PositionAt(b, 2, 0) && PositionAt(b, 2, 1) && PositionAt(b, 2, 2)
  }

  predicate PositionAt(b: Board, r: int, c: int)
    requires IsBoard(b) && 0 <= r < BoardSize && 0 <= c < BoardSize
  {
    b[r][c].position == Position(r, c)
  }

  function At(b: Board, p: Position): Cell
    requires IsBoard(b) && InBounds(p)
  {
    b[p.row][p.column]
  }

  /** The board built by `init` and `resetGame`: every cell empty and unmarked. */
  function NewBoard(): (b: Board)
    ensures IsBoard(b) && PositionsMatch(b)
    ensures forall r, c :: 0 <= r < BoardSize && 0 <= c < BoardSize ==> b[r][c] == Cell(Position(r, c), None, false)
  {
    seq(BoardSize, r => seq(BoardSize, c => Cell(Position(r, c), None, false)))
  }

  /** `isValidMove`: the game is running, the position is on the board, and its cell is empty. */
  predicate IsValidMove(b: Board, isGameOver: bool, p: Position)
    requires IsBoard(b)
  {
    !isGameOver && InBounds(p) && At(b, p).player.None?
  }

  /** The write of line 85 of `makeMove`: `who` takes the cell at `p`. */
  function Place(b: Board, p: Position, who: Player): (b': Board)
    requires IsBoard(b) && InBounds(p)
    ensures IsBoard(b')
  {
    b[p.row := b[p.row][p.column := At(b, p).(player := Some(who))]]
  }

  lemma PlaceAt(b: Board, p: Position, who: Player, q: Position)
    requires IsBoard(b) && InBounds(p) && InBounds(q)
    ensures At(Place(b, p, who), q) == if q == p then At(b, p).(player := Some(who)) else At(b, q)
  {
  }

  /** The write of `markWinningCells` for one position. */
  function Mark(b: Board, p: Position): (b': Board)
    requires IsBoard(b) && InBounds(p)
    ensures IsBoard(b')
  {
    b[p.row := b[p.row][p.column := At(b, p).(isWinningCell := true)]]
  }

  predicate AllInBounds(ps: seq<Position>)
  {
    forall i :: 0 <= i < |ps| ==> InBounds(ps[i])
  }

  /** `markWinningCells`: every position of `ps`, in order, marked. */
  function MarkAll(b: Board, ps: seq<Position>): (b': Board)
    requires IsBoard(b) && AllInBounds(ps)
    ensures IsBoard(b')
    decreases |ps|
  {
    if |ps| == 0 then b else Mark(MarkAll(b, ps[..|ps| - 1]), ps[|ps| - 1])
  }

  /** Marking sets the flag exactly on the given positions and leaves every player in place. */
  lemma {:induction false} MarkAllAt(b: Board, ps: seq<Position>, q: Position)
    requires IsBoard(b) && AllInBounds(ps) && InBounds(q)
    ensures At(MarkAll(b, ps), q) == At(b, q).(isWinningCell := At(b, q).isWinningCell || q in ps)
    decreases |ps|
  {
    if |ps| > 0 {
      var front := ps[..|ps| - 1];
      MarkAllAt(b, front, q);
      assert q in ps <==> q in front || q == ps[|ps| - 1] by {
        assert ps == front + [ps[|ps| - 1]];
      }
    }
  }

  // ---------------------------------------------------------------------
  // The eight lines

  /** Three positions on the board. */
  predicate IsLine(line: seq<Position>)
  {
    |line| == 3 && InBounds(line[0]) && InBounds(line[1]) && InBounds(line[2])
  }

  lemma LineInBounds(line: seq<Position>)
    requires IsLine(line)
    ensures AllInBounds(line)
  {
  }

  /** Line `i` in the order `checkForWin` tries them: rows, columns, the diagonal, the anti-diagonal. */
  function Line(i: int): (line: seq<Position>)
    requires 0 <= i < LineCount
    ensures IsLine(line) && AllInBounds(line)
  {
    if i < 3 then [Position(i, 0), Position(i, 1), Position(i, 2)]
    else if i < 6 then [Position(0, i - 3), Position(1, i - 3), Position(2, i - 3)]
    else if i == 6 then [Position(0, 0), Position(1, 1), Position(2, 2)]
    else [Position(2, 0), Position(1, 1), Position(0, 2)]
  }

  /** The test of `checkForWin`: the first cell is taken and the other two hold the same player. */
  predicate Complete(b: Board, line: seq<Position>)
    requires IsBoard(b) && IsLine(line)
  {
    && At(b, line[0]).player.Some?
    && At(b, line[1]).player == At(b, line[0]).player
    && At(b, line[2]).player == At(b, line[0]).player
  }

  /** Every cell of `line` belongs to `who`. */
  predicate Owns(b: Board, line: seq<Position>, who: Player)
    requires IsBoard(b) && IsLine(line)
  {
    At(b, line[0]).player == Some(who) && At(b, line[1]).player == Some(who) && At(b, line[2]).player == Some(who)
  }

  /** The index of the first complete line at or after `i`, in scan order. */
  function FirstLineFrom(b: Board, i: nat): (r: Option<nat>)
    requires IsBoard(b)
    ensures r.Some? ==> i <= r.value < LineCount && Complete(b, Line(r.value))
    decreases LineCount - i
  {
    if i >= LineCount then None
    else if Complete(b, Line(i)) then Some(i)
    else FirstLineFrom(b, i + 1)
  }

  /** The line `checkForWin` reports, if any. */
  function FirstLine(b: Board): Option<nat>
    requires IsBoard(b)
  {
    FirstLineFrom(b, 0)
  }

  /** A complete line makes the scan succeed, at that line or an earlier one. */
  lemma {:induction false} CompleteMeansFound(b: Board, i: nat, j: int)
    requires IsBoard(b) && i <= j < LineCount && Complete(b, Line(j))
    ensures FirstLineFrom(b, i).Some? && FirstLineFrom(b, i).value <= j
    decreases LineCount - i
  {
    if !Complete(b, Line(i)) {
      CompleteMeansFound(b, i + 1, j);
    }
  }

  /** When the scan finds nothing, no line it covers is complete. */
  lemma {:induction false} NotFoundMeansNoLine(b: Board, i: nat, j: int)
    requires IsBoard(b) && i <= j < LineCount && FirstLineFrom(b, i).None?
    ensures !Complete(b, Line(j))
    decreases LineCount - i
  {
    assert !Complete(b, Line(i));
    if i < j {
      NotFoundMeansNoLine(b, i + 1, j);
    }
  }

  /** A board with no complete line makes the scan find nothing. */
  lemma {:induction false} NoLineMeansNotFound(b: Board, i: nat)
    requires IsBoard(b) && forall j :: i <= j < LineCount ==> !Complete(b, Line(j))
    ensures FirstLineFrom(b, i).None?
    decreases LineCount - i
  {
    if i < LineCount {
      NoLineMeansNotFound(b, i + 1);
    }
  }

  /**
   * A line that a move completes contains the moved-to cell and belongs
   * to the mover: before the move no line was complete.
   */
  lemma CompletedLineBelongsToMover(b: Board, p: Position, who: Player, i: int)
    requires IsBoard(b) && InBounds(p) && 0 <= i < LineCount
    requires !Complete(b, Line(i)) && Complete(Place(b, p, who), Line(i))
    ensures p in Line(i)
    ensures Owns(Place(b, p, who), Line(i), who)
  {
    var line := Line(i);
    var b' := Place(b, p, who);
    PlaceAt(b, p, who, line[0]);
    PlaceAt(b, p, who, line[1]);
    PlaceAt(b, p, who, line[2]);
    assert p == line[0] || p == line[1] || p == line[2];
    assert At(b', p).player == Some(who);
  }

  /** When no line was complete, the line a move completes first is the mover's. */
  lemma WinnerIsMover(b: Board, p: Position, who: Player)
    requires IsBoard(b) && InBounds(p) && FirstLine(b).None?
    requires FirstLine(Place(b, p, who)).Some?
    ensures p in Line(FirstLine(Place(b, p, who)).value)
    ensures Owns(Place(b, p, who), Line(FirstLine(Place(b, p, who)).value), who)
  {
    var i := FirstLine(Place(b, p, who)).value;
    NotFoundMeansNoLine(b, 0, i);
    CompletedLineBelongsToMover(b, p, who, i);
  }

  /** Marking does not change which lines are complete. */
  lemma MarkAllKeepsLines(b: Board, ps: seq<Position>)
    requires IsBoard(b) && AllInBounds(ps)
    ensures FirstLine(MarkAll(b, ps)) == FirstLine(b)
  {
    var b' := MarkAll(b, ps);
    forall i | 0 <= i < LineCount
      ensures Complete(b', Line(i)) == Complete(b, Line(i))
    {
      var line := Line(i);
      MarkAllAt(b, ps, line[0]);
      MarkAllAt(b, ps, line[1]);
      MarkAllAt(b, ps, line[2]);
    }
    FirstLineSame(b, b', 0);
  }

  lemma {:induction false} FirstLineSame(b: Board, b': Board, i: nat)
    requires IsBoard(b) && IsBoard(b')
    requires forall j :: 0 <= j < LineCount ==> Complete(b', Line(j)) == Complete(b, Line(j))
    ensures FirstLineFrom(b', i) == FirstLineFrom(b, i)
    decreases LineCount - i
  {
    if i < LineCount {
      FirstLineSame(b, b', i + 1);
    }
  }

  // ---------------------------------------------------------------------
  // Occupied cells

  function OccupiedIn(row: seq<Cell>): (n: nat)
    ensures n <= |row|
  {
    if |row| == 0 then 0 else (if row[0].player.Some? then 1 else 0) + OccupiedIn(row[1..])
  }

  /** The number of cells holding a player. */
  function Occupied(b: Board): (n: nat)
    requires IsBoard(b)
    ensures n <= BoardSize * BoardSize
  {
    OccupiedIn(b[0]) + OccupiedIn(b[1]) + OccupiedIn(b[2])
  }

  /** Filling an empty cell of a row adds one to its count. */
  lemma {:induction false} OccupiedInFill(row: seq<Cell>, c: int, x: Cell)
    requires 0 <= c < |row| && row[c].player.None? && x.player.Some?
    ensures OccupiedIn(row[c := x]) == OccupiedIn(row) + 1
  {
    if c > 0 {
      assert row[c := x][1..] == row[1..][c - 1 := x];
      OccupiedInFill(row[1..], c - 1, x);
    } else {
      assert row[c := x][1..] == row[1..];
    }
  }

  /** A row with no player counts 0. */
  lemma {:induction false} OccupiedInEmpty(row: seq<Cell>)
    requires forall c :: 0 <= c < |row| ==> row[c].player.None?
    ensures OccupiedIn(row) == 0
  {
    if |row| > 0 {
      OccupiedInEmpty(row[1..]);
    }
  }

  /** Rows holding the same players have the same count. */
  lemma {:induction false} OccupiedInSame(row: seq<Cell>, row': seq<Cell>)
    requires |row| == |row'| && forall c :: 0 <= c < |row| ==> row[c].player == row'[c].player
    ensures OccupiedIn(row) == OccupiedIn(row')
  {
    if |row| > 0 {
      OccupiedInSame(row[1..], row'[1..]);
    }
  }

  /** A row whose count is its length is full. */
  lemma {:induction false} OccupiedInFull(row: seq<Cell>)
    requires OccupiedIn(row) == |row|
    ensures forall c :: 0 <= c < |row| ==> row[c].player.Some?
  {
    if |row| > 0 {
      OccupiedInFull(row[1..]);
      assert forall c :: 1 <= c < |row| ==> row[c] == row[1..][c - 1];
    }
  }

  /** A valid move adds exactly one occupied cell. */
  lemma PlaceCount(b: Board, p: Position, who: Player)
    requires IsBoard(b) && InBounds(p) && At(b, p).player.None?
    ensures Occupied(Place(b, p, who)) == Occupied(b) + 1
  {
    OccupiedInFill(b[p.row], p.column, At(b, p).(player := Some(who)));
  }

  /** Marking keeps the count. */
  lemma MarkAllCount(b: Board, ps: seq<Position>)
    requires IsBoard(b) && AllInBounds(ps)
    ensures Occupied(MarkAll(b, ps)) == Occupied(b)
  {
    var b' := MarkAll(b, ps);
    forall r | 0 <= r < BoardSize
      ensures OccupiedIn(b'[r]) == OccupiedIn(b[r])
    {
      forall c | 0 <= c < BoardSize
        ensures b'[r][c].player == b[r][c].player
      {
        MarkAllAt(b, ps, Position(r, c));
      }
      OccupiedInSame(b[r], b'[r]);
    }
  }

  /** Nine occupied cells means every cell is taken. */
  lemma NineMeansFull(b: Board)
    requires IsBoard(b) && Occupied(b) == BoardSize * BoardSize
    ensures forall r, c :: 0 <= r < BoardSize && 0 <= c < BoardSize ==> b[r][c].player.Some?
  {
    OccupiedInFull(b[0]);
    OccupiedInFull(b[1]);
    OccupiedInFull(b[2]);
  }

  /** The winning cells are exactly the positions of the recorded combination. */
  predicate MarkedExactly(b: Board, combination: Option<seq<Position>>)
    requires IsBoard(b)
  {
    && MarkedAt(b, combination, 0, 0) && MarkedAt(b, combination, 0, 1) && MarkedAt(b, combination, 0, 2)
    && MarkedAt(b, combination, 1, 0) && MarkedAt(b, combination, 1, 1) && MarkedAt(b, combination, 1, 2)
    && MarkedAt(b, combination, 2, 0) && MarkedAt(b, combination, 2, 1) && MarkedAt(b, combination, 2, 2)
  }

  /** Cell (r, c) is marked exactly when it belongs to the recorded combination. */
  predicate MarkedAt(b: Board, combination: Option<seq<Position>>, r: int, c: int)
    requires IsBoard(b) && 0 <= r < BoardSize && 0 <= c < BoardSize
  {
    b[r][c].isWinningCell <==> combination.Some? && Position(r, c) in combination.value
  }

  /** The cells of `getAllCells`, row by row. */
  function RowsUpTo(b: Board, n: int): seq<Cell>
    requires 0 <= n <= |b|
  {
    if n == 0 then [] else RowsUpTo(b, n - 1) + b[n - 1]
  }

  /** `getAllCells` lists the cells in row-major order: cell (r, c) is entry `3 * r + c`. */
  lemma AllCellsRowMajor(b: Board, r: int, c: int)
    requires IsBoard(b) && 0 <= r < BoardSize && 0 <= c < BoardSize
    ensures |RowsUpTo(b, BoardSize)| == BoardSize * BoardSize
    ensures RowsUpTo(b, BoardSize)[3 * r + c] == b[r][c]
  {
    assert RowsUpTo(b, 1) == b[0];
    assert RowsUpTo(b, 2) == b[0] + b[1];
    assert RowsUpTo(b, BoardSize) == b[0] + b[1] + b[2];
  }

  // ---------------------------------------------------------------------
  // The game invariant and the three outcomes of a move

  /**
   * The move counter counts the taken cells; a running game has no
   * complete line; a won game records the first complete line, owned
   * by the winner, who is still the current player; a drawn game has
   * nine moves; and exactly the recorded cells are marked.
   */
  ghost predicate GameInv(b: Board, currentPlayer: Player, isGameOver: bool, winner: Option<Player>,
                          combination: Option<seq<Position>>, moveCount: int)
  {
    && IsBoard(b) && PositionsMatch(b)
    && moveCount == Occupied(b)
    && (!isGameOver ==> FirstLine(b).None? && winner.None? && combination.None?)
    && (winner.Some? ==>
          && isGameOver && winner.value == currentPlayer
          && FirstLine(b).Some?
          && combination == Some(Line(FirstLine(b).value))
          && Owns(b, combination.value, currentPlayer))
    && (isGameOver && winner.None? ==>
          moveCount == BoardSize * BoardSize && FirstLine(b).None? && combination.None?)
    && (combination.Some? ==> IsLine(combination.value) && AllInBounds(combination.value))
    && MarkedExactly(b, combination)
  }

  /** A move that completes a line wins for the mover; the line is the first complete one, holds the moved-to cell, and is marked. */
  lemma AfterWin(b: Board, p: Position, who: Player, moveCount: int)
    requires GameInv(b, who, false, None, None, moveCount) && IsValidMove(b, false, p)
    requires FirstLine(Place(b, p, who)).Some?
    ensures var placed := Place(b, p, who);
      var line := Line(FirstLine(placed).value);
      && p in line
      && GameInv(MarkAll(placed, line), who, true, Some(who), Some(line), moveCount + 1)
  {
    var placed := Place(b, p, who);
    var line := Line(FirstLine(placed).value);
    WinnerIsMover(b, p, who);
    PlaceCount(b, p, who);
    PlaceKeepsMarks(b, p, who);
    MarkAllKeepsLines(placed, line);
    MarkAllCount(placed, line);
    MarkAllAt(placed, line, line[0]);
    MarkAllAt(placed, line, line[1]);
    MarkAllAt(placed, line, line[2]);
    forall r, c | 0 <= r < BoardSize && 0 <= c < BoardSize
      ensures MarkedAt(MarkAll(placed, line), Some(line), r, c) && PositionAt(MarkAll(placed, line), r, c)
    {
      assert PositionAt(placed, r, c) by {
        assert r == 0 || r == 1 || r == 2;
        assert c == 0 || c == 1 || c == 2;
      }
      MarkAllAt(placed, line, Position(r, c));
    }
  }

  /** A ninth move that completes no line draws. */
  lemma AfterDraw(b: Board, p: Position, who: Player, moveCount: int)
    requires GameInv(b, who, false, None, None, moveCount) && IsValidMove(b, false, p)
    requires FirstLine(Place(b, p, who)).None? && moveCount + 1 == BoardSize * BoardSize
    ensures GameInv(Place(b, p, who), who, true, None, None, moveCount + 1)
  {
    PlaceCount(b, p, who);
    PlaceKeepsMarks(b, p, who);
  }

  /** Any other move passes the turn. */
  lemma AfterTurn(b: Board, p: Position, who: Player, moveCount: int)
    requires GameInv(b, who, false, None, None, moveCount) && IsValidMove(b, false, p)
    requires FirstLine(Place(b, p, who)).None?
    ensures GameInv(Place(b, p, who), Next(who), false, None, None, moveCount + 1)
  {
    PlaceCount(b, p, who);
    PlaceKeepsMarks(b, p, who);
  }

  /** Placing a player touches neither the marks nor the coordinates. */
  lemma PlaceKeepsMarks(b: Board, p: Position, who: Player)
    requires IsBoard(b) && InBounds(p) && MarkedExactly(b, None) && PositionsMatch(b)
    ensures MarkedExactly(Place(b, p, who), None) && PositionsMatch(Place(b, p, who))
  {
    forall r, c | 0 <= r < BoardSize && 0 <= c < BoardSize
      ensures MarkedAt(Place(b, p, who), None, r, c) && PositionAt(Place(b, p, who), r, c)
    {
      assert PositionAt(b, r, c) && MarkedAt(b, None, r, c) by {
        assert r == 0 || r == 1 || r == 2;
        assert c == 0 || c == 1 || c == 2;
      }
      PlaceAt(b, p, who, Position(r, c));
    }
  }

  // ---------------------------------------------------------------------
  // The game

  class TicTacToe {
    var board: Board
    var currentPlayer: Player
    var isGameOver: bool
    var winner: Option<Player>
    var winningCombination: Option<seq<Position>>
    var moveCount: int

    /** The game invariant over the fields. */
    ghost predicate Valid()
      reads this
    {
      GameInv(board, currentPlayer, isGameOver, winner, winningCombination, moveCount)
    }

    /** `init`: an empty board, player 1 to move. */
    constructor()
      ensures Valid()
      ensures board == NewBoard() && currentPlayer == Player1
      ensures !isGameOver && winner.None? && winningCombination.None? && moveCount == 0
    {
      board := NewBoard();
      currentPlayer := Player1;
      isGameOver := false;
      winner := None;
      winningCombination := None;
      moveCount := 0;
      new;
      EmptyBoardFacts();
    }

    static lemma EmptyBoardFacts()
      ensures Occupied(NewBoard()) == 0 && FirstLine(NewBoard()).None?
    {
      var b: Board := NewBoard();
      OccupiedInEmpty(b[0]);
      OccupiedInEmpty(b[1]);
      OccupiedInEmpty(b[2]);
      NoLineMeansNotFound(b, 0);
    }

    /** `isValidMove`. */
    method IsValid(p: Position) returns (valid: bool)
      requires IsBoard(board)
      ensures valid == IsValidMove(board, isGameOver, p)
      ensures valid ==> Occupied(Place(board, p, currentPlayer)) == Occupied(board) + 1
    {
      if isGameOver {
        return false;
      }
      if !(0 <= p.row < BoardSize && 0 <= p.column < BoardSize) {
        return false;
      }
      valid := board[p.row][p.column].player == None;
      if valid {
        PlaceCount(board, p, currentPlayer);
      }
    }

    /**
     * `makeMove`: a rejected move changes nothing. An accepted one puts
     * the current player on the cell and counts the move; then either the
     * first complete line wins for the mover and is marked, or a ninth
     * move draws, or the turn passes.
     */
    method MakeMove(p: Position) returns (ok: bool)
      modifies this
      requires Valid()
      ensures Valid()
      ensures ok == IsValidMove(old(board), old(isGameOver), p)
      ensures !ok ==> (board == old(board) && currentPlayer == old(currentPlayer) && isGameOver == old(isGameOver)
        && winner == old(winner) && winningCombination == old(winningCombination) && moveCount == old(moveCount))
      ensures ok ==> moveCount == old(moveCount) + 1
      ensures ok ==> var placed := Place(old(board), p, old(currentPlayer));
        if FirstLine(placed).Some? then
          && isGameOver && winner == Some(old(currentPlayer)) && currentPlayer == old(currentPlayer)
          && winningCombination == Some(Line(FirstLine(placed).value))
          && board == MarkAll(placed, Line(FirstLine(placed).value))
          && p in winningCombination.value
        else if moveCount == BoardSize * BoardSize then
          isGameOver && winner.None? && board == placed && currentPlayer == old(currentPlayer)
        else
          !isGameOver && winner.None? && board == placed && currentPlayer == Next(old(currentPlayer))
    {
      ok := IsValid(p);
      if !ok {
        return;
      }
      ghost var before := board;
      PlaceCurrent(p);
      Settle(before, p);
    }

    /**
     * Lines 88-97 of `makeMove`, once the mover's mark is down: a win
     * (the first complete line, then marked), a draw at nine moves, or
     * the turn passing.
     */
    method Settle(ghost before: Board, ghost p: Position)
      modifies this
      requires GameInv(before, currentPlayer, false, None, None, moveCount - 1) && IsValidMove(before, false, p)
      requires board == Place(before, p, currentPlayer)
      requires !isGameOver && winner.None? && winningCombination.None?
      ensures Valid() && moveCount == old(moveCount)
      ensures var placed := Place(before, p, old(currentPlayer));
        if FirstLine(placed).Some? then
          && isGameOver && winner == Some(old(currentPlayer)) && currentPlayer == old(currentPlayer)
          && winningCombination == Some(Line(FirstLine(placed).value))
          && board == MarkAll(placed, Line(FirstLine(placed).value))
          && p in winningCombination.value
        else if moveCount == BoardSize * BoardSize then
          isGameOver && winner.None? && board == placed && currentPlayer == old(currentPlayer)
        else
          !isGameOver && winner.None? && board == placed && currentPlayer == Next(old(currentPlayer))
    {
      var won := CheckForWin();
      if won {
        RecordWin(before, p);
      } else if moveCount == BoardSize * BoardSize {
        RecordDraw(before, p);
      } else {
        PassTurn(before, p);
      }
    }

    /** Lines 89-91 of `makeMove`: the mover wins and the recorded line is marked. */
    method RecordWin(ghost before: Board, ghost p: Position)
      modifies this
      requires GameInv(before, currentPlayer, false, None, None, moveCount - 1) && IsValidMove(before, false, p)
      requires board == Place(before, p, currentPlayer) && FirstLine(board).Some?
      requires !isGameOver && winner.None? && winningCombination == Some(Line(FirstLine(board).value))
      ensures Valid() && moveCount == old(moveCount) && currentPlayer == old(currentPlayer)
      ensures isGameOver && winner == Some(currentPlayer) && winningCombination == old(winningCombination)
      ensures board == MarkAll(old(board), old(winningCombination).value) && p in winningCombination.value
    {
      AfterWin(before, p, currentPlayer, moveCount - 1);
      isGameOver := true;
      winner := Some(currentPlayer);
      MarkWinningCells();
    }

    /** Lines 93-94 of `makeMove`: the ninth move without a line draws. */
    method RecordDraw(ghost before: Board, ghost p: Position)
      modifies this
      requires GameInv(before, currentPlayer, false, None, None, moveCount - 1) && IsValidMove(before, false, p)
      requires board == Place(before, p, currentPlayer) && FirstLine(board).None?
      requires !isGameOver && winner.None? && winningCombination.None? && moveCount == BoardSize * BoardSize
      ensures Valid() && board == old(board) && moveCount == old(moveCount) && currentPlayer == old(currentPlayer)
      ensures isGameOver && winner.None? && winningCombination.None?
    {
      AfterDraw(before, p, currentPlayer, moveCount - 1);
      isGameOver := true;
      winner := None;
    }

    /** Line 96 of `makeMove`: the turn passes. */
    method PassTurn(ghost before: Board, ghost p: Position)
      modifies this
      requires GameInv(before, currentPlayer, false, None, None, moveCount - 1) && IsValidMove(before, false, p)
      requires board == Place(before, p, currentPlayer) && FirstLine(board).None?
      requires !isGameOver && winner.None? && winningCombination.None?
      ensures Valid() && board == old(board) && moveCount == old(moveCount)
      ensures currentPlayer == Next(old(currentPlayer)) && !isGameOver && winner.None? && winningCombination.None?
    {
      AfterTurn(before, p, currentPlayer, moveCount - 1);
      currentPlayer := Next(currentPlayer);
    }

    /** Lines 85-86 of `makeMove`: the current player takes the cell and the move is counted. */
    method PlaceCurrent(p: Position)
      modifies this
      requires IsBoard(board) && InBounds(p)
      ensures board == Place(old(board), p, currentPlayer) && moveCount == old(moveCount) + 1
      ensures currentPlayer == old(currentPlayer) && isGameOver == old(isGameOver)
      ensures winner == old(winner) && winningCombination == old(winningCombination)
    {
      board := board[p.row := board[p.row][p.column := board[p.row][p.column].(player := Some(currentPlayer))]];
      moveCount := moveCount + 1;
    }

    /**
     * `checkForWin`: the scan of the lines and the record of the first
     * complete one in `winningCombination`.
     */
    method CheckForWin() returns (found: bool)
      modifies this
      requires IsBoard(board)
      ensures board == old(board) && currentPlayer == old(currentPlayer) && isGameOver == old(isGameOver)
      ensures winner == old(winner) && moveCount == old(moveCount)
      ensures found == FirstLine(board).Some?
      ensures winningCombination == if found then Some(Line(FirstLine(board).value)) else old(winningCombination)
    {
      var line := ScanLines();
      if line.Some? {
        winningCombination := line;
        return true;
      }
      return false;
    }

    /** The scan of `checkForWin`: rows, then columns, then the two diagonals. */
    method ScanLines() returns (line: Option<seq<Position>>)
      requires IsBoard(board)
      ensures line.Some? <==> FirstLine(board).Some?
      ensures line.Some? ==> line.value == Line(FirstLine(board).value)
    {
      line := ScanRows();
      if line.Some? {
        return;
      }
      line := ScanColumns();
      if line.Some? {
        return;
      }
      line := ScanDiagonals();
    }

    /** The row loop of `checkForWin`; when it finds nothing, the scan goes on at the columns. */
    method ScanRows() returns (line: Option<seq<Position>>)
      requires IsBoard(board)
      ensures line.Some? ==> FirstLine(board).Some? && line.value == Line(FirstLine(board).value)
      ensures line.None? ==> FirstLineFrom(board, 3) == FirstLine(board)
    {
      for row := 0 to BoardSize
        invariant FirstLineFrom(board, row) == FirstLine(board)
      {
        var player := board[row][0].player;
        if player.Some? && board[row][1].player == player && board[row][2].player == player {
          assert Complete(board, Line(row));
          return Some([Position(row, 0), Position(row, 1), Position(row, 2)]);
        }
        assert !Complete(board, Line(row));
      }
      return None;
    }

    /** The column loop of `checkForWin`; when it finds nothing, the scan goes on at the diagonals. */
    method ScanColumns() returns (line: Option<seq<Position>>)
      requires IsBoard(board) && FirstLineFrom(board, 3) == FirstLine(board)
      ensures line.Some? ==> FirstLine(board).Some? && line.value == Line(FirstLine(board).value)
      ensures line.None? ==> FirstLineFrom(board, 6) == FirstLine(board)
    {
      for column := 0 to BoardSize
        invariant FirstLineFrom(board, 3 + column) == FirstLine(board)
      {
        var player := board[0][column].player;
        if player.Some? && board[1][column].player == player && board[2][column].player == player {
          assert Complete(board, Line(3 + column));
          return Some([Position(0, column), Position(1, column), Position(2, column)]);
        }
        assert !Complete(board, Line(3 + column));
      }
      return None;
    }

    /** The two diagonal tests of `checkForWin`. */
    method ScanDiagonals() returns (line: Option<seq<Position>>)
      requires IsBoard(board) && FirstLineFrom(board, 6) == FirstLine(board)
      ensures line.Some? <==> FirstLine(board).Some?
      ensures line.Some? ==> line.value == Line(FirstLine(board).value)
    {
      var player := board[0][0].player;
      if player.Some? && board[1][1].player == player && board[2][2].player == player {
        assert Complete(board, Line(6));
        return Some([Position(0, 0), Position(1, 1), Position(2, 2)]);
      }
      assert !Complete(board, Line(6));
      player := board[2][0].player;
      if player.Some? && board[1][1].player == player && board[0][2].player == player {
        assert Complete(board, Line(7));
        return Some([Position(2, 0), Position(1, 1), Position(0, 2)]);
      }
      assert !Complete(board, Line(7));
      return None;
    }

    /** `markWinningCells`: flag each recorded position; nothing when none is recorded. */
    method MarkWinningCells()
      modifies this
      requires IsBoard(board)
      requires winningCombination.Some? ==> AllInBounds(winningCombination.value)
      ensures board == if old(winningCombination).Some? then MarkAll(old(board), old(winningCombination).value) else old(board)
      ensures currentPlayer == old(currentPlayer) && isGameOver == old(isGameOver) && winner == old(winner)
      ensures winningCombination == old(winningCombination) && moveCount == old(moveCount)
    {
      if winningCombination.None? {
        return;
      }
      var positions := winningCombination.value;
      var b := board;
      for i := 0 to |positions|
        invariant IsBoard(b) && b == MarkAll(board, positions[..i])
      {
        var p := positions[i];
        b := b[p.row := b[p.row][p.column := b[p.row][p.column].(isWinningCell := true)]];
        assert positions[..i + 1][..i] == positions[..i];
      }
      assert positions[..|positions|] == positions;
      board := b;
    }

    /** `getAllCells`: the cells in row-major order. */
    method GetAllCells() returns (cells: seq<Cell>)
      requires IsBoard(board)
      ensures cells == RowsUpTo(board, BoardSize)
    {
      cells := [];
      for row := 0 to BoardSize
        invariant cells == RowsUpTo(board, row)
      {
        for column := 0 to BoardSize
          invariant cells == RowsUpTo(board, row) + board[row][..column]
        {
          cells := cells + [board[row][column]];
          assert board[row][..column + 1] == board[row][..column] + [board[row][column]];
        }
        assert board[row][..BoardSize] == board[row];
      }
    }

    /** `resetGame`: the state of a new game. */
    method ResetGame()
      modifies this
      ensures Valid()
      ensures board == NewBoard() && currentPlayer == Player1
      ensures !isGameOver && winner.None? && winningCombination.None? && moveCount == 0
    {
      board := NewBoard();
      currentPlayer := Player1;
      isGameOver := false;
      winner := None;
      winningCombination := None;
      moveCount := 0;
      EmptyBoardFacts();
    }
  }

  /** A drawn game has every cell taken. */
  lemma DrawMeansFull(g: TicTacToe)
    requires g.Valid() && g.isGameOver && g.winner.None?
    ensures forall r, c :: 0 <= r < BoardSize && 0 <= c < BoardSize ==> g.board[r][c].player.Some?
  {
    NineMeansFull(g.board);
  }
}
