/**
 * The `Game2048` struct of Models/Game2048.swift as a class whose fields
 * the moves update in place. Each method is proved against the functions
 * of `Game2048Model`; the random draws of addRandomTile are parameters.
 */
module Game2048Engine {
  import opened Wrappers
  import opened Game2048Model

  class Game2048 {
    var board: Board
    var score: int
    var bestScore: int
    var movesCount: int
    var hasWon: bool
    var isGameOver: bool

    /** The board is 4x4, every tile sits at its own coordinates with a power-of-two value, and the counters are consistent. */
    ghost predicate Valid()
      reads this
    {
      && IsBoard(board) && PositionsMatch(board) && ValuesArePowers(board)
      && 0 <= score <= bestScore
      && movesCount >= 0
    }

    /** `init()`: an empty board and two spawned tiles. */
    constructor(picks: seq<nat>, rolls: seq<real>)
      requires |picks| == |rolls| == InitialTileCount
      ensures Valid()
      ensures board == AddTiles(EmptyBoard(), picks, rolls)
      ensures score == 0 && bestScore == 0 && movesCount == 0 && !hasWon && !isGameOver
    {
      board := EmptyBoard();
      score := 0;
      bestScore := 0;
      movesCount := 0;
      hasWon := false;
      isGameOver := false;
      new;
      EmptyBoardTotals();
      AddInitialTiles(picks, rolls);
    }

    /** The spawn loop shared by `init` and `resetGame`. */
    method AddInitialTiles(picks: seq<nat>, rolls: seq<real>)
      modifies this
      requires Valid() && |picks| == |rolls|
      ensures Valid()
      ensures board == AddTiles(old(board), picks, rolls)
      ensures score == old(score) && bestScore == old(bestScore) && movesCount == old(movesCount)
      ensures hasWon == old(hasWon) && isGameOver == old(isGameOver)
    {
      for i := 0 to |picks|
        invariant Valid()
        invariant AddTiles(board, picks[i..], rolls[i..]) == AddTiles(old(board), picks, rolls)
        invariant score == old(score) && bestScore == old(bestScore) && movesCount == old(movesCount)
        invariant hasWon == old(hasWon) && isGameOver == old(isGameOver)
      {
        AddRandomTile(picks[i], rolls[i]);
        assert picks[i..][1..] == picks[i + 1..] && rolls[i..][1..] == rolls[i + 1..];
      }
    }

    /** `addRandomTile`: scan for empty cells in row-major order, fill the one `pick` selects with 2 or 4. */
    method AddRandomTile(pick: nat, roll: real)
      modifies this
      requires Valid()
      ensures Valid()
      ensures board == AddTile(old(board), pick, roll)
      ensures score == old(score) && bestScore == old(bestScore) && movesCount == old(movesCount)
      ensures hasWon == old(hasWon) && isGameOver == old(isGameOver)
    {
      ghost var target := AddTile(board, pick, roll);
      AddTileKeepsShape(board, pick, roll);
      var emptyCells := ScanEmptyCells();
      if |emptyCells| == 0 {
        return;
      }
      var randomPosition := emptyCells[pick % |emptyCells|];
      var value := if roll < 0.9 then 2 else 4;
      var newTile := Tile(value, randomPosition, true, false);
      board := board[randomPosition.row := board[randomPosition.row][randomPosition.column := Some(newTile)]];
      assert board == target;
    }

    /** The scan at the start of `addRandomTile`: every empty cell, in row-major order. */
    method ScanEmptyCells() returns (emptyCells: seq<Position>)
      requires IsBoard(board)
      ensures emptyCells == EmptyCells(board)
    {
      emptyCells := [];
      for row := 0 to BoardSize
        invariant emptyCells == EmptyCellsUpTo(board, BoardSize * row)
      {
        for column := 0 to BoardSize
          invariant emptyCells == EmptyCellsUpTo(board, BoardSize * row + column)
        {
          EmptyCellsStep(board, row, column);
          if board[row][column] == None {
            emptyCells := emptyCells + [Position(row, column)];
          }
        }
        assert BoardSize * row + BoardSize == BoardSize * (row + 1);
      }
    }

    /** `checkGameOver`: set `isGameOver` when the board is full and no two neighbours are equal. */
    method CheckGameOver()
      modifies this
      requires IsBoard(board)
      ensures board == old(board) && score == old(score) && bestScore == old(bestScore)
      ensures movesCount == old(movesCount) && hasWon == old(hasWon)
      ensures isGameOver == (old(isGameOver) || IsStuck(board))
    {
      var full := ScanFull();
      if !full {
        return;
      }
      var distinct := ScanNeighbours();
      if !distinct {
        return;
      }
      isGameOver := true;
    }

    /** The first scan of `checkGameOver`: stop at the first empty cell. */
    method ScanFull() returns (full: bool)
      requires IsBoard(board)
      ensures full == IsFull(board)
    {
      for row := 0 to BoardSize
        invariant forall r, c :: 0 <= r < row && 0 <= c < BoardSize ==> board[r][c].Some?
      {
        for column := 0 to BoardSize
          invariant forall c :: 0 <= c < column ==> board[row][c].Some?
        {
          if board[row][column] == None {
            return false;
          }
        }
      }
      return true;
    }

    /** The second scan of `checkGameOver`, on a full board: stop at the first pair of equal neighbours, right or below. */
    method ScanNeighbours() returns (distinct: bool)
      requires IsBoard(board) && IsFull(board)
      ensures distinct == NoEqualNeighbours(board)
    {
      for row := 0 to BoardSize
        invariant forall r, c :: 0 <= r < row && 0 <= c < BoardSize - 1 ==>
          board[r][c].value.value != board[r][c + 1].value.value
        invariant forall r, r', c :: 0 <= r < row && r' == r + 1 < BoardSize && 0 <= c < BoardSize ==>
          board[r][c].value.value != board[r'][c].value.value
      {
        for column := 0 to BoardSize
          invariant forall c :: 0 <= c < column && c < BoardSize - 1 ==>
            board[row][c].value.value != board[row][c + 1].value.value
          invariant forall c :: 0 <= c < column && row < BoardSize - 1 ==>
            board[row][c].value.value != board[row + 1][c].value.value
        {
          var tile := board[row][column].value;
          if column < BoardSize - 1 && board[row][column + 1].value.value == tile.value {
            return false;
          }
          if row < BoardSize - 1 && board[row + 1][column].value.value == tile.value {
            return false;
          }
        }
      }
      return true;
    }

    /** The flag-clearing loop at the start of `move`. */
    method ResetMergeStates()
      modifies this
      requires IsBoard(board)
      ensures board == ResetFlags(old(board))
      ensures score == old(score) && bestScore == old(bestScore) && movesCount == old(movesCount)
      ensures hasWon == old(hasWon) && isGameOver == old(isGameOver)
    {
      for row := 0 to BoardSize
        invariant IsBoard(board)
        invariant score == old(score) && bestScore == old(bestScore) && movesCount == old(movesCount)
        invariant hasWon == old(hasWon) && isGameOver == old(isGameOver)
        invariant forall r, c :: 0 <= r < BoardSize && 0 <= c < BoardSize ==>
          board[r][c] == if r < row then ResetTile(old(board)[r][c]) else old(board)[r][c]
      {
        for column := 0 to BoardSize
          invariant IsBoard(board)
          invariant score == old(score) && bestScore == old(bestScore) && movesCount == old(movesCount)
          invariant hasWon == old(hasWon) && isGameOver == old(isGameOver)
          invariant forall r, c :: 0 <= r < BoardSize && 0 <= c < BoardSize ==>
            board[r][c] == if r < row || (r == row && c < column) then ResetTile(old(board)[r][c]) else old(board)[r][c]
        {
          if board[row][column].Some? {
            var tile := board[row][column].value;
            tile := tile.(isNew := false, isMerged := false);
            board := board[row := board[row][column := Some(tile)]];
          }
        }
      }
      assert forall r :: 0 <= r < BoardSize ==> board[r] == ResetFlags(old(board))[r];
    }

    /**
     * moveUp, moveDown, moveLeft and moveRight: the four passes of the source
     * under the change of coordinates `Coord(d, line, k)`. Proved equal to
     * `SlideBoard`.
     */
    method SlideTowards(d: MoveDirection) returns (moved: bool)
      modifies this
      requires IsBoard(board)
      ensures var r := SlideBoard(StartSweep(old(board), old(score), old(bestScore), old(hasWon)), d);
        && board == r.board && score == r.score && bestScore == r.bestScore
        && hasWon == r.hasWon && moved == r.moved
      ensures movesCount == old(movesCount) && isGameOver == old(isGameOver)
    {
      ghost var target := SlideBoard(StartSweep(board, score, bestScore, hasWon), d);
      ghost var merges: seq<int> := [];
      moved := false;
      for line := 0 to BoardSize
        invariant IsBoard(board)
        invariant ProcessLines(Sweep(board, score, bestScore, hasWon, moved, merges), d, line) == target
        invariant movesCount == old(movesCount) && isGameOver == old(isGameOver)
      {
        moved, merges := SlideLine(d, line, moved, merges);
      }
    }

    /** The inner `for` of a pass: visit distances 1, 2 and 3 of line `line`. */
    method SlideLine(d: MoveDirection, line: int, moved: bool, ghost merges: seq<int>)
      returns (moved': bool, ghost merges': seq<int>)
      modifies this
      requires IsBoard(board) && InRange(line)
      ensures IsBoard(board)
      ensures Sweep(board, score, bestScore, hasWon, moved', merges')
        == ProcessLine(Sweep(old(board), old(score), old(bestScore), old(hasWon), moved, merges), d, line, 1)
      ensures movesCount == old(movesCount) && isGameOver == old(isGameOver)
    {
      ghost var target := ProcessLine(Sweep(board, score, bestScore, hasWon, moved, merges), d, line, 1);
      moved', merges' := moved, merges;
      for k := 1 to BoardSize
        invariant IsBoard(board)
        invariant ProcessLine(Sweep(board, score, bestScore, hasWon, moved', merges'), d, line, k) == target
        invariant movesCount == old(movesCount) && isGameOver == old(isGameOver)
      {
        moved', merges' := VisitCell(d, line, k, moved', merges');
      }
    }

    /**
     * One iteration of a pass's inner `for`: the tile at distance `k` slides
     * towards the edge while the next cell is empty, then merges into an
     * equal tile that has not merged in this move. `merges` records the
     * merged values for the proof.
     */
    method VisitCell(d: MoveDirection, line: int, k: int, moved: bool, ghost merges: seq<int>)
      returns (moved': bool, ghost merges': seq<int>)
      modifies this
      requires IsBoard(board) && InRange(line) && 1 <= k < BoardSize
      ensures IsBoard(board)
      ensures Sweep(board, score, bestScore, hasWon, moved', merges')
        == ProcessCell(Sweep(old(board), old(score), old(bestScore), old(hasWon), moved, merges), d, line, k)
      ensures movesCount == old(movesCount) && isGameOver == old(isGameOver)
    {
      ghost var s0 := Sweep(board, score, bestScore, hasWon, moved, merges);
      moved', merges' := moved, merges;
      if At(board, d, line, k).Some? {
        StepUnfold(s0, d, line, k);
        var tile := At(board, d, line, k).value;
        ghost var r := Slide(board, d, line, k, tile.value);
        var current := SlideTile(d, line, k, tile.value);
        assert board == r.0 && current == r.1;
        moved' := moved || current < k;
        if current > 0 && CanMergeInto(At(board, d, line, current - 1), tile.value) {
          var mergedValue := 2 * tile.value;
          board := MergeAt(board, d, line, current, mergedValue);
          score := score + mergedValue;
          bestScore := Max(score, bestScore);
          if mergedValue >= WinValue {
            hasWon := true;
          }
          moved' := true;
          merges' := merges' + [mergedValue];
        }
      } else {
        assert ProcessCell(s0, d, line, k) == s0;
      }
    }

    /** The inner `while` of a pass: the tile of value `v` at distance `k` steps towards the edge while the next cell is empty. */
    method SlideTile(d: MoveDirection, line: int, k: int, v: int) returns (current: int)
      modifies this
      requires IsBoard(board) && InRange(line) && InRange(k)
      ensures board == Slide(old(board), d, line, k, v).0 && current == Slide(old(board), d, line, k, v).1
      ensures score == old(score) && bestScore == old(bestScore) && hasWon == old(hasWon)
      ensures movesCount == old(movesCount) && isGameOver == old(isGameOver)
    {
      current := k;
      while current > 0 && At(board, d, line, current - 1) == None
        invariant IsBoard(board) && 0 <= current <= k
        invariant Slide(board, d, line, current, v) == Slide(old(board), d, line, k, v)
        invariant score == old(score) && bestScore == old(bestScore) && hasWon == old(hasWon)
        invariant movesCount == old(movesCount) && isGameOver == old(isGameOver)
        decreases current
      {
        board := Put(board, d, line, current - 1, Some(SlidTile(v, d, line, current - 1)));
        board := Put(board, d, line, current, None);
        current := current - 1;
      }
    }

    /**
     * `move`: clear the flags, run the pass; when something moved, spawn a
     * tile and count the move; then test for game over. Tile values are
     * conserved by the pass, the score only grows, a move that moved
     * something spawns exactly one 2 or 4 on a cell the pass left empty, and
     * `isGameOver` is set exactly when the resulting board is stuck.
     */
    method Move(d: MoveDirection, pick: nat, roll: real) returns (moved: bool)
      modifies this
      requires Valid()
      ensures Valid()
      ensures var r := MoveSweep(old(board), old(score), old(bestScore), old(hasWon), d);
        && moved == r.moved && board == MovedBoard(r, pick, roll)
        && score == r.score && bestScore == r.bestScore && hasWon == r.hasWon
      ensures old(score) <= score && old(bestScore) <= bestScore
      ensures var r := MoveSweep(old(board), old(score), old(bestScore), old(hasWon), d);
        && TotalValue(board) == TotalValue(old(board)) + (if moved then SpawnValue(roll) else 0)
        && TileCount(board) == TileCount(old(board)) - |r.merges| + (if moved then 1 else 0)
      ensures var r := MoveSweep(old(board), old(score), old(bestScore), old(hasWon), d);
        moved ==>
          && EmptyCells(r.board) != []
          && TileCount(board) == TileCount(r.board) + 1
          && var p := SpawnPosition(r.board, pick);
            r.board[p.row][p.column] == None && board[p.row][p.column] == Some(Tile(SpawnValue(roll), p, true, false))
      ensures movesCount == old(movesCount) + (if moved then 1 else 0)
      ensures isGameOver == (old(isGameOver) || IsStuck(board))
    {
      ghost var r := MoveSweep(board, score, bestScore, hasWon, d);
      assert r == SlideBoard(StartSweep(ResetFlags(board), score, bestScore, hasWon), d);
      MoveFacts(board, score, bestScore, hasWon, d, pick, roll);
      ResetMergeStates();
      moved := SlideTowards(d);
      assert moved == r.moved && board == r.board;
      FinishMove(moved, pick, roll);
    }

    /** The end of `move`: spawn and count the move when something moved, then check for game over. */
    method FinishMove(moved: bool, pick: nat, roll: real)
      modifies this
      requires Valid()
      requires var b := if moved then AddTile(board, pick, roll) else board;
        PositionsMatch(b) && ValuesArePowers(b)
      ensures Valid()
      ensures board == (if moved then AddTile(old(board), pick, roll) else old(board))
      ensures score == old(score) && bestScore == old(bestScore) && hasWon == old(hasWon)
      ensures movesCount == old(movesCount) + (if moved then 1 else 0)
      ensures isGameOver == (old(isGameOver) || IsStuck(board))
    {
      if moved {
        AddRandomTile(pick, roll);
        movesCount := movesCount + 1;
      }
      CheckGameOver();
    }

    /** `getAllTiles`: every tile, in row-major order. */
    method GetAllTiles() returns (tiles: seq<Tile>)
      requires IsBoard(board)
      ensures tiles == AllTiles(board)
      ensures |tiles| == TileCount(board)
    {
      tiles := [];
      for row := 0 to BoardSize
        invariant tiles == TilesUpTo(board, BoardSize * row)
      {
        for column := 0 to BoardSize
          invariant tiles == TilesUpTo(board, BoardSize * row + column)
        {
          TilesStep(board, row, column);
          if board[row][column].Some? {
            tiles := tiles + [board[row][column].value];
          }
        }
        assert BoardSize * row + BoardSize == BoardSize * (row + 1);
      }
      AllTilesCount(board);
    }

    /** `resetGame`: a fresh board with two tiles and zeroed counters; the best score is kept. */
    method ResetGame(picks: seq<nat>, rolls: seq<real>)
      modifies this
      requires Valid() && |picks| == |rolls| == InitialTileCount
      ensures Valid()
      ensures board == AddTiles(EmptyBoard(), picks, rolls)
      ensures score == 0 && bestScore == old(bestScore) && movesCount == 0 && !hasWon && !isGameOver
    {
      board := EmptyBoard();
      score := 0;
      movesCount := 0;
      hasWon := false;
      isGameOver := false;
      EmptyBoardTotals();
      AddInitialTiles(picks, rolls);
    }
  }
}
