/**
 * ViewModels/Board/BoardGameViewModel.swift: the 5x5 board of the classic
 * game, built from a layout, revealed cell by cell, and the single pending
 * mini-game a revealed resource cell opens. Each revealed web or resource
 * cell costs the manager a move; a won mini-game credits its resource.
 */
module BoardGameVm {
  import opened Wrappers
  import opened BoardModel
  import opened GameManagement

  type Grid = seq<seq<Cell>>

  /** A 5x5 grid. */
  predicate IsGrid(g: Grid)
  {
    |g| == BoardSize && forall r :: 0 <= r < BoardSize ==> |g[r]| == BoardSize
  }

  predicate OnBoard(p: Position)
  {
    0 <= p.row < BoardSize && 0 <= p.column < BoardSize
  }

  function CellAt(g: Grid, p: Position): Cell
    requires IsGrid(g) && OnBoard(p)
  {
    g[p.row][p.column]
  }

  /** The grid with the cell at `p` replaced by `x`. */
  function SetCell(g: Grid, p: Position, x: Cell): (g': Grid)
    requires IsGrid(g) && OnBoard(p)
    ensures IsGrid(g')
  {
    g[p.row := g[p.row][p.column := x]]
  }

  /** Replacing one cell changes that cell and no other. */
  lemma SetCellAt(g: Grid, p: Position, x: Cell, q: Position)
    requires IsGrid(g) && OnBoard(p) && OnBoard(q)
    ensures CellAt(SetCell(g, p, x), q) == if q == p then x else CellAt(g, q)
  {
  }

  /** Where cell (r, c) is read from in a row-by-row layout. */
  function LayoutIndex(r: int, c: int): (i: int)
    requires 0 <= r < BoardSize && 0 <= c < BoardSize
    ensures 0 <= i < TotalCells
    ensures i / BoardSize == r && i % BoardSize == c
  {
    r * BoardSize + c
  }

  /** Row `r` of the board built from `layout`. */
  function LayoutRow(layout: seq<CellType>, r: int): (row: seq<Cell>)
    requires |layout| == TotalCells && 0 <= r < BoardSize
    ensures |row| == BoardSize
  {
    seq(BoardSize, c requires 0 <= c < BoardSize => NewCell(Position(r, c), layout[LayoutIndex(r, c)]))
  }

  /** The board `createBoard` builds from `layout`. */
  function BuildBoard(layout: seq<CellType>): (g: Grid)
    requires |layout| == TotalCells
    ensures IsGrid(g)
  {
    seq(BoardSize, r requires 0 <= r < BoardSize => LayoutRow(layout, r))
  }

  /**
   * Each cell of a built board has its own coordinates, the kind the
   * layout lists at its row-by-row index, and is neither revealed nor
   * completed.
   */
  lemma BuildBoardAt(layout: seq<CellType>, p: Position)
    requires |layout| == TotalCells && OnBoard(p)
    ensures CellAt(BuildBoard(layout), p).position == p
    ensures CellAt(BuildBoard(layout), p).kind == layout[p.row * BoardSize + p.column]
    ensures !CellAt(BuildBoard(layout), p).isRevealed && !CellAt(BuildBoard(layout), p).isCompleted
  {
  }

  /** The built board holds as many cells of each kind as the layout lists. */
  lemma BuildBoardKinds(layout: seq<CellType>, t: CellType, p: Position)
    requires |layout| == TotalCells && OnBoard(p)
    ensures CellAt(BuildBoard(layout), p).kind == t <==> layout[LayoutIndex(p.row, p.column)] == t
  {
  }

  /** The mini-game a revealed resource cell is waiting on. */
  datatype PendingResource = PendingResource(position: Position, kind: CellType)

  /** The manager's moves after revealing a cell of kind `t`: empty cells are free. */
  function MovesAfterReveal(movesLeft: int, isGameOver: bool, t: CellType): (m: int)
    ensures t == Empty || isGameOver ==> m == movesLeft
    ensures t != Empty && !isGameOver ==> m == movesLeft - 1
  {
    if t == Empty || isGameOver then movesLeft else movesLeft - 1
  }

  class BoardGameViewModel {
    var cells: Grid
    var currentLayout: int
    var showingPauseMenu: bool
    var pendingResourceCell: Option<PendingResource>
    const gameManager: GameManager

    /**
     * The manager is consistent, the board is 5x5, the next layout exists,
     * and a pending mini-game sits on a revealed resource cell of its kind.
     */
    ghost predicate Valid()
      reads this, gameManager
    {
      && gameManager.Valid()
      && IsGrid(cells)
      && 0 <= currentLayout < |Layouts|
      && (pendingResourceCell.Some? ==>
            var pending := pendingResourceCell.value;
            && OnBoard(pending.position)
            && IsResource(pending.kind)
            && CellAt(cells, pending.position).isRevealed
            && CellAt(cells, pending.position).kind == pending.kind)
    }

    /** `init`: the board of the first layout, a new game, and a game-over callback installed. */
    constructor(manager: GameManager)
      modifies manager
      ensures Valid() && gameManager == manager
      ensures cells == BuildBoard(Layouts[0]) && currentLayout == 1 % |Layouts|
      ensures gameManager.gameState == DefaultGameState() && !gameManager.isPaused && !gameManager.isGameOver
      ensures gameManager.hasGameOverHandler && gameManager.reportedVerdicts == old(manager.reportedVerdicts)
      ensures !showingPauseMenu && pendingResourceCell.None?
    {
      gameManager := manager;
      cells := [];
      currentLayout := 0;
      showingPauseMenu := false;
      pendingResourceCell := None;
      new;
      SetupNewGame();
      gameManager.SetGameOverHandler();
    }

    /** `setupNewGame`: the next layout's board, a new game, the menu closed. */
    method SetupNewGame()
      modifies this, gameManager
      requires 0 <= currentLayout < |Layouts|
      requires pendingResourceCell.None?
      ensures Valid()
      ensures cells == BuildBoard(Layouts[old(currentLayout)]) && currentLayout == (old(currentLayout) + 1) % |Layouts|
      ensures gameManager.gameState == DefaultGameState() && !gameManager.isPaused && !gameManager.isGameOver
      ensures gameManager.hasGameOverHandler == old(gameManager.hasGameOverHandler)
      ensures gameManager.reportedVerdicts == old(gameManager.reportedVerdicts)
      ensures !showingPauseMenu && pendingResourceCell.None?
    {
      CreateBoard();
      gameManager.StartNewGame();
      showingPauseMenu := false;
    }

    /** `resetGame`: the pending mini-game dropped, the manager reset, and a new game set up. */
    method ResetGame()
      modifies this, gameManager
      requires Valid()
      ensures Valid()
      ensures cells == BuildBoard(Layouts[old(currentLayout)]) && currentLayout == (old(currentLayout) + 1) % |Layouts|
      ensures gameManager.gameState == DefaultGameState() && !gameManager.isPaused && !gameManager.isGameOver
      ensures !gameManager.hasGameOverHandler && gameManager.reportedVerdicts == old(gameManager.reportedVerdicts)
      ensures !showingPauseMenu && pendingResourceCell.None?
    {
      gameManager.ResetGame();
      showingPauseMenu := false;
      pendingResourceCell := None;
      SetupNewGame();
    }

    /** `createBoard`: the board of the current layout, built row by row, then the next layout chosen. */
    method CreateBoard()
      modifies this
      requires 0 <= currentLayout < |Layouts|
      ensures IsGrid(cells) && 0 <= currentLayout < |Layouts|
      ensures cells == BuildBoard(Layouts[old(currentLayout)])
      ensures currentLayout == (old(currentLayout) + 1) % |Layouts|
      ensures showingPauseMenu == old(showingPauseMenu) && pendingResourceCell == old(pendingResourceCell)
    {
      LayoutSize(currentLayout);
      cells := BuildRows(Layouts[currentLayout]);
      currentLayout := (currentLayout + 1) % |Layouts|;
    }

    /** The outer loop of `createBoard`. */
    static method BuildRows(layout: seq<CellType>) returns (newCells: Grid)
      requires |layout| == TotalCells
      ensures newCells == BuildBoard(layout)
    {
      newCells := [];
      var row := 0;
      while row < BoardSize
        invariant 0 <= row <= BoardSize
        invariant |newCells| == row
        invariant forall r :: 0 <= r < row ==> newCells[r] == LayoutRow(layout, r)
      {
        var rowCells := BuildRow(layout, row);
        newCells := newCells + [rowCells];
        row := row + 1;
      }
    }

    /** The inner loop of `createBoard`: the cells of one row, each read from its layout index. */
    static method BuildRow(layout: seq<CellType>, row: int) returns (rowCells: seq<Cell>)
      requires |layout| == TotalCells && 0 <= row < BoardSize
      ensures rowCells == LayoutRow(layout, row)
    {
      rowCells := [];
      var column := 0;
      while column < BoardSize
        invariant 0 <= column <= BoardSize
        invariant |rowCells| == column
        invariant forall c :: 0 <= c < column ==> rowCells[c] == NewCell(Position(row, c), layout[LayoutIndex(row, c)])
      {
        var index := LayoutIndex(row, column);
        var position := Position(row, column);
        rowCells := rowCells + [NewCell(position, layout[index])];
        column := column + 1;
      }
    }

    /**
     * `revealCell`: nothing happens, and nothing is returned, while the
     * game is paused, a mini-game is pending, the position is off the
     * board or the cell is already open. Otherwise exactly that cell is
     * revealed and its kind returned; a web or resource cell costs a move,
     * and a resource cell becomes the pending mini-game. Spending the last
     * move ends the game, and the manager takes and reports the verdict.
     */
    method RevealCell(p: Position) returns (revealed: Option<CellType>)
      modifies this, gameManager
      requires Valid()
      ensures Valid()
      ensures revealed.Some? <==>
        !old(gameManager.isPaused) && old(pendingResourceCell).None? && OnBoard(p) && !CellAt(old(cells), p).isRevealed
      ensures revealed.None? ==>
        && cells == old(cells) && pendingResourceCell == old(pendingResourceCell)
        && gameManager.gameState == old(gameManager.gameState) && gameManager.isGameOver == old(gameManager.isGameOver)
        && gameManager.reportedVerdicts == old(gameManager.reportedVerdicts)
      ensures revealed.Some? ==>
        && revealed.value == CellAt(old(cells), p).kind
        && cells == SetCell(old(cells), p, CellAt(old(cells), p).(isRevealed := true))
        && gameManager.gameState.movesLeft
           == MovesAfterReveal(old(gameManager.gameState.movesLeft), old(gameManager.isGameOver), revealed.value)
        && gameManager.gameState.resources == old(gameManager.gameState.resources)
        && pendingResourceCell == (if IsResource(revealed.value) then Some(PendingResource(p, revealed.value)) else None)
      ensures revealed.Some? && (revealed.value == Empty || old(gameManager.isGameOver)) ==>
        gameManager.gameState == old(gameManager.gameState) && gameManager.isGameOver == old(gameManager.isGameOver)
      ensures revealed.Some? && revealed.value != Empty && !old(gameManager.isGameOver) && gameManager.gameState.movesLeft > 0 ==>
        !gameManager.isGameOver && gameManager.gameState.hasWon == old(gameManager.gameState.hasWon)
      ensures revealed.Some? && revealed.value != Empty && !old(gameManager.isGameOver) && gameManager.gameState.movesLeft == 0 ==>
        && gameManager.isGameOver
        && gameManager.gameState.hasWon == AllRequirementsMet(gameManager.gameState.resources)
        && gameManager.reportedVerdicts
           == old(gameManager.reportedVerdicts) + (if gameManager.hasGameOverHandler then [gameManager.gameState.hasWon] else [])
      ensures !(revealed.Some? && revealed.value != Empty && !old(gameManager.isGameOver) && gameManager.gameState.movesLeft == 0) ==>
        gameManager.reportedVerdicts == old(gameManager.reportedVerdicts)
      ensures gameManager.hasGameOverHandler == old(gameManager.hasGameOverHandler)
      ensures currentLayout == old(currentLayout) && showingPauseMenu == old(showingPauseMenu)
      ensures gameManager.isPaused == old(gameManager.isPaused)
    {
      if gameManager.isPaused || pendingResourceCell.Some? || !OnBoard(p) || cells[p.row][p.column].isRevealed {
        return None;
      }
      ghost var before: Grid := cells;
      cells := SetCell(cells, p, cells[p.row][p.column].(isRevealed := true));
      SetCellAt(before, p, before[p.row][p.column].(isRevealed := true), p);
      var cellType := cells[p.row][p.column].kind;
      match cellType {
        case Empty =>
        case Web =>
          gameManager.DecrementMoves();
        case Wood | Water | Mushroom | Berries =>
          gameManager.DecrementMoves();
          pendingResourceCell := Some(PendingResource(p, cellType));
      }
      return Some(cellType);
    }

    /**
     * `handleResourceGameCompletion`: nothing without a pending mini-game.
     * Otherwise its cell is marked completed whatever the outcome, a won
     * mini-game credits one of the cell's resource, and the pending
     * mini-game is cleared. The verdict and the move budget are untouched.
     */
    method HandleResourceGameCompletion(success: bool)
      modifies this, gameManager
      requires Valid()
      ensures Valid()
      ensures old(pendingResourceCell).None? ==>
        cells == old(cells) && gameManager.gameState == old(gameManager.gameState) && pendingResourceCell.None?
      ensures old(pendingResourceCell).Some? ==>
        var pending := old(pendingResourceCell).value;
        && cells == SetCell(old(cells), pending.position, CellAt(old(cells), pending.position).(isCompleted := true))
        && pendingResourceCell.None?
        && gameManager.gameState.resources ==
           (if success then old(gameManager.gameState.resources)[ResourceFor(pending.kind).value :=
              Amount(old(gameManager.gameState.resources), ResourceFor(pending.kind).value) + 1]
            else old(gameManager.gameState.resources))
      ensures gameManager.gameState.movesLeft == old(gameManager.gameState.movesLeft)
      ensures gameManager.isGameOver == old(gameManager.isGameOver)
      ensures gameManager.gameState.hasWon == old(gameManager.gameState.hasWon)
      ensures gameManager.reportedVerdicts == old(gameManager.reportedVerdicts)
      ensures gameManager.hasGameOverHandler == old(gameManager.hasGameOverHandler)
      ensures currentLayout == old(currentLayout) && showingPauseMenu == old(showingPauseMenu)
    {
      if pendingResourceCell.None? {
        return;
      }
      var resource := pendingResourceCell.value;
      var p := resource.position;
      cells := SetCell(cells, p, cells[p.row][p.column].(isCompleted := true));
      if success {
        match resource.kind {
          case Wood =>
            gameManager.AddResource(WoodResource);
          case Water =>
            gameManager.AddResource(WaterResource);
          case Mushroom | Berries =>
            gameManager.AddResource(FoodResource);
        }
      }
      pendingResourceCell := None;
    }

    /** `togglePauseMenu`: resume when the menu was up, otherwise pause; then flip the menu flag. */
    method TogglePauseMenu()
      modifies this, gameManager
      requires Valid()
      ensures Valid()
      ensures gameManager.isPaused == !old(showingPauseMenu) && showingPauseMenu == !old(showingPauseMenu)
      ensures cells == old(cells) && pendingResourceCell == old(pendingResourceCell)
      ensures gameManager.gameState == old(gameManager.gameState)
    {
      if showingPauseMenu {
        gameManager.ResumeGame();
      } else {
        gameManager.PauseGame();
      }
      showingPauseMenu := !showingPauseMenu;
    }
  }
}
