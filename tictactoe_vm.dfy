/**
 * The `TicTacToeViewModel` of ViewModels/TicTacToe/TicTacToeViewModel.swift:
 * the screen state around one `TicTacToe` game and the pause menu. The
 * completion callback is modelled by `CompleteGame` returning the value it
 * would be called with; haptics are left out.
 */
module TicTacToeVm {
  import opened Wrappers
  import opened TicTacToeModel

  /** `TicTacToeGameState`: a finished game carries its winner, if any. */
  datatype GameState = Initial | Playing | Paused | Finished(winner: Option<Player>)

  /** The guard of `makeMove`. */
  predicate AcceptsMoves(s: GameState, showingPauseMenu: bool)
  {
    s == Playing && !showingPauseMenu
  }

  /**
   * `togglePauseMenu`: the state is set from the menu flag alone, whatever
   * it was before.
   */
  function ToggleState(s: GameState, showingPauseMenu: bool): (s': GameState)
    ensures s'.Playing? <==> showingPauseMenu
    ensures s'.Paused? <==> !showingPauseMenu
  {
    if showingPauseMenu then Playing else Paused
  }

  /** The value `completeGame` hands to the callback: whether someone won. */
  function Reported(s: GameState): (r: Option<bool>)
    ensures r.Some? <==> s.Finished?
    ensures r == Some(true) <==> s.Finished? && s.winner.Some?
  {
    if s.Finished? then Some(s.winner.Some?) else None
  }

  /**
   * Opening the menu over a finished game leaves it paused, and closing
   * the menu then makes it playing: the finished state is not kept.
   */
  lemma ToggleForgetsFinished(w: Option<Player>)
    ensures ToggleState(Finished(w), false) == Paused
    ensures ToggleState(ToggleState(Finished(w), false), true) == Playing
  {
  }

  class TicTacToeViewModel {
    const game: TicTacToe
    var gameState: GameState
    var showingPauseMenu: bool

    /** The game's invariant, and a finished screen reports the game's own outcome. */
    ghost predicate Valid()
      reads this, game
    {
      && game.Valid()
      && (gameState.Finished? ==> game.isGameOver && gameState.winner == game.winner)
    }

    /** `init`: a new game, then `startGame`. */
    constructor()
      ensures Valid() && fresh(game)
      ensures game.board == NewBoard() && game.currentPlayer == Player1 && !game.isGameOver
      ensures gameState == Playing && !showingPauseMenu
    {
      game := new TicTacToe();
      gameState := Playing;
      showingPauseMenu := false;
    }

    /** `resetGame`: a new game, the menu closed, and play started. */
    method ResetGame()
      modifies this, game
      requires Valid()
      ensures Valid()
      ensures game.board == NewBoard() && game.currentPlayer == Player1 && !game.isGameOver
      ensures gameState == Playing && !showingPauseMenu
    {
      game.ResetGame();
      gameState := Initial;
      showingPauseMenu := false;
      gameState := Playing;
    }

    /** `togglePauseMenu`. */
    method TogglePauseMenu()
      modifies this
      requires Valid()
      ensures Valid()
      ensures gameState == ToggleState(old(gameState), old(showingPauseMenu))
      ensures showingPauseMenu == !old(showingPauseMenu)
    {
      if showingPauseMenu {
        gameState := Playing;
      } else {
        gameState := Paused;
      }
      showingPauseMenu := !showingPauseMenu;
    }

    /** `completeGame`: the success flag passed to the callback, if the game is finished. */
    method CompleteGame() returns (reported: Option<bool>)
      requires Valid()
      ensures reported == Reported(gameState)
      ensures reported == Some(true) ==> game.isGameOver && game.winner.Some?
      ensures reported == Some(false) ==> game.isGameOver && game.winner.None?
    {
      if gameState.Finished? {
        reported := Some(gameState.winner.Some?);
      } else {
        reported := None;
      }
    }

    /** The `cells` property. */
    method Cells() returns (cells: seq<Cell>)
      requires Valid()
      ensures cells == RowsUpTo(game.board, BoardSize)
      ensures |cells| == BoardSize * BoardSize
    {
      cells := game.GetAllCells();
      AllCellsRowMajor(game.board, 0, 0);
    }

    /**
     * `makeMove`: ignored unless playing with the menu hidden; otherwise
     * the game takes the move (a rejected move changes nothing; an accepted
     * one is placed and then wins, draws or passes the turn), and a move
     * that ends the game finishes the screen with the game's winner.
     */
    method MakeMove(p: Position)
      modifies this, game
      requires Valid()
      ensures Valid()
      ensures !AcceptsMoves(old(gameState), old(showingPauseMenu)) ==>
        unchanged(game) && gameState == old(gameState)
      ensures AcceptsMoves(old(gameState), old(showingPauseMenu)) && !IsValidMove(old(game.board), old(game.isGameOver), p) ==>
        && game.board == old(game.board) && game.currentPlayer == old(game.currentPlayer)
        && game.isGameOver == old(game.isGameOver) && game.winner == old(game.winner)
        && game.winningCombination == old(game.winningCombination) && game.moveCount == old(game.moveCount)
        && gameState == old(gameState)
      ensures AcceptsMoves(old(gameState), old(showingPauseMenu)) && IsValidMove(old(game.board), old(game.isGameOver), p) ==>
        && game.moveCount == old(game.moveCount) + 1
        && gameState == (if game.isGameOver then Finished(game.winner) else Playing)
        && var placed := Place(old(game.board), p, old(game.currentPlayer));
          if FirstLine(placed).Some? then
            && game.isGameOver && game.winner == Some(old(game.currentPlayer)) && game.currentPlayer == old(game.currentPlayer)
            && game.winningCombination == Some(Line(FirstLine(placed).value))
            && game.board == MarkAll(placed, Line(FirstLine(placed).value))
          else if game.moveCount == BoardSize * BoardSize then
            game.isGameOver && game.winner.None? && game.board == placed && game.currentPlayer == old(game.currentPlayer)
          else
            !game.isGameOver && game.winner.None? && game.board == placed && game.currentPlayer == Next(old(game.currentPlayer))
      ensures showingPauseMenu == old(showingPauseMenu)
    {
      if !(gameState == Playing && !showingPauseMenu) {
        return;
      }
      var moved := game.MakeMove(p);
      if moved {
        if game.isGameOver {
          gameState := Finished(game.winner);
        }
      }
    }
  }
}
