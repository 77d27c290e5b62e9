/**
 * The `Game2048ViewModel` of ViewModels/2048/Game2048ViewModel.swift: the
 * screen state around one `Game2048`, the pause menu, and the best score
 * kept in storage under "game2048_bestScore" (the field `storedBest`).
 * The completion callback is modelled by `CompleteGame` returning the
 * value it would be called with; haptics are left out.
 */
module Game2048Vm {
  import opened Wrappers
  import opened Game2048Model
  import opened Game2048Engine

  /** `Game2048State`. */
  datatype GameState = Initial | Playing | Paused | Finished(success: bool)

  /** The guard of `move`: only a running game with the pause menu hidden takes moves. */
  predicate AcceptsMoves(s: GameState, showingPauseMenu: bool)
  {
    s == Playing && !showingPauseMenu
  }

  /** `pauseGame`: only a running game pauses. */
  function PauseState(s: GameState): (s': GameState)
    ensures s' != s <==> s == Playing
    ensures s'.Finished? <==> s.Finished?
  {
    if s == Playing then Paused else s
  }

  /** `resumeGame`: only a paused game resumes. */
  function ResumeState(s: GameState): (s': GameState)
    ensures s' != s <==> s == Paused
    ensures s'.Finished? <==> s.Finished?
  {
    if s == Paused then Playing else s
  }

  /** `togglePauseMenu`: resume when the menu was up, otherwise pause. */
  function ToggleState(s: GameState, showingPauseMenu: bool): (s': GameState)
    ensures s'.Finished? <==> s.Finished?
    ensures s' == s || s' == Playing || s' == Paused
  {
    if showingPauseMenu then ResumeState(s) else PauseState(s)
  }

  /**
   * The state after a move: game over finishes the game as a loss, and a
   * win, checked afterwards, overrides it.
   */
  function AfterMove(s: GameState, isGameOver: bool, hasWon: bool): (s': GameState)
    ensures hasWon ==> s' == Finished(true)
    ensures !hasWon && isGameOver ==> s' == Finished(false)
    ensures !hasWon && !isGameOver ==> s' == s
  {
    var lost := if isGameOver then Finished(false) else s;
    if hasWon then Finished(true) else lost
  }

  /**
   * Lines 97-100 of `move` as written: when the score is above the best
   * score, both the best score and storage take it. Gives the new best
   * score and the new stored value: the best score becomes the larger of
   * the two, and storage is written, with that value, only when the score
   * beat the best score.
   */
  function SaveAsWritten(score: int, bestScore: int, stored: int): (r: (int, int))
    ensures r.0 == Max(score, bestScore) && r.0 >= score && r.0 >= bestScore
    ensures r.1 != stored ==> score > bestScore
    ensures score > bestScore ==> r.1 == r.0
  {
    if score > bestScore then (score, score) else (bestScore, stored)
  }

  /** Opening and closing the menu from a running game returns to it. */
  lemma ToggleTwiceResumes()
    ensures ToggleState(ToggleState(Playing, false), true) == Playing
  {
  }

  /** A finished game stays finished whatever the menu does. */
  lemma FinishedIsFinal(s: GameState, showingPauseMenu: bool)
    requires s.Finished?
    ensures ToggleState(s, showingPauseMenu) == s && PauseState(s) == s && ResumeState(s) == s
  {
  }

  /**
   * The save branch of `move` is never taken: after any move the engine's
   * best score is at least its score.
   */
  lemma SaveBranchDead(b: Board, score: int, bestScore: int, hasWon: bool, d: MoveDirection)
    requires IsBoard(b) && PositionsMatch(b) && ValuesArePowers(b) && 0 <= score <= bestScore
    ensures var r := MoveSweep(b, score, bestScore, hasWon, d); !(r.score > r.bestScore)
  {
    MoveFacts(b, score, bestScore, hasWon, d, 0, 0.0);
  }

  /**
   * A move that raises the best score from 0 to 8 while the save
   * condition `score > bestScore` is false: storage keeps 0.
   */
  lemma StoredBestGoesStale()
    ensures var r := MoveSweep(TopCells(Fresh(2, 0), Fresh(2, 1), Fresh(2, 2), Fresh(2, 3)), 0, 0, false, Left);
      r.bestScore > 0 && !(r.score > r.bestScore)
  {
    MoveFourTwos();
  }

  class Game2048ViewModel {
    const game: Game2048
    var gameState: GameState
    var showingPauseMenu: bool
    /** The integer stored under "game2048_bestScore". */
    var storedBest: int

    ghost predicate Valid()
      reads this, game
    {
      game.Valid()
    }

    /** `init`: a new game whose best score is read from storage, then `startGame`. */
    constructor(stored: int, picks: seq<nat>, rolls: seq<real>)
      requires 0 <= stored
      requires |picks| == |rolls| == InitialTileCount
      ensures Valid() && fresh(game)
      ensures game.board == AddTiles(EmptyBoard(), picks, rolls)
      ensures game.score == 0 && game.bestScore == stored && game.movesCount == 0
      ensures !game.hasWon && !game.isGameOver
      ensures gameState == Playing && !showingPauseMenu && storedBest == stored
    {
      game := new Game2048(picks, rolls);
      gameState := Playing;
      showingPauseMenu := false;
      storedBest := stored;
      new;
      game.bestScore := stored;
    }

    /** `resetGame`: a fresh board, the best score kept, the menu closed, and play started. */
    method ResetGame(picks: seq<nat>, rolls: seq<real>)
      modifies this, game
      requires Valid() && |picks| == |rolls| == InitialTileCount
      ensures Valid()
      ensures game.board == AddTiles(EmptyBoard(), picks, rolls)
      ensures game.score == 0 && game.bestScore == old(game.bestScore) && game.movesCount == 0
      ensures !game.hasWon && !game.isGameOver
      ensures gameState == Playing && !showingPauseMenu && storedBest == old(storedBest)
    {
      game.ResetGame(picks, rolls);
      gameState := Initial;
      showingPauseMenu := false;
      gameState := Playing;
    }

    /** `pauseGame`. */
    method PauseGame()
      modifies this
      ensures gameState == PauseState(old(gameState))
      ensures showingPauseMenu == old(showingPauseMenu) && storedBest == old(storedBest)
    {
      if gameState == Playing {
        gameState := Paused;
      }
    }

    /** `resumeGame`. */
    method ResumeGame()
      modifies this
      ensures gameState == ResumeState(old(gameState))
      ensures showingPauseMenu == old(showingPauseMenu) && storedBest == old(storedBest)
    {
      if gameState == Paused {
        gameState := Playing;
      }
    }

    /** `togglePauseMenu`: pause or resume, then flip the menu flag. */
    method TogglePauseMenu()
      modifies this
      ensures gameState == ToggleState(old(gameState), old(showingPauseMenu))
      ensures showingPauseMenu == !old(showingPauseMenu) && storedBest == old(storedBest)
    {
      if showingPauseMenu {
        ResumeGame();
      } else {
        PauseGame();
      }
      showingPauseMenu := !showingPauseMenu;
    }

    /** `completeGame`: the outcome passed to the completion callback, if the game is finished. */
    method CompleteGame() returns (reported: Option<bool>)
      ensures reported.Some? <==> gameState.Finished?
      ensures reported.Some? ==> reported.value == gameState.success
    {
      if gameState.Finished? {
        reported := Some(gameState.success);
      } else {
        reported := None;
      }
    }

    /** The `tiles` property. */
    method Tiles() returns (tiles: seq<Tile>)
      requires Valid()
      ensures tiles == AllTiles(game.board)
    {
      tiles := game.GetAllTiles();
    }

    /** The engine's `move` as the view-model sees it: every field of the game follows the pass. */
    method PlayMove(d: MoveDirection, pick: nat, roll: real)
      modifies game
      requires Valid()
      ensures Valid()
      ensures var r := MoveSweep(old(game.board), old(game.score), old(game.bestScore), old(game.hasWon), d);
        && game.board == MovedBoard(r, pick, roll)
        && game.score == r.score && game.bestScore == r.bestScore && game.hasWon == r.hasWon
        && game.movesCount == old(game.movesCount) + (if r.moved then 1 else 0)
        && game.isGameOver == (old(game.isGameOver) || IsStuck(game.board))
    {
      var moved := game.Move(d, pick, roll);
    }

    /** The end of `move`: game over finishes the screen as a loss, and a win, checked second, as a success. */
    method SettleState()
      modifies this
      ensures gameState == AfterMove(old(gameState), game.isGameOver, game.hasWon)
      ensures showingPauseMenu == old(showingPauseMenu) && storedBest == old(storedBest)
    {
      if game.isGameOver {
        gameState := Finished(false);
      }
      if game.hasWon {
        gameState := Finished(true);
      }
    }

    /**
     * `move` as written: the save of lines 97-100 compares the score with
     * a best score the engine has already raised to it, so storage is
     * never written.
     */
    method MoveAsWritten(d: MoveDirection, pick: nat, roll: real)
      modifies this, game
      requires Valid()
      ensures Valid()
      ensures !AcceptsMoves(old(gameState), old(showingPauseMenu)) ==>
        unchanged(game) && gameState == old(gameState)
      ensures AcceptsMoves(old(gameState), old(showingPauseMenu)) ==>
        var r := MoveSweep(old(game.board), old(game.score), old(game.bestScore), old(game.hasWon), d);
        && game.board == MovedBoard(r, pick, roll)
        && game.score == r.score && game.bestScore == r.bestScore && game.hasWon == r.hasWon
        && game.movesCount == old(game.movesCount) + (if r.moved then 1 else 0)
        && game.isGameOver == (old(game.isGameOver) || IsStuck(game.board))
        && gameState == AfterMove(old(gameState), game.isGameOver, game.hasWon)
      ensures storedBest == old(storedBest) && showingPauseMenu == old(showingPauseMenu)
    {
      if !(gameState == Playing && !showingPauseMenu) {
        return;
      }
      PlayMove(d, pick, roll);
      var saved := SaveAsWritten(game.score, game.bestScore, storedBest);
      assert saved == (game.bestScore, storedBest);
      game.bestScore, storedBest := saved.0, saved.1;
      SettleState();
    }

    /**
     * `move` with the save it intends: storage is written whenever the
     * best score rose above what it holds, so it always ends up holding at
     * least the game's best score.
     */
    method Move(d: MoveDirection, pick: nat, roll: real)
      modifies this, game
      requires Valid()
      ensures Valid()
      ensures !AcceptsMoves(old(gameState), old(showingPauseMenu)) ==>
        unchanged(game) && gameState == old(gameState) && storedBest == old(storedBest)
      ensures AcceptsMoves(old(gameState), old(showingPauseMenu)) ==>
        var r := MoveSweep(old(game.board), old(game.score), old(game.bestScore), old(game.hasWon), d);
        && game.board == MovedBoard(r, pick, roll)
        && game.score == r.score && game.bestScore == r.bestScore && game.hasWon == r.hasWon
        && game.movesCount == old(game.movesCount) + (if r.moved then 1 else 0)
        && game.isGameOver == (old(game.isGameOver) || IsStuck(game.board))
        && gameState == AfterMove(old(gameState), game.isGameOver, game.hasWon)
        && storedBest == Max(old(storedBest), game.bestScore)
      ensures showingPauseMenu == old(showingPauseMenu)
      ensures old(storedBest) >= old(game.bestScore) ==> storedBest >= game.bestScore
    {
      if !(gameState == Playing && !showingPauseMenu) {
        return;
      }
      PlayMove(d, pick, roll);
      if game.bestScore > storedBest {
        storedBest := game.bestScore;
      }
      SettleState();
    }
  }
}
