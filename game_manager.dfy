/**
 * Managers/Game/GameManager.swift: the resource economy of one board
 * game. The manager holds the game state, a paused flag and its own
 * game-over flag; the verdict is taken once, when the move budget runs out.
 * The `onGameOver` callback is modelled by whether one is installed and by
 * the list of verdicts it has been handed.
 */
module GameManagement {
  import opened BoardModel

  /**
   * The state the manager keeps: its game-over flag agrees with the game
   * state's, the budget is never negative, the game is over exactly when
   * the budget is spent, and only a finished game can be won.
   */
  ghost predicate Consistent(g: GameState, isGameOver: bool)
  {
    && g.isGameOver == isGameOver
    && g.movesLeft >= 0
    && (isGameOver <==> g.movesLeft == 0)
    && (g.hasWon ==> isGameOver)
  }

  class GameManager {
    var gameState: GameState
    var isPaused: bool
    var isGameOver: bool
    /** Whether an `onGameOver` callback is installed. */
    var hasGameOverHandler: bool
    /** The verdicts handed to `onGameOver`, oldest first. */
    var reportedVerdicts: seq<bool>

    ghost predicate Valid()
      reads this
    {
      Consistent(gameState, isGameOver)
    }

    /** A manager holds the default state until a game starts. */
    constructor()
      ensures Valid()
      ensures gameState == DefaultGameState() && !isPaused && !isGameOver
      ensures !hasGameOverHandler && reportedVerdicts == []
    {
      gameState := DefaultGameState();
      isPaused := false;
      isGameOver := false;
      hasGameOverHandler := false;
      reportedVerdicts := [];
    }

    /** `startNewGame`: the default state, unpaused and not over; the callback stays. */
    method StartNewGame()
      modifies this
      ensures Valid()
      ensures gameState == DefaultGameState() && !isPaused && !isGameOver
      ensures hasGameOverHandler == old(hasGameOverHandler) && reportedVerdicts == old(reportedVerdicts)
    {
      gameState := DefaultGameState();
      isPaused := false;
      isGameOver := false;
    }

    /** `resetGame`: as `startNewGame`, and the callback is dropped. */
    method ResetGame()
      modifies this
      ensures Valid()
      ensures gameState == DefaultGameState() && !isPaused && !isGameOver
      ensures !hasGameOverHandler && reportedVerdicts == old(reportedVerdicts)
    {
      gameState := DefaultGameState();
      isPaused := false;
      isGameOver := false;
      hasGameOverHandler := false;
    }

    /** Installing `onGameOver`, as the board view-model does when it is created. */
    method SetGameOverHandler()
      modifies this
      ensures hasGameOverHandler
      ensures gameState == old(gameState) && isPaused == old(isPaused) && isGameOver == old(isGameOver)
      ensures reportedVerdicts == old(reportedVerdicts)
    {
      hasGameOverHandler := true;
    }

    /** `pauseGame`. */
    method PauseGame()
      modifies this
      ensures isPaused
      ensures gameState == old(gameState) && isGameOver == old(isGameOver)
      ensures hasGameOverHandler == old(hasGameOverHandler) && reportedVerdicts == old(reportedVerdicts)
    {
      isPaused := true;
    }

    /** `resumeGame`. */
    method ResumeGame()
      modifies this
      ensures !isPaused
      ensures gameState == old(gameState) && isGameOver == old(isGameOver)
      ensures hasGameOverHandler == old(hasGameOverHandler) && reportedVerdicts == old(reportedVerdicts)
    {
      isPaused := false;
    }

    /**
     * `addResource`: the count of `r` grows by `amount` and no other count
     * changes. The win check it ends with never decides the game: while
     * moves are left it is guarded off, and once they are spent the game
     * is already over, so a resource credited after the last move does
     * not change the verdict.
     */
    method AddResource(r: ResourceType, amount: int := 1)
      modifies this
      requires Valid()
      ensures Valid()
      ensures gameState.resources == old(gameState.resources)[r := Amount(old(gameState.resources), r) + amount]
      ensures Amount(gameState.resources, r) == Amount(old(gameState.resources), r) + amount
      ensures forall q :: q != r ==> Amount(gameState.resources, q) == Amount(old(gameState.resources), q)
      ensures gameState.movesLeft == old(gameState.movesLeft)
      ensures isGameOver == old(isGameOver) && gameState.hasWon == old(gameState.hasWon)
      ensures isPaused == old(isPaused) && hasGameOverHandler == old(hasGameOverHandler)
      ensures reportedVerdicts == old(reportedVerdicts)
    {
      var resources := gameState.resources;
      gameState := gameState.(resources := resources[r := Amount(resources, r) + amount]);
      CheckWinCondition();
    }

    /**
     * `decrementMoves`: nothing once the game is over; otherwise one move
     * is spent, and spending the last one ends the game with its verdict.
     */
    method DecrementMoves()
      modifies this
      requires Valid()
      ensures Valid()
      ensures old(isGameOver) ==> gameState == old(gameState) && isGameOver && reportedVerdicts == old(reportedVerdicts)
      ensures !old(isGameOver) ==> gameState.movesLeft == old(gameState.movesLeft) - 1
      ensures !old(isGameOver) && gameState.movesLeft > 0 ==> !isGameOver && gameState == old(gameState).(movesLeft := gameState.movesLeft)
      ensures !old(isGameOver) && gameState.movesLeft == 0 ==>
        && isGameOver && gameState.resources == old(gameState.resources)
        && gameState.hasWon == AllRequirementsMet(gameState.resources)
        && reportedVerdicts == old(reportedVerdicts) + (if hasGameOverHandler then [gameState.hasWon] else [])
      ensures !(!old(isGameOver) && gameState.movesLeft == 0) ==> reportedVerdicts == old(reportedVerdicts)
      ensures isPaused == old(isPaused) && hasGameOverHandler == old(hasGameOverHandler)
    {
      if isGameOver {
        return;
      }
      gameState := gameState.(movesLeft := gameState.movesLeft - 1);
      if gameState.movesLeft <= 0 {
        gameState := gameState.(movesLeft := 0);
        CheckWinCondition();
      }
    }

    /**
     * `checkWinCondition`: once the budget is spent and the game is not yet
     * over, it ends the game, wins it exactly when every resource reached
     * its requirement, and reports the verdict to the callback if one is
     * installed. Otherwise nothing changes, so the verdict is taken once.
     */
    method CheckWinCondition()
      modifies this
      requires gameState.movesLeft >= 0 && gameState.isGameOver == isGameOver
      requires gameState.hasWon ==> isGameOver
      requires isGameOver ==> gameState.movesLeft == 0
      ensures gameState.resources == old(gameState.resources) && gameState.movesLeft == old(gameState.movesLeft)
      ensures isPaused == old(isPaused) && hasGameOverHandler == old(hasGameOverHandler)
      ensures old(gameState.movesLeft) <= 0 && !old(isGameOver) ==>
        && isGameOver && gameState.isGameOver
        && gameState.hasWon == AllRequirementsMet(gameState.resources)
        && reportedVerdicts == old(reportedVerdicts) + (if hasGameOverHandler then [gameState.hasWon] else [])
      ensures !(old(gameState.movesLeft) <= 0 && !old(isGameOver)) ==>
        gameState == old(gameState) && isGameOver == old(isGameOver) && reportedVerdicts == old(reportedVerdicts)
    {
      if !(gameState.movesLeft <= 0 && !isGameOver) {
        return;
      }
      var hasWon := AllRequirementsMet(gameState.resources);
      isGameOver := true;
      gameState := gameState.(isGameOver := true, hasWon := hasWon);
      if hasGameOverHandler {
        reportedVerdicts := reportedVerdicts + [hasWon];
      }
    }

    /** `woodCount`, `waterCount` and `foodCount`. */
    method ResourceCount(r: ResourceType) returns (n: int)
      ensures n == Amount(gameState.resources, r)
      ensures r !in gameState.resources ==> n == 0
    {
      n := if r in gameState.resources then gameState.resources[r] else 0;
    }
  }
}
