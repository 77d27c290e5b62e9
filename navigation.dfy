/**
 * Managers/Navigation/NavigationManager.swift: the current screen, the
 * stack of screens to go back to, and the game manager that is reset when
 * a board game is entered from the menu or when the menu is reached.
 *
 * `Screen` here also has the cases `gamesRoot`, `memoryGame`, `game2048`
 * and `ticTacToeGame`, which the navigation root view switches on; they
 * compare like the other plain cases.
 */
module Navigation {
  import opened BoardModel
  import opened GameManagement
  import opened BoardGameVm

  /** `Screen`; the food game carries the board's view-model it reports to. */
  datatype Screen =
    | Menu
    | GamesRoot
    | BoardGame
    | WaterGame
    | WoodGame
    | FoodGame(viewModel: BoardGameViewModel)
    | MemoryGame
    | Game2048
    | TicTacToeGame
    | Achievements
    | Tutorial
    | Settings

  /** `==`: plain cases equal themselves; food-game screens are equal only for the same view-model. */
  predicate ScreenEquals(a: Screen, b: Screen)
  {
    match (a, b)
    case (FoodGame(l), FoodGame(r)) => l == r
    case (FoodGame(_), _) => false
    case (_, FoodGame(_)) => false
    case (Menu, Menu) => true
    case (GamesRoot, GamesRoot) => true
    case (BoardGame, BoardGame) => true
    case (WaterGame, WaterGame) => true
    case (WoodGame, WoodGame) => true
    case (MemoryGame, MemoryGame) => true
    case (Game2048, Game2048) => true
    case (TicTacToeGame, TicTacToeGame) => true
    case (Achievements, Achievements) => true
    case (Tutorial, Tutorial) => true
    case (Settings, Settings) => true
    case _ => false
  }

  /**
   * `==` is equality of screens, with view-models compared by identity;
   * two food-game screens for different view-models differ.
   */
  lemma ScreenEqualsIsIdentity(a: Screen, b: Screen)
    ensures ScreenEquals(a, b) <==> a == b
    ensures a.FoodGame? && b.FoodGame? ==> (ScreenEquals(a, b) <==> a.viewModel == b.viewModel)
  {
  }

  /** What the navigation shows and remembers. */
  datatype NavState = NavState(current: Screen, stack: seq<Screen>)

  /** Whether navigating to `screen` from `s` resets the game: exactly from the menu to the board game. */
  predicate ResetsGame(s: NavState, screen: Screen)
  {
    ScreenEquals(screen, BoardGame) && ScreenEquals(s.current, Menu)
  }

  /** `navigate(to:)`: the current screen is pushed and the target shown. */
  function Navigated(s: NavState, screen: Screen): (t: NavState)
    ensures t.current == screen && |t.stack| == |s.stack| + 1
    ensures t.stack[..|s.stack|] == s.stack && t.stack[|s.stack|] == s.current
  {
    NavState(screen, s.stack + [s.current])
  }

  /** `navigateBack`: the last screen pushed is shown again; with none, nothing changes. */
  function Back(s: NavState): (t: NavState)
    ensures |s.stack| == 0 ==> t == s
    ensures |s.stack| > 0 ==> t.current == s.stack[|s.stack| - 1] && t.stack == s.stack[..|s.stack| - 1]
  {
    if |s.stack| == 0 then s
    else NavState(s.stack[|s.stack| - 1], s.stack[..|s.stack| - 1])
  }

  /** Going back after navigating restores both the screen and the stack. */
  lemma BackUndoesNavigate(s: NavState, screen: Screen)
    ensures Back(Navigated(s, screen)) == s
  {
    assert (s.stack + [s.current])[..|s.stack|] == s.stack;
  }

  /** `n` successive `navigateBack`s. */
  function BackTimes(s: NavState, n: nat): NavState
    decreases n
  {
    if n == 0 then s else BackTimes(Back(s), n - 1)
  }

  /** Going back as many times as the stack is deep returns to the first screen shown, with an empty stack. */
  lemma {:induction false} BackToBottom(s: NavState, n: nat)
    requires n == |s.stack| > 0
    ensures BackTimes(s, n) == NavState(s.stack[0], [])
    decreases n
  {
    if n > 1 {
      BackToBottom(Back(s), n - 1);
      assert Back(s).stack[0] == s.stack[0];
    }
  }

  /** Only the step from the menu to the board game resets the game. */
  lemma ResetsOnlyFromMenuToBoard(s: NavState, screen: Screen)
    ensures ResetsGame(s, screen) <==> screen == BoardGame && s.current == Menu
  {
  }

  class NavigationManager {
    var currentScreen: Screen
    var navigationStack: seq<Screen>
    const gameManager: GameManager

    function State(): NavState
      reads this
    {
      NavState(currentScreen, navigationStack)
    }

    /** `init`: the menu, nothing to go back to, and a new game manager. */
    constructor()
      ensures State() == NavState(Menu, [])
      ensures fresh(gameManager) && gameManager.Valid()
      ensures gameManager.gameState == DefaultGameState() && !gameManager.isGameOver
    {
      currentScreen := Menu;
      navigationStack := [];
      gameManager := new GameManager();
    }

    /**
     * `navigate(to:)`: from the menu to the board game the game manager is
     * reset first; any other step leaves it alone.
     */
    method Navigate(screen: Screen)
      modifies this, gameManager
      ensures State() == Navigated(old(State()), screen)
      ensures ResetsGame(old(State()), screen) ==>
        && gameManager.Valid() && gameManager.gameState == DefaultGameState()
        && !gameManager.isPaused && !gameManager.isGameOver && !gameManager.hasGameOverHandler
        && gameManager.reportedVerdicts == old(gameManager.reportedVerdicts)
      ensures !ResetsGame(old(State()), screen) ==> unchanged(gameManager)
    {
      if ScreenEquals(screen, BoardGame) && ScreenEquals(currentScreen, Menu) {
        gameManager.ResetGame();
      }
      navigationStack := navigationStack + [currentScreen];
      currentScreen := screen;
    }

    /** `navigateBack`: the previous screen, if there is one; the game manager is untouched. */
    method NavigateBack()
      modifies this
      ensures State() == Back(old(State()))
    {
      if |navigationStack| == 0 {
        return;
      }
      var previousScreen := navigationStack[|navigationStack| - 1];
      navigationStack := navigationStack[..|navigationStack| - 1];
      currentScreen := previousScreen;
    }

    /** `navigateToMenu`: the menu, an empty stack, and a reset game manager. */
    method NavigateToMenu()
      modifies this, gameManager
      ensures State() == NavState(Menu, [])
      ensures gameManager.Valid() && gameManager.gameState == DefaultGameState()
      ensures !gameManager.isPaused && !gameManager.isGameOver && !gameManager.hasGameOverHandler
      ensures gameManager.reportedVerdicts == old(gameManager.reportedVerdicts)
    {
      currentScreen := Menu;
      navigationStack := [];
      gameManager.ResetGame();
    }
  }
}
