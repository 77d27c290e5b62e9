/**
 * The `FoodGameViewModel` of ViewModels/Food/FoodGameViewModel.swift: a
 * three-second countdown, then items fall until the time is up; tapping an
 * edible item collects it, tapping any other one costs an item and blocks
 * taps until the warning ends. Timers are flags with explicit tick
 * methods; the random kind and the item's UUID are parameters of the
 * generation tick; screen layout and haptics are left out.
 */
module FoodVm {
  import opened Wrappers
  import opened FoodModel

  /** The length of the opening countdown, in seconds. */
  const CountdownStart := 3

  class FoodGameViewModel {
    /** The constants of the file the engine is built with. */
    const constants: FoodConstants
    var items: seq<FoodItem>
    var gameState: GameState
    /** Tenths of a second. */
    var timeRemaining: int
    var isMissTap: bool
    var collectedFood: int
    var countdownTimerActive: bool
    var gameTimerActive: bool
    var itemGenerationActive: bool
    var missTapTimerActive: bool
    /** The `countdown` variable the countdown timer's closure captures. */
    var countdown: int

    /**
     * The clock and the score stay in range and generation never passes
     * the cap; the game and generation timers run only while playing; a
     * pending warning is shown; a running countdown is the one on screen;
     * a finished game reports whether enough food was collected.
     */
    ghost predicate Valid()
      reads this
    {
      && ValidConstants(constants)
      && 1 <= timeRemaining <= constants.gameDuration
      && collectedFood >= 0
      && |items| <= constants.maxFallingItems
      && (gameTimerActive ==> gameState == Playing)
      && (itemGenerationActive ==> gameState == Playing)
      && (missTapTimerActive ==> isMissTap)
      && (countdownTimerActive ==> gameState == Countdown(countdown) && countdown >= 1)
      && (gameState.Finished? ==> gameState.success == (collectedFood >= constants.requiredFoodCount))
    }

    /** `init`: no items, the full time, and the countdown from three started. */
    constructor(c: FoodConstants)
      requires ValidConstants(c)
      ensures Valid()
      ensures constants == c && items == [] && timeRemaining == c.gameDuration
      ensures collectedFood == 0 && !isMissTap
      ensures gameState == Countdown(CountdownStart) && countdownTimerActive && countdown == CountdownStart
      ensures !gameTimerActive && !itemGenerationActive && !missTapTimerActive
    {
      constants := c;
      items := [];
      timeRemaining := c.gameDuration;
      isMissTap := false;
      collectedFood := 0;
      gameTimerActive := false;
      itemGenerationActive := false;
      missTapTimerActive := false;
      countdown := CountdownStart;
      gameState := Countdown(CountdownStart);
      countdownTimerActive := true;
    }

    /**
     * One firing of the countdown timer: the count drops by one; while it
     * is positive the screen shows it, and at zero the timer stops and the
     * game starts.
     */
    method CountdownTick()
      modifies this
      requires Valid()
      ensures Valid()
      ensures !old(countdownTimerActive) ==> gameState == old(gameState) && countdown == old(countdown)
      ensures old(countdownTimerActive) ==> countdown == old(countdown) - 1
      ensures old(countdownTimerActive) && countdown > 0 ==> gameState == Countdown(countdown) && countdownTimerActive
      ensures old(countdownTimerActive) && countdown <= 0 ==>
        gameState == Playing && !countdownTimerActive && gameTimerActive && itemGenerationActive
      ensures items == old(items) && collectedFood == old(collectedFood) && timeRemaining == old(timeRemaining)
      ensures isMissTap == old(isMissTap) && missTapTimerActive == old(missTapTimerActive)
    {
      if !countdownTimerActive {
        return;
      }
      countdown := countdown - 1;
      if countdown > 0 {
        gameState := Countdown(countdown);
      } else {
        countdownTimerActive := false;
        StartGame();
      }
    }

    /** `startGame`: play starts with the game timer and item generation running. */
    method StartGame()
      modifies this
      requires ValidConstants(constants) && 1 <= timeRemaining <= constants.gameDuration
      requires collectedFood >= 0 && |items| <= constants.maxFallingItems
      requires missTapTimerActive ==> isMissTap
      requires !countdownTimerActive
      ensures Valid()
      ensures gameState == Playing && gameTimerActive && itemGenerationActive
      ensures items == old(items) && collectedFood == old(collectedFood) && timeRemaining == old(timeRemaining)
      ensures isMissTap == old(isMissTap) && missTapTimerActive == old(missTapTimerActive)
      ensures countdown == old(countdown) && !countdownTimerActive
    {
      gameState := Playing;
      gameTimerActive := true;
      itemGenerationActive := true;
    }

    /**
     * One firing of the game timer: with a tenth of a second or less left
     * the game finishes, otherwise a tenth is taken off the clock.
     */
    method GameTick()
      modifies this
      requires Valid()
      ensures Valid()
      ensures !old(gameTimerActive) ==> gameState == old(gameState) && timeRemaining == old(timeRemaining)
      ensures old(gameTimerActive) && old(timeRemaining) <= 1 ==>
        gameState == Finished(collectedFood >= constants.requiredFoodCount) && timeRemaining == old(timeRemaining)
      ensures old(gameTimerActive) && old(timeRemaining) > 1 ==>
        gameState == Playing && timeRemaining == old(timeRemaining) - 1
      ensures items == old(items) && collectedFood == old(collectedFood)
    {
      if !gameTimerActive {
        return;
      }
      if timeRemaining <= 1 {
        FinishGame();
      } else {
        timeRemaining := timeRemaining - 1;
      }
    }

    /** One firing of the item-generation timer: `generateNewItem`. */
    method GenerationTick(draw: nat, id: nat)
      modifies this
      requires Valid()
      ensures Valid()
      ensures old(itemGenerationActive) && old(|items|) < constants.maxFallingItems ==>
        items == old(items) + [NewItem(id, RandomType(draw))]
      ensures !(old(itemGenerationActive) && old(|items|) < constants.maxFallingItems) ==> items == old(items)
      ensures gameState == old(gameState) && collectedFood == old(collectedFood)
    {
      if itemGenerationActive {
        GenerateNewItem(draw, id);
      }
    }

    /**
     * `generateNewItem`: below the cap, one new enabled item of the drawn
     * kind is appended; at the cap nothing happens.
     */
    method GenerateNewItem(draw: nat, id: nat)
      modifies this
      requires Valid()
      ensures Valid()
      ensures old(|items|) < constants.maxFallingItems ==> items == old(items) + [NewItem(id, RandomType(draw))]
      ensures old(|items|) >= constants.maxFallingItems ==> items == old(items)
      ensures gameState == old(gameState) && collectedFood == old(collectedFood)
      ensures timeRemaining == old(timeRemaining) && isMissTap == old(isMissTap)
    {
      if |items| >= constants.maxFallingItems {
        return;
      }
      items := items + [NewItem(id, RandomType(draw))];
    }

    /**
     * `tapItem`: accepted only while playing, with no warning showing, for
     * an item that is enabled. An edible item adds one to the food
     * collected; any other shows the warning and takes one away unless
     * none has been collected. Either way the first item with the tapped
     * item's id is disabled.
     */
    method TapItem(item: FoodItem) returns (accepted: bool)
      modifies this
      requires Valid()
      ensures Valid()
      ensures accepted <==> old(gameState) == Playing && !old(isMissTap) && item.isEnabled
      ensures !accepted ==>
        items == old(items) && collectedFood == old(collectedFood) && isMissTap == old(isMissTap)
        && missTapTimerActive == old(missTapTimerActive)
      ensures accepted ==> items == DisableItem(old(items), item.id)
      ensures accepted && IsEdible(item.itemType) ==> collectedFood == old(collectedFood) + 1 && !isMissTap
      ensures accepted && !IsEdible(item.itemType) ==>
        isMissTap && missTapTimerActive
        && collectedFood == (if old(collectedFood) > 0 then old(collectedFood) - 1 else 0)
      ensures gameState == old(gameState) && timeRemaining == old(timeRemaining)
    {
      accepted := gameState == Playing && !isMissTap && item.isEnabled;
      if !accepted {
        return;
      }
      if IsEdible(item.itemType) {
        collectedFood := collectedFood + 1;
      } else {
        ActivateWarning();
        if collectedFood > 0 {
          collectedFood := collectedFood - 1;
        }
      }
      items := DisableItem(items, item.id);
    }

    /** `activateWarning`: the warning shows and its one-shot timer starts. */
    method ActivateWarning()
      modifies this
      requires Valid()
      ensures Valid()
      ensures isMissTap && missTapTimerActive
      ensures items == old(items) && collectedFood == old(collectedFood) && gameState == old(gameState)
      ensures timeRemaining == old(timeRemaining)
    {
      isMissTap := true;
      missTapTimerActive := true;
    }

    /** The warning's timer fires once: the warning ends and taps are accepted again. */
    method MissTapTimerFires()
      modifies this
      requires Valid()
      ensures Valid()
      ensures old(missTapTimerActive) ==> !isMissTap && !missTapTimerActive
      ensures !old(missTapTimerActive) ==> isMissTap == old(isMissTap) && !missTapTimerActive
      ensures items == old(items) && collectedFood == old(collectedFood) && gameState == old(gameState)
    {
      if missTapTimerActive {
        isMissTap := false;
        missTapTimerActive := false;
      }
    }

    /** `finishGame`: every timer stops; the game is won exactly when enough food was collected. */
    method FinishGame()
      modifies this
      requires Valid()
      ensures Valid()
      ensures gameState == Finished(collectedFood >= constants.requiredFoodCount)
      ensures !gameTimerActive && !itemGenerationActive && !missTapTimerActive && !countdownTimerActive
      ensures items == old(items) && collectedFood == old(collectedFood) && timeRemaining == old(timeRemaining)
      ensures isMissTap == old(isMissTap)
    {
      StopTimers();
      gameState := Finished(collectedFood >= constants.requiredFoodCount);
    }

    /** `stopTimers` (and `cleanup`, which only calls it): every timer is cancelled. */
    method StopTimers()
      modifies this
      requires Valid()
      ensures Valid()
      ensures !gameTimerActive && !itemGenerationActive && !missTapTimerActive && !countdownTimerActive
      ensures gameState == old(gameState) && items == old(items) && collectedFood == old(collectedFood)
      ensures timeRemaining == old(timeRemaining) && isMissTap == old(isMissTap)
    {
      gameTimerActive := false;
      itemGenerationActive := false;
      missTapTimerActive := false;
      countdownTimerActive := false;
    }

    /** `completeGame`: the callback receives the verdict of a finished game, and is not called otherwise. */
    method CompleteGame() returns (reported: Option<bool>)
      requires Valid()
      ensures reported.Some? <==> gameState.Finished?
      ensures reported.Some? ==> reported.value == (collectedFood >= constants.requiredFoodCount)
    {
      if gameState.Finished? {
        reported := Some(gameState.success);
      } else {
        reported := None;
      }
    }
  }
}
