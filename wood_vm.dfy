/**
 * The `WoodGameViewModel` of ViewModels/Wood/WoodGameViewModel.swift: the
 * countdown, the indicator driven by the game timer, taps scored against
 * the target zone, and the finish. Timers are flags with explicit tick
 * methods; the completion callback is modelled by `CompleteGame` returning
 * the value it would be called with. The cosmetic state (`shakeWood`,
 * `indicatorColor`) and haptics are left out.
 */
module WoodVm {
  import opened Wrappers
  import opened WoodModel

  class WoodGameViewModel {
    var gameState: GameState
    var indicatorPosition: IndicatorPosition
    var score: GameScore
    var lastHitSuccess: Option<bool>
    /** Whether the game timer, which drives the indicator, is running. */
    var gameTimerActive: bool
    /** Whether the countdown timer is running. */
    var countdownTimerActive: bool
    /** The `countdown` variable the countdown timer's closure captures. */
    var countdown: int

    /**
     * The indicator stays on the scale and the score is consistent; play
     * goes on, with the game timer running, exactly while the game is not
     * over; a finished game reports whether it was won; a running
     * countdown is the one on screen, has not reached zero, and precedes
     * any tap.
     */
    ghost predicate Valid()
      reads this
    {
      && OnScale(indicatorPosition)
      && ScoreInv(score)
      && (gameTimerActive <==> gameState == Playing)
      && (gameState == Playing ==> !IsGameOver(score))
      && (gameState.Finished? ==> IsGameOver(score) && gameState.success == HasWon(score))
      && (countdownTimerActive ==> gameState == Countdown(countdown) && countdown >= 1 && !IsGameOver(score))
    }

    /** `init`: a fresh score, the indicator at the bottom moving up, and the countdown started. */
    constructor()
      ensures Valid()
      ensures score == NewScore && indicatorPosition == Start && lastHitSuccess.None?
      ensures gameState == Countdown(CountdownDuration) && countdown == CountdownDuration && countdownTimerActive
      ensures !gameTimerActive
    {
      indicatorPosition := Start;
      score := NewScore;
      lastHitSuccess := None;
      gameTimerActive := false;
      countdown := CountdownDuration;
      gameState := Countdown(CountdownDuration);
      countdownTimerActive := true;
    }

    /**
     * `handleTap`: only while playing. The tap hits exactly when the
     * indicator is in the target zone; the result is recorded and scored,
     * and a score that ends the game finishes it.
     */
    method HandleTap()
      modifies this
      requires Valid()
      ensures Valid()
      ensures old(gameState) != Playing ==>
        gameState == old(gameState) && score == old(score) && lastHitSuccess == old(lastHitSuccess)
      ensures old(gameState) == Playing ==>
        && lastHitSuccess == Some(InTargetZone(indicatorPosition.x))
        && score == HandleHit(old(score), InTargetZone(indicatorPosition.x))
        && gameState == (if IsGameOver(score) then Finished(HasWon(score)) else Playing)
      ensures indicatorPosition == old(indicatorPosition)
      ensures countdown == old(countdown) && countdownTimerActive == old(countdownTimerActive)
    {
      if gameState != Playing {
        return;
      }
      var isSuccess := InTargetZone(indicatorPosition.x);
      lastHitSuccess := Some(isSuccess);
      score := HandleHit(score, isSuccess);
      HandleHitKeepsInv(old(score), isSuccess);
      if IsGameOver(score) {
        FinishGame();
      }
    }

    /** `completeGame`: the callback receives the verdict of a finished game, and is not called otherwise. */
    method CompleteGame() returns (reported: Option<bool>)
      requires Valid()
      ensures reported.Some? <==> gameState.Finished?
      ensures reported.Some? ==> reported.value == gameState.success && reported.value == HasWon(score)
    {
      if gameState.Finished? {
        reported := Some(gameState.success);
      } else {
        reported := None;
      }
    }

    /**
     * One firing of the countdown timer: the count drops by one; while it
     * is positive the screen shows it, and at zero the timer stops and play
     * starts.
     */
    method CountdownTick()
      modifies this
      requires Valid()
      ensures Valid()
      ensures !old(countdownTimerActive) ==> gameState == old(gameState) && countdown == old(countdown)
      ensures old(countdownTimerActive) ==> countdown == old(countdown) - 1
      ensures old(countdownTimerActive) && countdown > 0 ==> gameState == Countdown(countdown) && countdownTimerActive
      ensures old(countdownTimerActive) && countdown <= 0 ==> gameState == Playing && !countdownTimerActive
      ensures score == old(score) && indicatorPosition == old(indicatorPosition)
      ensures lastHitSuccess == old(lastHitSuccess)
    {
      if !countdownTimerActive {
        return;
      }
      countdown := countdown - 1;
      if countdown > 0 {
        gameState := Countdown(countdown);
      } else {
        countdownTimerActive := false;
        StartGameplay();
      }
    }

    /** `startGameplay`: play starts with the game timer running. */
    method StartGameplay()
      modifies this
      requires OnScale(indicatorPosition) && ScoreInv(score) && !IsGameOver(score) && !countdownTimerActive
      ensures Valid()
      ensures gameState == Playing && gameTimerActive
      ensures score == old(score) && indicatorPosition == old(indicatorPosition)
      ensures lastHitSuccess == old(lastHitSuccess)
      ensures countdown == old(countdown) && countdownTimerActive == old(countdownTimerActive)
    {
      gameState := Playing;
      gameTimerActive := true;
    }

    /** One firing of the game timer: `updateIndicatorPosition`. */
    method GameTick()
      modifies this
      requires Valid()
      ensures Valid()
      ensures old(gameTimerActive) ==> indicatorPosition == Update(old(indicatorPosition))
      ensures !old(gameTimerActive) ==> indicatorPosition == old(indicatorPosition)
      ensures gameState == old(gameState) && score == old(score) && lastHitSuccess == old(lastHitSuccess)
      ensures gameTimerActive == old(gameTimerActive)
      ensures countdown == old(countdown) && countdownTimerActive == old(countdownTimerActive)
    {
      if gameTimerActive {
        indicatorPosition := Update(indicatorPosition);
      }
    }

    /** `finishGame`: the game timer stops and the game is over, won exactly when the streak was reached. */
    method FinishGame()
      modifies this
      requires OnScale(indicatorPosition) && ScoreInv(score) && IsGameOver(score)
      requires !countdownTimerActive
      ensures Valid()
      ensures gameState == Finished(HasWon(score)) && !gameTimerActive
      ensures score == old(score) && indicatorPosition == old(indicatorPosition)
      ensures lastHitSuccess == old(lastHitSuccess)
      ensures countdown == old(countdown) && countdownTimerActive == old(countdownTimerActive)
    {
      gameTimerActive := false;
      gameState := Finished(HasWon(score));
    }
  }
}
