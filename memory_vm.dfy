/**
 * The `MemoryGameViewModel` of ViewModels/Memory/MemoryGameViewModel.swift:
 * the countdown, the flip state machine, the deferred match and no-match
 * resolutions, the game timer, and the pause menu.
 *
 * Timers are flags with explicit tick methods (`CountdownTick` for the
 * one-second countdown timer, `GameTick` for the tenth-of-a-second game
 * timer). The closures `handleMatch` and `handleNoMatch` schedule with
 * `asyncAfter` are modelled by the field `pendingResolution`, which
 * `flipCard` sets and `ResolvePending` runs and clears; at most one is
 * ever pending, since no card can be flipped while a pair is processed.
 * The random shuffle and the card UUIDs are the parameters `draws` and
 * `ids` of the methods that deal a new deck.
 */
module MemoryVm {
  import opened Wrappers
  import opened MemoryModel

  /** Which of the two deferred closures a second flip schedules. */
  datatype Resolution = MatchFound | NoMatch

  /** `firstIndex(where: position == p)`, searching from index `k` on. */
  function FindFrom(cards: seq<MemoryCard>, p: Position, k: nat): (r: Option<nat>)
    requires k <= |cards|
    ensures r.Some? ==> k <= r.value < |cards| && cards[r.value].position == p
    ensures r.Some? ==> forall j :: k <= j < r.value ==> cards[j].position != p
    ensures r.None? ==> forall j :: k <= j < |cards| ==> cards[j].position != p
    decreases |cards| - k
  {
    if k == |cards| then None
    else if cards[k].position == p then Some(k)
    else FindFrom(cards, p, k + 1)
  }

  /** The index of the first card at `p`, if any. */
  function FindCard(cards: seq<MemoryCard>, p: Position): (r: Option<nat>)
    ensures r.Some? ==> r.value < |cards| && cards[r.value].position == p
    ensures r.Some? ==> forall j :: 0 <= j < r.value ==> cards[j].position != p
    ensures r.None? ==> forall j :: 0 <= j < |cards| ==> cards[j].position != p
  {
    FindFrom(cards, p, 0)
  }

  /** No two cards share a cell. */
  ghost predicate DistinctPositions(cards: seq<MemoryCard>)
  {
    forall i, j :: 0 <= i < j < |cards| ==> cards[i].position != cards[j].position
  }

  /** Two decks whose cards sit on the same cells, index by index. */
  ghost predicate SamePositions(a: seq<MemoryCard>, b: seq<MemoryCard>)
  {
    |a| == |b| && forall k :: 0 <= k < |a| ==> a[k].position == b[k].position
  }

  /** On distinct cells the search for a card's own cell finds that card. */
  lemma FindOwnCell(cards: seq<MemoryCard>, i: nat)
    requires DistinctPositions(cards) && i < |cards|
    ensures FindCard(cards, cards[i].position) == Some(i)
  {
    var r := FindCard(cards, cards[i].position);
    assert r.Some? && r.value <= i;
    assert cards[r.value].position == cards[i].position;
  }

  /** The search looks at positions only, so turning cards over does not change what it finds. */
  lemma FindSamePositions(a: seq<MemoryCard>, b: seq<MemoryCard>, p: Position)
    requires SamePositions(a, b)
    ensures FindCard(a, p) == FindCard(b, p)
  {
    var ra, rb := FindCard(a, p), FindCard(b, p);
    if ra.Some? {
      assert b[ra.value].position == p;
    }
    if rb.Some? {
      assert a[rb.value].position == p;
    }
  }

  /**
   * The card `flipCard` would turn over at `p`: the first card there, if
   * it is face down.
   */
  function Flippable(cards: seq<MemoryCard>, p: Position): (r: Option<nat>)
    ensures r.Some? ==> r.value < |cards| && cards[r.value].position == p && cards[r.value].state == FaceDown
    ensures r.None? ==> FindCard(cards, p).None? || cards[FindCard(cards, p).value].state != FaceDown
  {
    match FindCard(cards, p)
    case Some(i) => if cards[i].state == FaceDown then Some(i) else None
    case None => None
  }

  /** One of the two steps of a resolution: the first card at `p`, if any, is given state `s`. */
  function SetStateAt(cards: seq<MemoryCard>, p: Position, s: CardState): (r: seq<MemoryCard>)
    ensures SamePositions(r, cards)
    ensures forall k :: 0 <= k < |cards| && cards[k].position != p ==> r[k] == cards[k]
  {
    match FindCard(cards, p)
    case Some(i) => cards[i := cards[i].(state := s)]
    case None => cards
  }

  /** Both steps of a resolution: the cards at the two selected cells are given state `s`. */
  function SetPairState(cards: seq<MemoryCard>, p: Position, q: Position, s: CardState): (r: seq<MemoryCard>)
    ensures SamePositions(r, cards)
  {
    SetStateAt(SetStateAt(cards, p, s), q, s)
  }

  /**
   * On distinct cells, the card at a cell of the deck is given the new
   * state, the cells stay distinct, and the matched count changes by that
   * card alone.
   */
  lemma SetStateAtHits(cards: seq<MemoryCard>, p: Position, s: CardState, k: nat)
    requires DistinctPositions(cards) && k < |cards| && cards[k].position == p
    ensures SetStateAt(cards, p, s) == cards[k := cards[k].(state := s)]
    ensures DistinctPositions(SetStateAt(cards, p, s))
    ensures MatchedCount(SetStateAt(cards, p, s)) == MatchedCount(cards) - Weight(cards[k]) + Weight(cards[k].(state := s))
  {
    FindOwnCell(cards, k);
    MatchedCountUpdate(cards, k, cards[k].(state := s));
    assert SamePositions(SetStateAt(cards, p, s), cards);
  }

  function Weight(c: MemoryCard): nat
  {
    if c.state == Matched then 1 else 0
  }

  /** The number of matched cards, `cards.filter { $0.state == .matched }.count`. */
  function MatchedCount(cards: seq<MemoryCard>): (n: nat)
    ensures n <= |cards|
  {
    if |cards| == 0 then 0 else MatchedCount(cards[..|cards| - 1]) + Weight(cards[|cards| - 1])
  }

  /** `allCardsMatched`. */
  predicate AllMatched(cards: seq<MemoryCard>)
  {
    forall k :: 0 <= k < |cards| ==> cards[k].state == Matched
  }

  /** Replacing one card changes the matched count by that card's difference alone. */
  lemma {:induction false} MatchedCountUpdate(cards: seq<MemoryCard>, i: nat, c: MemoryCard)
    requires i < |cards|
    ensures MatchedCount(cards[i := c]) == MatchedCount(cards) - Weight(cards[i]) + Weight(c)
    decreases |cards|
  {
    var n := |cards| - 1;
    var u := cards[i := c];
    if i < n {
      assert u[..n] == cards[..n][i := c];
      MatchedCountUpdate(cards[..n], i, c);
    } else {
      assert u[..n] == cards[..n];
    }
  }

  /** Every card is matched exactly when the matched count is the number of cards. */
  lemma {:induction false} AllMatchedCount(cards: seq<MemoryCard>)
    ensures AllMatched(cards) <==> MatchedCount(cards) == |cards|
    decreases |cards|
  {
    if |cards| > 0 {
      var n := |cards| - 1;
      AllMatchedCount(cards[..n]);
      if AllMatched(cards) {
        assert AllMatched(cards[..n]);
      }
      if MatchedCount(cards) == |cards| {
        forall k | 0 <= k < |cards|
          ensures cards[k].state == Matched
        {
          if k < n {
            assert cards[..n][k] == cards[k];
          }
        }
      }
    }
  }

  /** A deck with no card matched has a matched count of zero. */
  lemma {:induction false} NoneMatchedCount(cards: seq<MemoryCard>)
    requires forall k :: 0 <= k < |cards| ==> cards[k].state == FaceDown
    ensures MatchedCount(cards) == 0
    decreases |cards|
  {
    if |cards| > 0 {
      NoneMatchedCount(cards[..|cards| - 1]);
    }
  }

  /** Whether the card at `p` is one of the selected ones. */
  predicate Selected(p: Position, first: Option<MemoryCard>, second: Option<MemoryCard>)
  {
    (first.Some? && first.value.position == p) || (second.Some? && second.value.position == p)
  }

  /** The face-up cards are exactly those at the selected cells. */
  ghost predicate FaceUpExactly(cards: seq<MemoryCard>, first: Option<MemoryCard>, second: Option<MemoryCard>)
  {
    forall k :: 0 <= k < |cards| ==> (cards[k].state == FaceUp <==> Selected(cards[k].position, first, second))
  }

  /**
   * What the flip machine keeps: a full deck on distinct cells; the face-up
   * cards are the selected ones, which lie on the deck; a second card is
   * selected only after a first, on another cell, with a resolution
   * pending; a pending resolution holds the pair-processing flag, and while
   * its pair is still selected it is a match exactly when their
   * identifiers agree; matched cards come two at a time.
   */
  ghost predicate FlipInv(cards: seq<MemoryCard>, first: Option<MemoryCard>, second: Option<MemoryCard>,
                          pending: Option<Resolution>, processing: bool)
  {
    && |cards| == TotalCards
    && DistinctPositions(cards)
    && FaceUpExactly(cards, first, second)
    && (first.Some? ==> FindCard(cards, first.value.position).Some?)
    && (second.Some? ==> FindCard(cards, second.value.position).Some?)
    && (second.Some? ==> first.Some? && pending.Some? && first.value.position != second.value.position)
    && (pending.Some? ==> processing)
    && (pending.Some? && first.Some? ==> second.Some?)
    && (pending.Some? && second.Some? ==>
          (pending.value == MatchFound <==> first.value.imageIdentifier == second.value.imageIdentifier))
    && MatchedCount(cards) % 2 == 0
  }

  /** A freshly dealt deck: every card face down, nothing selected. */
  lemma DealtKeepsInv(cards: seq<MemoryCard>, pending: Option<Resolution>, processing: bool)
    requires |cards| == TotalCards && DistinctPositions(cards)
    requires forall k :: 0 <= k < |cards| ==> cards[k].state == FaceDown
    requires pending.Some? ==> processing
    ensures FlipInv(cards, None, None, pending, processing)
    ensures MatchedCount(cards) == 0
  {
    NoneMatchedCount(cards);
  }

  /** A generated deck lies on distinct cells. */
  lemma GeneratedDistinct(cards: seq<MemoryCard>, ids: seq<nat>)
    requires |cards| == TotalCards && |ids| == TotalCards
    requires forall k :: 0 <= k < TotalCards ==> cards[k] == PlacedCard(cards[k].imageIdentifier, ids[k], k)
    ensures DistinctPositions(cards)
    ensures forall k :: 0 <= k < |cards| ==> cards[k].state == FaceDown
  {
    forall i, j | 0 <= i < j < |cards|
      ensures cards[i].position != cards[j].position
    {
      SlotPositionsDistinct(i, j);
    }
  }

  /** The first flip of a pair keeps the invariant, selecting the flipped card. */
  lemma FlipFirstKeepsInv(cards: seq<MemoryCard>, i: nat, processing: bool)
    requires FlipInv(cards, None, None, None, processing)
    requires i < |cards| && cards[i].state == FaceDown
    ensures var u := cards[i := cards[i].(state := FaceUp)];
      FlipInv(u, Some(u[i]), None, None, processing)
  {
    var u := cards[i := cards[i].(state := FaceUp)];
    MatchedCountUpdate(cards, i, u[i]);
    FindOwnCell(u, i);
    assert SamePositions(u, cards);
  }

  /** The second flip of a pair keeps the invariant, scheduling the resolution its identifiers call for. */
  lemma FlipSecondKeepsInv(cards: seq<MemoryCard>, first: MemoryCard, i: nat)
    requires FlipInv(cards, Some(first), None, None, false)
    requires i < |cards| && cards[i].state == FaceDown
    ensures var u := cards[i := cards[i].(state := FaceUp)];
      var r := if first.imageIdentifier == cards[i].imageIdentifier then MatchFound else NoMatch;
      FlipInv(u, Some(first), Some(u[i]), Some(r), true)
  {
    var u := cards[i := cards[i].(state := FaceUp)];
    MatchedCountUpdate(cards, i, u[i]);
    FindOwnCell(u, i);
    assert SamePositions(u, cards);
    FindSamePositions(u, cards, first.position);
  }

  /** A resolution turns the selected pair to `s` and clears the selection, keeping the invariant. */
  lemma ResolveKeepsInv(cards: seq<MemoryCard>, first: MemoryCard, second: MemoryCard, r: Resolution)
    requires FlipInv(cards, Some(first), Some(second), Some(r), true)
    ensures FlipInv(SetPairState(cards, first.position, second.position, ResolvedState(r)), None, None, None, false)
  {
    ResolveCounts(cards, first, second, r);
  }

  /** The state a resolution gives the selected pair. */
  function ResolvedState(r: Resolution): CardState
  {
    if r == MatchFound then Matched else FaceDown
  }

  /**
   * A resolution leaves the pair's cells face up no more, grows the
   * matched count by two for a match and keeps it otherwise, and changes
   * no card off the pair's cells; in particular no matched card changes.
   */
  lemma ResolveCounts(cards: seq<MemoryCard>, first: MemoryCard, second: MemoryCard, r: Resolution)
    requires FlipInv(cards, Some(first), Some(second), Some(r), true)
    ensures var u := SetPairState(cards, first.position, second.position, ResolvedState(r));
      && DistinctPositions(u)
      && (forall k :: 0 <= k < |u| ==> u[k].state != FaceUp)
      && MatchedCount(u) == MatchedCount(cards) + (if r == MatchFound then 2 else 0)
      && (forall k :: 0 <= k < |cards| && cards[k].state == Matched ==> u[k] == cards[k])
  {
    var s := ResolvedState(r);
    var i := FindCard(cards, first.position).value;
    SetStateAtHits(cards, first.position, s, i);
    var v := SetStateAt(cards, first.position, s);
    var j := FindCard(cards, second.position).value;
    assert v[j] == cards[j];
    SetStateAtHits(v, second.position, s, j);
    var u := SetStateAt(v, second.position, s);
    forall k | 0 <= k < |u|
      ensures u[k].state != FaceUp
    {
      if k != i && k != j {
        assert u[k] == cards[k];
      }
    }
  }

  /** The face-up cards are the selected ones, so no more than two of any three cards are face up. */
  lemma AtMostTwoFaceUp(cards: seq<MemoryCard>, first: Option<MemoryCard>, second: Option<MemoryCard>,
                        pending: Option<Resolution>, processing: bool, i: nat, j: nat, k: nat)
    requires FlipInv(cards, first, second, pending, processing)
    requires i < j < k < |cards|
    ensures !(cards[i].state == FaceUp && cards[j].state == FaceUp && cards[k].state == FaceUp)
  {
  }

  /** The deck `generateCards` deals from `draws` and `ids`. */
  function DealtDeck(draws: seq<nat>, ids: seq<nat>): (deck: seq<MemoryCard>)
    requires |draws| == TotalCards - 1 && |ids| == TotalCards
    ensures |deck| == TotalCards
  {
    ShufflePermutes(PairList(PairsCount), draws, 0);
    var identifiers := Shuffle(PairList(PairsCount), draws);
    seq(TotalCards, k requires 0 <= k < TotalCards => PlacedCard(identifiers[k], ids[k], k))
  }

  /** `generateCards` as the view-model uses it: the dealt deck, face down, on distinct cells. */
  method Deal(draws: seq<nat>, ids: seq<nat>) returns (dealt: seq<MemoryCard>)
    requires |draws| == TotalCards - 1 && |ids| == TotalCards
    ensures dealt == DealtDeck(draws, ids)
    ensures |dealt| == TotalCards && DistinctPositions(dealt)
    ensures forall k :: 0 <= k < |dealt| ==> dealt[k].state == FaceDown
  {
    dealt := GenerateCards(draws, ids);
    GeneratedDistinct(dealt, ids);
    assert forall k :: 0 <= k < TotalCards ==> dealt[k].imageIdentifier == Identifiers(dealt)[k];
  }

  class MemoryGameViewModel {
    var gameState: GameState
    var cards: seq<MemoryCard>
    /** In tenths of a second. */
    var timeRemaining: int
    var firstCardFlipped: Option<MemoryCard>
    var secondCardFlipped: Option<MemoryCard>
    var showingPauseMenu: bool
    var isProcessingPair: bool
    /** Whether the game timer is running. */
    var gameTimerActive: bool
    /** Whether the countdown timer is running. */
    var countdownTimerActive: bool
    /** The `countdown` variable the countdown timer's closure captures. */
    var countdown: int
    /** The resolution closure scheduled by the last second flip and not yet run. */
    var pendingResolution: Option<Resolution>

    /**
     * The flip machine's invariant; the clock stays within the game's
     * duration, a paused game has no running timer, and a running
     * countdown has not yet reached zero.
     */
    ghost predicate Valid()
      reads this
    {
      && FlipInv(cards, firstCardFlipped, secondCardFlipped, pendingResolution, isProcessingPair)
      && 1 <= timeRemaining <= GameDuration
      && (gameState.Paused? ==> !gameTimerActive)
      && (countdownTimerActive ==> countdown >= 1)
    }

    /** The guard of `flipCard` before it looks for the card. */
    predicate AcceptsFlips()
      reads this
    {
      gameState == Playing && !showingPauseMenu && !isProcessingPair &&
      (firstCardFlipped.None? || secondCardFlipped.None?)
    }

    /** `init`: a new deck and the countdown started. */
    constructor(draws: seq<nat>, ids: seq<nat>)
      requires |draws| == TotalCards - 1 && |ids| == TotalCards
      ensures Valid()
      ensures cards == DealtDeck(draws, ids) && MatchedCount(cards) == 0
      ensures firstCardFlipped.None? && secondCardFlipped.None? && !isProcessingPair && pendingResolution.None?
      ensures timeRemaining == GameDuration && !showingPauseMenu && !gameTimerActive
      ensures gameState == Countdown(CountdownDuration) && countdown == CountdownDuration && countdownTimerActive
    {
      var dealt := Deal(draws, ids);
      DealtKeepsInv(dealt, None, false);
      cards := dealt;
      timeRemaining := GameDuration;
      firstCardFlipped := None;
      secondCardFlipped := None;
      showingPauseMenu := false;
      isProcessingPair := false;
      gameTimerActive := false;
      pendingResolution := None;
      countdown := CountdownDuration;
      gameState := Countdown(CountdownDuration);
      countdownTimerActive := true;
    }

    /**
     * `setupNewGame`: a new deck, the full time, nothing selected, and the
     * countdown started. The pair-processing flag, a pending resolution and
     * a running game timer are left as they were.
     */
    method SetupNewGame(draws: seq<nat>, ids: seq<nat>)
      modifies this
      requires |draws| == TotalCards - 1 && |ids| == TotalCards
      requires Valid()
      ensures Valid()
      ensures cards == DealtDeck(draws, ids) && MatchedCount(cards) == 0
      ensures firstCardFlipped.None? && secondCardFlipped.None? && timeRemaining == GameDuration
      ensures gameState == Countdown(CountdownDuration) && countdown == CountdownDuration && countdownTimerActive
      ensures isProcessingPair == old(isProcessingPair) && pendingResolution == old(pendingResolution)
      ensures gameTimerActive == old(gameTimerActive) && showingPauseMenu == old(showingPauseMenu)
    {
      var dealt := Deal(draws, ids);
      DealtKeepsInv(dealt, pendingResolution, isProcessingPair);
      cards := dealt;
      timeRemaining := GameDuration;
      firstCardFlipped := None;
      secondCardFlipped := None;
      gameState := Initial;
      StartCountdown();
    }

    /** `resetGame`: `setupNewGame`, and the menu closed. */
    method ResetGame(draws: seq<nat>, ids: seq<nat>)
      modifies this
      requires |draws| == TotalCards - 1 && |ids| == TotalCards
      requires Valid()
      ensures Valid()
      ensures cards == DealtDeck(draws, ids) && MatchedCount(cards) == 0
      ensures firstCardFlipped.None? && secondCardFlipped.None? && timeRemaining == GameDuration
      ensures gameState == Countdown(CountdownDuration) && countdown == CountdownDuration && countdownTimerActive
      ensures isProcessingPair == old(isProcessingPair) && pendingResolution == old(pendingResolution)
      ensures gameTimerActive == old(gameTimerActive) && !showingPauseMenu
    {
      SetupNewGame(draws, ids);
      showingPauseMenu := false;
    }

    /** `startCountdown`: the countdown starts from its full duration. */
    method StartCountdown()
      modifies this
      requires Valid()
      ensures Valid()
      ensures gameState == Countdown(CountdownDuration) && countdown == CountdownDuration && countdownTimerActive
      ensures cards == old(cards) && timeRemaining == old(timeRemaining) && gameTimerActive == old(gameTimerActive)
      ensures firstCardFlipped == old(firstCardFlipped) && secondCardFlipped == old(secondCardFlipped)
      ensures isProcessingPair == old(isProcessingPair) && pendingResolution == old(pendingResolution)
      ensures showingPauseMenu == old(showingPauseMenu)
    {
      countdown := CountdownDuration;
      gameState := Countdown(countdown);
      countdownTimerActive := true;
    }

    /**
     * One firing of the countdown timer: the count drops by one; while it
     * is positive the screen shows it, and at zero the timer stops and play
     * starts with the game timer.
     */
    method CountdownTick()
      modifies this
      requires Valid()
      ensures Valid()
      ensures !old(countdownTimerActive) ==> gameState == old(gameState) && countdown == old(countdown)
      ensures !old(countdownTimerActive) ==> countdownTimerActive == old(countdownTimerActive) && gameTimerActive == old(gameTimerActive)
      ensures old(countdownTimerActive) ==> countdown == old(countdown) - 1
      ensures old(countdownTimerActive) && countdown > 0 ==>
        gameState == Countdown(countdown) && countdownTimerActive && gameTimerActive == old(gameTimerActive)
      ensures old(countdownTimerActive) && countdown <= 0 ==>
        gameState == Playing && !countdownTimerActive && gameTimerActive
      ensures cards == old(cards) && timeRemaining == old(timeRemaining)
      ensures firstCardFlipped == old(firstCardFlipped) && secondCardFlipped == old(secondCardFlipped)
      ensures isProcessingPair == old(isProcessingPair) && pendingResolution == old(pendingResolution)
      ensures showingPauseMenu == old(showingPauseMenu)
    {
      if !countdownTimerActive {
        return;
      }
      countdown := countdown - 1;
      if countdown > 0 {
        gameState := Countdown(countdown);
      } else {
        countdownTimerActive := false;
        StartGameplay();
      }
    }

    /** `startGameplay`: play starts and the game timer runs. */
    method StartGameplay()
      modifies this
      requires FlipInv(cards, firstCardFlipped, secondCardFlipped, pendingResolution, isProcessingPair)
      requires 1 <= timeRemaining <= GameDuration
      requires countdownTimerActive ==> countdown >= 1
      ensures Valid()
      ensures gameState == Playing && gameTimerActive
      ensures cards == old(cards) && timeRemaining == old(timeRemaining) && countdown == old(countdown)
      ensures countdownTimerActive == old(countdownTimerActive)
      ensures firstCardFlipped == old(firstCardFlipped) && secondCardFlipped == old(secondCardFlipped)
      ensures isProcessingPair == old(isProcessingPair) && pendingResolution == old(pendingResolution)
      ensures showingPauseMenu == old(showingPauseMenu)
    {
      gameState := Playing;
      gameTimerActive := true;
    }

    /**
     * One firing of the game timer: with a tenth of a second or less left
     * the game is lost, and otherwise a tenth of a second passes.
     */
    method GameTick()
      modifies this
      requires Valid()
      ensures Valid()
      ensures !old(gameTimerActive) ==> gameState == old(gameState) && timeRemaining == old(timeRemaining) && !gameTimerActive
      ensures old(gameTimerActive) && old(timeRemaining) <= 1 ==>
        gameState == Finished(false) && !gameTimerActive && timeRemaining == old(timeRemaining)
      ensures old(gameTimerActive) && old(timeRemaining) > 1 ==>
        gameState == old(gameState) && gameTimerActive && timeRemaining == old(timeRemaining) - 1
      ensures cards == old(cards) && countdown == old(countdown) && countdownTimerActive == old(countdownTimerActive)
      ensures firstCardFlipped == old(firstCardFlipped) && secondCardFlipped == old(secondCardFlipped)
      ensures isProcessingPair == old(isProcessingPair) && pendingResolution == old(pendingResolution)
      ensures showingPauseMenu == old(showingPauseMenu)
    {
      if !gameTimerActive {
        return;
      }
      if timeRemaining <= 1 {
        FinishGame(false);
      } else {
        timeRemaining := timeRemaining - 1;
      }
    }

    /** `finishGame`: the game timer stops and the game is over with the given verdict. */
    method FinishGame(success: bool)
      modifies this
      requires Valid()
      ensures Valid()
      ensures gameState == Finished(success) && !gameTimerActive
      ensures cards == old(cards) && timeRemaining == old(timeRemaining) && countdown == old(countdown)
      ensures countdownTimerActive == old(countdownTimerActive)
      ensures firstCardFlipped == old(firstCardFlipped) && secondCardFlipped == old(secondCardFlipped)
      ensures isProcessingPair == old(isProcessingPair) && pendingResolution == old(pendingResolution)
      ensures showingPauseMenu == old(showingPauseMenu)
    {
      gameTimerActive := false;
      gameState := Finished(success);
    }

    /** `pauseGame`: only a playing game pauses, and its timer stops. */
    method PauseGame()
      modifies this
      requires Valid()
      ensures Valid()
      ensures old(gameState) == Playing ==> gameState == Paused && !gameTimerActive
      ensures old(gameState) != Playing ==> gameState == old(gameState) && gameTimerActive == old(gameTimerActive)
      ensures cards == old(cards) && timeRemaining == old(timeRemaining) && countdown == old(countdown)
      ensures countdownTimerActive == old(countdownTimerActive)
      ensures firstCardFlipped == old(firstCardFlipped) && secondCardFlipped == old(secondCardFlipped)
      ensures isProcessingPair == old(isProcessingPair) && pendingResolution == old(pendingResolution)
      ensures showingPauseMenu == old(showingPauseMenu)
    {
      if gameState != Playing {
        return;
      }
      gameState := Paused;
      gameTimerActive := false;
    }

    /** `resumeGame`: only a paused game resumes, and its timer restarts. */
    method ResumeGame()
      modifies this
      requires Valid()
      ensures Valid()
      ensures old(gameState) == Paused ==> gameState == Playing && gameTimerActive
      ensures old(gameState) != Paused ==> gameState == old(gameState) && gameTimerActive == old(gameTimerActive)
      ensures cards == old(cards) && timeRemaining == old(timeRemaining) && countdown == old(countdown)
      ensures countdownTimerActive == old(countdownTimerActive)
      ensures firstCardFlipped == old(firstCardFlipped) && secondCardFlipped == old(secondCardFlipped)
      ensures isProcessingPair == old(isProcessingPair) && pendingResolution == old(pendingResolution)
      ensures showingPauseMenu == old(showingPauseMenu)
    {
      if gameState != Paused {
        return;
      }
      gameState := Playing;
      gameTimerActive := true;
    }

    /** `togglePauseMenu`: resume when the menu is shown, pause otherwise, and flip the menu. */
    method TogglePauseMenu()
      modifies this
      requires Valid()
      ensures Valid()
      ensures showingPauseMenu == !old(showingPauseMenu)
      ensures old(showingPauseMenu) && old(gameState) == Paused ==> gameState == Playing && gameTimerActive
      ensures !old(showingPauseMenu) && old(gameState) == Playing ==> gameState == Paused && !gameTimerActive
      ensures !(old(showingPauseMenu) && old(gameState) == Paused) && !(!old(showingPauseMenu) && old(gameState) == Playing) ==>
        gameState == old(gameState) && gameTimerActive == old(gameTimerActive)
      ensures cards == old(cards) && timeRemaining == old(timeRemaining)
      ensures firstCardFlipped == old(firstCardFlipped) && secondCardFlipped == old(secondCardFlipped)
      ensures isProcessingPair == old(isProcessingPair) && pendingResolution == old(pendingResolution)
    {
      if showingPauseMenu {
        ResumeGame();
      } else {
        PauseGame();
      }
      showingPauseMenu := !showingPauseMenu;
    }

    /** `completeGame`: the callback receives the verdict of a finished game, and is not called otherwise. */
    method CompleteGame() returns (reported: Option<bool>)
      ensures reported.Some? <==> gameState.Finished?
      ensures reported.Some? ==> reported.value == gameState.success
    {
      if gameState.Finished? {
        reported := Some(gameState.success);
      } else {
        reported := None;
      }
    }

    /**
     * `flipCard`: while playing with the menu closed, no pair in process
     * and fewer than two cards selected, the first card at `p`, if it is
     * face down, is turned face up. It becomes the first selected card, or
     * else the second, which starts processing the pair and schedules the
     * match resolution when the two identifiers agree and the no-match
     * resolution otherwise. In every other case nothing changes.
     */
    method FlipCard(p: Position) returns (scheduled: Option<Resolution>)
      modifies this
      requires Valid()
      ensures Valid()
      ensures !(old(AcceptsFlips()) && Flippable(old(cards), p).Some?) ==>
        && scheduled.None? && cards == old(cards)
        && firstCardFlipped == old(firstCardFlipped) && secondCardFlipped == old(secondCardFlipped)
        && isProcessingPair == old(isProcessingPair) && pendingResolution == old(pendingResolution)
      ensures old(AcceptsFlips()) && Flippable(old(cards), p).Some? ==>
        var i := Flippable(old(cards), p).value;
        && cards == old(cards)[i := old(cards)[i].(state := FaceUp)]
        && (old(firstCardFlipped).None? ==>
              && firstCardFlipped == Some(cards[i]) && secondCardFlipped.None?
              && scheduled.None? && !isProcessingPair && pendingResolution.None?)
        && (old(firstCardFlipped).Some? ==>
              && firstCardFlipped == old(firstCardFlipped) && secondCardFlipped == Some(cards[i])
              && isProcessingPair && pendingResolution == scheduled
              && scheduled == Some(if firstCardFlipped.value.imageIdentifier == cards[i].imageIdentifier
                                   then MatchFound else NoMatch))
      ensures gameState == old(gameState) && timeRemaining == old(timeRemaining) && showingPauseMenu == old(showingPauseMenu)
      ensures gameTimerActive == old(gameTimerActive) && countdownTimerActive == old(countdownTimerActive)
      ensures countdown == old(countdown)
    {
      scheduled := None;
      if !AcceptsFlips() {
        return;
      }
      var found := FindCard(cards, p);
      if found.None? {
        return;
      }
      var i := found.value;
      if cards[i].state != FaceDown {
        return;
      }
      var updated := cards[i := cards[i].(state := FaceUp)];
      if firstCardFlipped.None? {
        FlipFirstKeepsInv(cards, i, isProcessingPair);
        firstCardFlipped := Some(updated[i]);
      } else {
        FlipSecondKeepsInv(cards, firstCardFlipped.value, i);
        secondCardFlipped := Some(updated[i]);
        isProcessingPair := true;
        if firstCardFlipped.value.imageIdentifier == cards[i].imageIdentifier {
          scheduled := Some(MatchFound);
        } else {
          scheduled := Some(NoMatch);
        }
        pendingResolution := scheduled;
      }
      cards := updated;
    }

    /** The scheduled closure runs: `handleMatch`'s or `handleNoMatch`'s body, whichever was scheduled. */
    method ResolvePending()
      modifies this
      requires Valid()
      ensures Valid()
      ensures pendingResolution.None?
      ensures old(pendingResolution).None? ==> cards == old(cards) && gameState == old(gameState)
      ensures old(pendingResolution).Some? && old(firstCardFlipped).Some? && old(secondCardFlipped).Some? ==>
        && cards == SetPairState(old(cards), old(firstCardFlipped).value.position, old(secondCardFlipped).value.position,
                                 ResolvedState(old(pendingResolution).value))
        && firstCardFlipped.None? && secondCardFlipped.None? && !isProcessingPair
    {
      match pendingResolution {
        case Some(MatchFound) => ResolveMatch();
        case Some(NoMatch) => ResolveNoMatch();
        case None =>
      }
    }

    /**
     * The body `handleMatch` schedules: unless the selection was cleared
     * meanwhile, the two selected cards become matched, the selection and
     * the processing flag are cleared, and the game is won once every card
     * is matched.
     */
    method ResolveMatch()
      modifies this
      requires Valid() && pendingResolution == Some(MatchFound)
      ensures Valid()
      ensures pendingResolution.None?
      ensures old(firstCardFlipped).Some? && old(secondCardFlipped).Some? ==>
        && cards == SetPairState(old(cards), old(firstCardFlipped).value.position, old(secondCardFlipped).value.position, Matched)
        && firstCardFlipped.None? && secondCardFlipped.None? && !isProcessingPair
        && (AllMatched(cards) ==> gameState == Finished(true) && !gameTimerActive)
        && (!AllMatched(cards) ==> gameState == old(gameState) && gameTimerActive == old(gameTimerActive))
      ensures !(old(firstCardFlipped).Some? && old(secondCardFlipped).Some?) ==>
        && cards == old(cards) && gameState == old(gameState) && isProcessingPair == old(isProcessingPair)
        && firstCardFlipped == old(firstCardFlipped) && secondCardFlipped == old(secondCardFlipped)
      ensures timeRemaining == old(timeRemaining) && showingPauseMenu == old(showingPauseMenu)
    {
      if firstCardFlipped.None? || secondCardFlipped.None? {
        pendingResolution := None;
        return;
      }
      SettlePair();
      if AllMatched(cards) {
        FinishGame(true);
      }
    }

    /**
     * The body `handleNoMatch` schedules: unless the selection was cleared
     * meanwhile, the two selected cards are turned face down again and the
     * selection and the processing flag are cleared; matched cards are not
     * touched.
     */
    method ResolveNoMatch()
      modifies this
      requires Valid() && pendingResolution == Some(NoMatch)
      ensures Valid()
      ensures pendingResolution.None?
      ensures old(firstCardFlipped).Some? && old(secondCardFlipped).Some? ==>
        && cards == SetPairState(old(cards), old(firstCardFlipped).value.position, old(secondCardFlipped).value.position, FaceDown)
        && firstCardFlipped.None? && secondCardFlipped.None? && !isProcessingPair
      ensures !(old(firstCardFlipped).Some? && old(secondCardFlipped).Some?) ==>
        && cards == old(cards) && isProcessingPair == old(isProcessingPair)
        && firstCardFlipped == old(firstCardFlipped) && secondCardFlipped == old(secondCardFlipped)
      ensures gameState == old(gameState) && gameTimerActive == old(gameTimerActive)
      ensures timeRemaining == old(timeRemaining) && showingPauseMenu == old(showingPauseMenu)
    {
      if firstCardFlipped.None? || secondCardFlipped.None? {
        pendingResolution := None;
        return;
      }
      SettlePair();
    }

    /**
     * The part the two resolution bodies share: the selected pair is given
     * the state the pending resolution calls for, and the selection, the
     * processing flag and the pending resolution are cleared.
     */
    method SettlePair()
      modifies this
      requires Valid() && pendingResolution.Some? && firstCardFlipped.Some? && secondCardFlipped.Some?
      ensures Valid()
      ensures cards == SetPairState(old(cards), old(firstCardFlipped).value.position, old(secondCardFlipped).value.position,
                                    ResolvedState(old(pendingResolution).value))
      ensures firstCardFlipped.None? && secondCardFlipped.None? && !isProcessingPair && pendingResolution.None?
      ensures gameState == old(gameState) && gameTimerActive == old(gameTimerActive)
      ensures timeRemaining == old(timeRemaining) && showingPauseMenu == old(showingPauseMenu)
      ensures countdown == old(countdown) && countdownTimerActive == old(countdownTimerActive)
    {
      var first, second := firstCardFlipped.value, secondCardFlipped.value;
      ResolveKeepsInv(cards, first, second, pendingResolution.value);
      cards := SetPairState(cards, first.position, second.position, ResolvedState(pendingResolution.value));
      firstCardFlipped := None;
      secondCardFlipped := None;
      isProcessingPair := false;
      pendingResolution := None;
    }

    /** `pairsMatched`: matched cards come in pairs, and all twelve pairs are matched exactly when every card is. */
    function PairsMatched(): (n: int)
      reads this
      requires Valid()
      ensures 2 * n == MatchedCount(cards)
      ensures 0 <= n <= PairsCount
      ensures n == PairsCount <==> AllMatched(cards)
    {
      AllMatchedCount(cards);
      MatchedCount(cards) / 2
    }
  }
}
