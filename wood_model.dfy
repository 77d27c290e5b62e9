/**
 * Models/Wood.swift: the rules of the wood-chopping timing game. An
 * indicator sweeps back and forth over a scale, and a tap scores when the
 * indicator is inside the target zone around the middle.
 *
 * Positions on the scale are thousandths: the scale runs from 0 to 1000,
 * the indicator moves 15 per update (`indicatorSpeed / 100` = 0.015), and
 * the target zone is 400..600 (a width of 0.2 around 0.5). The `mutating`
 * methods of the value types `IndicatorPosition` and `GameScore` are
 * functions returning the updated value.
 */
module WoodModel {
  const ScaleEnd := 1000
  /** `indicatorSpeed / 100`, in thousandths. */
  const Step := 15
  /** `targetZoneWidth`, in thousandths. */
  const TargetZoneWidth := 200
  const Center := 500
  const RequiredSuccessStreak := 5
  const MaxMisses := 3
  const CountdownDuration := 2

  /** `WoodGameState`. */
  datatype GameState = Initial | Countdown(n: int) | Playing | Finished(success: bool)

  /** `IndicatorPosition`: where the indicator is and whether it moves up the scale. */
  datatype IndicatorPosition = IndicatorPosition(x: int, direction: bool)

  /** The indicator lies on the scale. */
  predicate OnScale(p: IndicatorPosition)
  {
    0 <= p.x <= ScaleEnd
  }

  /**
   * `update`: one step in the current direction; reaching or passing an
   * end of the scale stops the indicator at that end and turns it round.
   */
  function Update(p: IndicatorPosition): (q: IndicatorPosition)
    requires OnScale(p)
    ensures OnScale(q)
    ensures p.direction && p.x + Step < ScaleEnd ==> q == IndicatorPosition(p.x + Step, true)
    ensures p.direction && p.x + Step >= ScaleEnd ==> q == IndicatorPosition(ScaleEnd, false)
    ensures !p.direction && p.x - Step > 0 ==> q == IndicatorPosition(p.x - Step, false)
    ensures !p.direction && p.x - Step <= 0 ==> q == IndicatorPosition(0, true)
  {
    if p.direction then
      var x := p.x + Step;
      if x >= ScaleEnd then IndicatorPosition(ScaleEnd, false) else IndicatorPosition(x, true)
    else
      var x := p.x - Step;
      if x <= 0 then IndicatorPosition(0, true) else IndicatorPosition(x, false)
  }

  /** `n` successive updates. */
  function UpdateTimes(p: IndicatorPosition, n: nat): (q: IndicatorPosition)
    requires OnScale(p)
    ensures OnScale(q)
    decreases n
  {
    if n == 0 then p else UpdateTimes(Update(p), n - 1)
  }

  /** The view-model's starting indicator: at the bottom, moving up. */
  const Start := IndicatorPosition(0, true)

  /** An update moves the indicator by at most one step, and turns it round only at an end of the scale. */
  lemma UpdateIsSmall(p: IndicatorPosition)
    requires OnScale(p)
    ensures -Step <= Update(p).x - p.x <= Step
    ensures Update(p).direction != p.direction ==> Update(p).x == 0 || Update(p).x == ScaleEnd
  {
  }

  /** While it has not reached the top, the indicator climbs one step per update from the start. */
  lemma {:induction false} Climbing(n: nat)
    requires Step * n < ScaleEnd
    ensures UpdateTimes(Start, n) == IndicatorPosition(Step * n, true)
  {
    if n > 0 {
      Climbing(n - 1);
      UpdateTimesLast(Start, n - 1);
    }
  }

  /** `n + 1` updates are `n` updates followed by one more. */
  lemma {:induction false} UpdateTimesLast(p: IndicatorPosition, n: nat)
    requires OnScale(p)
    ensures UpdateTimes(p, n + 1) == Update(UpdateTimes(p, n))
    decreases n
  {
    if n > 0 {
      UpdateTimesLast(Update(p), n - 1);
    }
  }

  /** The 67th update from the start reaches the top of the scale and turns the indicator round. */
  lemma TopAfterSixtySevenUpdates()
    ensures UpdateTimes(Start, 67) == IndicatorPosition(ScaleEnd, false)
  {
    Climbing(66);
    UpdateTimesLast(Start, 66);
  }

  /** `isInTargetZone`: within half the zone width of the centre, both bounds included. */
  predicate InTargetZone(x: int)
  {
    x >= Center - TargetZoneWidth / 2 && x <= Center + TargetZoneWidth / 2
  }

  /** The target zone is the scale positions 400 to 600. */
  lemma TargetZoneBounds(x: int)
    ensures InTargetZone(x) <==> 400 <= x <= 600
  {
  }

  /** `GameScore`. */
  datatype GameScore = GameScore(currentStreak: int, missCount: int, bestStreak: int)

  /** `GameScore()`. */
  const NewScore := GameScore(0, 0, 0)

  /** What every reachable score satisfies: counts are not negative and the best streak bounds the current one. */
  predicate ScoreInv(s: GameScore)
  {
    0 <= s.currentStreak <= s.bestStreak && s.missCount >= 0
  }

  /**
   * `handleHit`: a hit lengthens the streak and raises the best streak to
   * it; a miss ends the streak and counts a miss.
   */
  function HandleHit(s: GameScore, isSuccess: bool): (t: GameScore)
    ensures isSuccess ==> t.currentStreak == s.currentStreak + 1 && t.missCount == s.missCount
    ensures isSuccess ==> t.bestStreak >= s.bestStreak && t.bestStreak >= t.currentStreak
    ensures isSuccess ==> t.bestStreak == s.bestStreak || t.bestStreak == t.currentStreak
    ensures !isSuccess ==> t.currentStreak == 0 && t.missCount == s.missCount + 1 && t.bestStreak == s.bestStreak
    ensures t.missCount >= s.missCount && t.bestStreak >= s.bestStreak
  {
    if isSuccess then
      var streak := s.currentStreak + 1;
      s.(currentStreak := streak, bestStreak := if s.bestStreak >= streak then s.bestStreak else streak)
    else
      s.(currentStreak := 0, missCount := s.missCount + 1)
  }

  /** `handleHit` keeps the score invariant. */
  lemma HandleHitKeepsInv(s: GameScore, isSuccess: bool)
    requires ScoreInv(s)
    ensures ScoreInv(HandleHit(s, isSuccess))
  {
  }

  /** `isGameOver`. */
  predicate IsGameOver(s: GameScore)
  {
    s.currentStreak >= RequiredSuccessStreak || s.missCount >= MaxMisses
  }

  /** `hasWon`. */
  predicate HasWon(s: GameScore)
  {
    s.currentStreak >= RequiredSuccessStreak
  }

  /** A won game is over, and an over game that is not won has run out of misses. */
  lemma WonMeansOver(s: GameScore)
    ensures HasWon(s) ==> IsGameOver(s)
    ensures IsGameOver(s) && !HasWon(s) <==> s.missCount >= MaxMisses && s.currentStreak < RequiredSuccessStreak
  {
  }

  /** The score after a sequence of taps, `true` for each one that hit. */
  function Play(s: GameScore, hits: seq<bool>): GameScore
    decreases |hits|
  {
    if |hits| == 0 then s else Play(HandleHit(s, hits[0]), hits[1..])
  }

  /** The number of taps from the last miss on, all of them hits. */
  function TrailingHits(hits: seq<bool>): nat
  {
    if |hits| == 0 || !hits[|hits| - 1] then 0 else TrailingHits(hits[..|hits| - 1]) + 1
  }

  /** The number of misses among the taps. */
  function Misses(hits: seq<bool>): nat
  {
    if |hits| == 0 then 0 else Misses(hits[..|hits| - 1]) + (if hits[|hits| - 1] then 0 else 1)
  }

  /** Playing from a fresh score leaves the trailing run of hits as the streak and counts every miss. */
  lemma {:induction false} PlayFromNew(hits: seq<bool>)
    ensures Play(NewScore, hits).currentStreak == TrailingHits(hits)
    ensures Play(NewScore, hits).missCount == Misses(hits)
    ensures ScoreInv(Play(NewScore, hits))
    decreases |hits|
  {
    if |hits| > 0 {
      var n := |hits| - 1;
      PlayFromNew(hits[..n]);
      PlayLast(NewScore, hits[..n], hits[n]);
      assert hits[..n] + [hits[n]] == hits;
      HandleHitKeepsInv(Play(NewScore, hits[..n]), hits[n]);
    }
  }

  /** Playing one more tap is handling it after the others. */
  lemma {:induction false} PlayLast(s: GameScore, hits: seq<bool>, h: bool)
    ensures Play(s, hits + [h]) == HandleHit(Play(s, hits), h)
    decreases |hits|
  {
    if |hits| > 0 {
      assert (hits + [h])[1..] == hits[1..] + [h];
      PlayLast(HandleHit(s, hits[0]), hits[1..], h);
    }
  }

  /**
   * Taps none of whose prefixes ended the game are at most five per miss
   * plus the trailing run of hits.
   */
  lemma {:induction false} LengthBound(hits: seq<bool>)
    requires forall k :: 0 <= k <= |hits| ==> !IsGameOver(Play(NewScore, hits[..k]))
    ensures |hits| <= 5 * Misses(hits) + TrailingHits(hits)
    decreases |hits|
  {
    if |hits| > 0 {
      var n := |hits| - 1;
      var front := hits[..n];
      forall k | 0 <= k <= |front|
        ensures !IsGameOver(Play(NewScore, front[..k]))
      {
        assert front[..k] == hits[..k];
      }
      LengthBound(front);
      assert hits[..n] == front;
      PlayFromNew(front);
    }
  }

  /** However the taps fall, the game is over by the fifteenth tap. */
  lemma OverWithinFifteenTaps(hits: seq<bool>)
    requires forall k :: 0 <= k <= |hits| ==> !IsGameOver(Play(NewScore, hits[..k]))
    ensures |hits| <= 14
  {
    LengthBound(hits);
    assert hits[..|hits|] == hits;
    PlayFromNew(hits);
  }
}
