/**
 * The `WaterGameViewModel` of ViewModels/Water/WaterGameViewModel.swift:
 * a snake steered by swipes collects water drops inside the game area
 * until the time runs out or its head leaves the area.
 *
 * The snake is its head and its number of segments: the positions the
 * body segments follow (computed with square roots) are not modelled. The
 * new drop's random position is a parameter. Timers are flags with
 * explicit tick methods; haptics are left out.
 */
module WaterVm {
  import opened Wrappers
  import opened WaterModel

  function Abs(r: real): real
  {
    if r < 0.0 then -r else r
  }

  /** The least distance, along one axis, a drag must cover to count as a swipe. */
  const MinSwipeDistance: real := 30.0

  /**
   * The direction `handleDrag` sets for a drag from `start` to `end`, the
   * current direction being `current`.
   */
  function Swipe(start: Point, end: Point, current: Direction): Direction
  {
    var xDist := Abs(end.x - start.x);
    var yDist := Abs(end.y - start.y);
    if !(xDist > MinSwipeDistance || yDist > MinSwipeDistance) then current
    else if start.y < end.y && yDist > xDist then Down
    else if start.y > end.y && yDist > xDist then Up
    else if start.x > end.x && yDist < xDist then Left
    else if start.x < end.x && yDist < xDist then Right
    else current
  }

  /**
   * A short drag is ignored; otherwise the longer axis decides, and its
   * sign the way along it; a drag as long across as down changes nothing.
   */
  lemma SwipeClassification(start: Point, end: Point, current: Direction)
    ensures Abs(end.x - start.x) <= MinSwipeDistance && Abs(end.y - start.y) <= MinSwipeDistance ==>
      Swipe(start, end, current) == current
    ensures Abs(end.x - start.x) == Abs(end.y - start.y) ==> Swipe(start, end, current) == current
    ensures Abs(end.y - start.y) > MinSwipeDistance && Abs(end.y - start.y) > Abs(end.x - start.x) ==>
      Swipe(start, end, current) == (if end.y > start.y then Down else Up)
    ensures Abs(end.x - start.x) > MinSwipeDistance && Abs(end.x - start.x) > Abs(end.y - start.y) ==>
      Swipe(start, end, current) == (if end.x < start.x then Left else Right)
  {
  }

  /** The same drag made backwards turns the snake the opposite way. */
  lemma SwipeReversed(start: Point, end: Point, current: Direction, other: Direction)
    requires Abs(end.x - start.x) > MinSwipeDistance || Abs(end.y - start.y) > MinSwipeDistance
    requires Abs(end.x - start.x) != Abs(end.y - start.y)
    ensures Swipe(end, start, other) == Opposite(Swipe(start, end, current))
  {
  }

  /** `CGRect`. */
  datatype Rect = Rect(x: real, y: real, width: real, height: real)

  function MinX(r: Rect): real { if r.width >= 0.0 then r.x else r.x + r.width }
  function MaxX(r: Rect): real { if r.width >= 0.0 then r.x + r.width else r.x }
  function MinY(r: Rect): real { if r.height >= 0.0 then r.y else r.y + r.height }
  function MaxY(r: Rect): real { if r.height >= 0.0 then r.y + r.height else r.y }

  /**
   * `contains`: the minimum edges belong to the rectangle and the maximum
   * edges do not; a rectangle of negative size is taken with its corners
   * swapped.
   */
  predicate Contains(r: Rect, p: Point)
  {
    MinX(r) <= p.x < MaxX(r) && MinY(r) <= p.y < MaxY(r)
  }

  /** `CGPoint(x: midX, y: midY)`. */
  function Center(r: Rect): Point
  {
    Point(r.x + r.width / 2.0, r.y + r.height / 2.0)
  }

  /** A rectangle of zero width or height holds no point; any other holds its centre. */
  lemma ContainsCenter(r: Rect, p: Point)
    ensures r.width == 0.0 || r.height == 0.0 ==> !Contains(r, p)
    ensures r.width != 0.0 && r.height != 0.0 ==> Contains(r, Center(r))
  {
  }

  /**
   * The game area `updateLayout` computes: the full width, below the
   * status bar and the top inset, above the bottom inset.
   */
  function GameArea(width: real, height: real, safeTop: real, safeBottom: real): (r: Rect)
    ensures r.x == 0.0 && r.y == StatusBarHeight + safeTop && r.width == width
    ensures r.y + r.height == height - safeBottom
  {
    var statusBarTotalHeight := StatusBarHeight + safeTop;
    Rect(0.0, statusBarTotalHeight, width, height - statusBarTotalHeight - safeBottom)
  }

  /** The head is close enough to the drop to drink it: nearer than `snakeSize`, compared squared. */
  predicate Collects(head: Point, drop: Point)
  {
    (head.x - drop.x) * (head.x - drop.x) + (head.y - drop.y) * (head.y - drop.y) < SnakeSize * SnakeSize
  }

  /** What one firing of the game timer reads and writes. */
  datatype Play = Play(gameState: GameState, head: Point, segmentCount: nat, drop: Point, score: int, timeRemaining: int)

  /** `hasCollectedDrop`: there is a head, and it reaches the drop. */
  predicate DropReached(p: Play)
  {
    p.segmentCount > 0 && Collects(p.head, p.drop)
  }

  /** `hasHitWall`: there is a head, and it is outside the area. */
  predicate WallHit(p: Play, area: Rect)
  {
    p.segmentCount > 0 && !Contains(area, p.head)
  }

  /** Where the head would step next. */
  function Stepped(p: Play, dir: Direction): Point
  {
    Add(p.head, Movement(dir))
  }

  /** `finishGame`: won exactly when enough drops were collected so far. */
  function Finish(p: Play): Play
  {
    p.(gameState := Finished(p.score >= RequiredDrops))
  }

  /**
   * `updateGameState`, as written: time is checked first, then the snake
   * moves, a finish at the wall does not stop the drop check, and the wall
   * is checked once more.
   */
  function Step(p: Play, area: Rect, dir: Direction, newDrop: Point): Play
  {
    if p.gameState != Playing then p
    else if p.timeRemaining <= TimeThreshold then Finish(p)
    else
      var p1 := p.(timeRemaining := p.timeRemaining - 1);
      var p2 :=
        if p1.segmentCount == 0 then p1
        else if !Contains(area, Stepped(p1, dir)) then Finish(p1)
        else p1.(head := Stepped(p1, dir));
      var p3 :=
        if DropReached(p2)
        then p2.(score := p2.score + 1, drop := newDrop, segmentCount := p2.segmentCount + 1)
        else p2;
      if WallHit(p3, area) then Finish(p3) else p3
  }

  /** Outside play nothing happens; with 0.1 s or less left the game ends and nothing moves. */
  lemma StepTime(p: Play, area: Rect, dir: Direction, newDrop: Point)
    ensures p.gameState != Playing ==> Step(p, area, dir, newDrop) == p
    ensures p.gameState == Playing && p.timeRemaining <= TimeThreshold ==>
      Step(p, area, dir, newDrop) == p.(gameState := Finished(p.score >= RequiredDrops))
    ensures p.gameState == Playing && p.timeRemaining > TimeThreshold ==>
      Step(p, area, dir, newDrop).timeRemaining == p.timeRemaining - 1
  {
  }

  /**
   * Once play goes on past the time check: a head that would leave the
   * area stays where it is and ends the game; otherwise it steps by the
   * direction's movement and the segment count does not change before a
   * drop is drunk.
   */
  lemma StepMovesHead(p: Play, area: Rect, dir: Direction, newDrop: Point)
    requires p.gameState == Playing && p.timeRemaining > TimeThreshold && p.segmentCount > 0
    ensures Contains(area, Stepped(p, dir)) ==> Step(p, area, dir, newDrop).head == Stepped(p, dir)
    ensures !Contains(area, Stepped(p, dir)) ==>
      Step(p, area, dir, newDrop).head == p.head && Step(p, area, dir, newDrop).gameState.Finished?
  {
  }

  /**
   * A drop reached by the head after the move is drunk: exactly one more
   * point and one more segment, and the new drop replaces it.
   */
  lemma StepCollects(p: Play, area: Rect, dir: Direction, newDrop: Point)
    requires p.gameState == Playing && p.timeRemaining > TimeThreshold
    ensures var head := Step(p, area, dir, newDrop).head;
      var drunk := p.segmentCount > 0 && Collects(head, p.drop);
      && Step(p, area, dir, newDrop).score == p.score + (if drunk then 1 else 0)
      && Step(p, area, dir, newDrop).segmentCount == p.segmentCount + (if drunk then 1 else 0)
      && Step(p, area, dir, newDrop).drop == (if drunk then newDrop else p.drop)
  {
  }

  /** A run that hits the wall having collected enough drops is won. */
  lemma WallWithEnoughDropsWins(p: Play, area: Rect, dir: Direction, newDrop: Point)
    requires p.gameState == Playing && p.segmentCount > 0 && p.score >= RequiredDrops
    requires !Contains(area, Stepped(p, dir))
    ensures Step(p, area, dir, newDrop).gameState == Finished(true)
  {
  }

  /**
   * The state is not checked again after the move: when the head is
   * stopped by the wall next to a drop, the verdict is fixed before the
   * drop is drunk, and the score rises after the game has finished.
   */
  lemma ScoreRisesAfterWallFinish(p: Play, area: Rect, dir: Direction, newDrop: Point)
    requires p.gameState == Playing && p.timeRemaining > TimeThreshold && p.segmentCount > 0
    requires !Contains(area, Stepped(p, dir)) && Contains(area, p.head) && Collects(p.head, p.drop)
    ensures Step(p, area, dir, newDrop).gameState == Finished(p.score >= RequiredDrops)
    ensures Step(p, area, dir, newDrop).score == p.score + 1
  {
  }

  /**
   * For instance, with nine drops, a head at the bottom edge moving down
   * next to a fresh drop: the game is lost, yet shows ten drops.
   */
  lemma NinthDropAtTheWall()
    ensures var p := Play(Playing, Point(50.0, 99.0), 10, Point(50.0, 90.0), 9, 100);
      var q := Step(p, Rect(0.0, 0.0, 100.0, 100.0), Down, Point(20.0, 20.0));
      q.gameState == Finished(false) && q.score == RequiredDrops
  {
    var p := Play(Playing, Point(50.0, 99.0), 10, Point(50.0, 90.0), 9, 100);
    ScoreRisesAfterWallFinish(p, Rect(0.0, 0.0, 100.0, 100.0), Down, Point(20.0, 20.0));
  }

  /** Before the first layout there is no snake; afterwards it has one segment per drop drunk, plus its head. */
  predicate CountMatchesScore(p: Play)
  {
    p.score >= 0 && p.segmentCount == p.score + (if p.gameState == Initial then 0 else 1)
  }

  /** A firing of the game timer keeps the segment count in step with the score. */
  lemma StepKeepsCount(p: Play, area: Rect, dir: Direction, newDrop: Point)
    requires CountMatchesScore(p)
    ensures CountMatchesScore(Step(p, area, dir, newDrop))
  {
  }

  class WaterGameViewModel {
    var gameState: GameState
    /** The position of `segments[0]`, meaningful when there is a segment. */
    var head: Point
    /** `segments.count`. */
    var segmentCount: nat
    var waterDrop: Point
    var score: int
    /** Sixtieths of a second. */
    var timeRemaining: int
    var direction: Direction
    var gameArea: Rect
    var gameTimerActive: bool
    var countdownTimerActive: bool
    /** The `countdown` variable the countdown timer's closure captures. */
    var countdown: int

    function Snapshot(): Play
      reads this
    {
      Play(gameState, head, segmentCount, waterDrop, score, timeRemaining)
    }

    /**
     * The clock stays within the game's length and above the finishing
     * threshold; segments and score agree; the game timer runs only in
     * play; a running countdown is the one on screen and has not reached
     * zero.
     */
    ghost predicate Valid()
      reads this
    {
      && TimeThreshold <= timeRemaining <= GameDuration
      && CountMatchesScore(Snapshot())
      && (gameTimerActive ==> gameState == Playing)
      && (countdownTimerActive ==> gameState == Countdown(countdown) && countdown >= 1)
    }

    /** `init`: no snake yet, the full time, heading down, waiting for a layout. */
    constructor()
      ensures Valid()
      ensures gameState == Initial && segmentCount == 0 && score == 0 && timeRemaining == GameDuration
      ensures direction == Down && gameArea == Rect(0.0, 0.0, 0.0, 0.0)
      ensures !gameTimerActive && !countdownTimerActive
    {
      gameState := Initial;
      head := Point(0.0, 0.0);
      segmentCount := 0;
      waterDrop := Point(0.0, 0.0);
      score := 0;
      timeRemaining := GameDuration;
      direction := Down;
      gameArea := Rect(0.0, 0.0, 0.0, 0.0);
      gameTimerActive := false;
      countdownTimerActive := false;
      countdown := 0;
    }

    /**
     * `updateLayout`: the game area follows the screen; a game starts, with
     * the snake at the centre of the area, only from the initial state.
     * `drop` is where the random drop falls.
     */
    method UpdateLayout(width: real, height: real, safeTop: real, safeBottom: real, drop: Point)
      modifies this
      requires Valid()
      ensures Valid()
      ensures gameArea == GameArea(width, height, safeTop, safeBottom)
      ensures old(gameState) == Initial ==>
        && gameState == Countdown(CountdownDuration) && countdownTimerActive && countdown == CountdownDuration
        && head == Center(gameArea) && segmentCount == 1 && waterDrop == drop
        && score == 0 && timeRemaining == GameDuration && direction == Down
      ensures old(gameState) != Initial ==>
        Snapshot() == old(Snapshot()) && direction == old(direction)
        && countdownTimerActive == old(countdownTimerActive) && countdown == old(countdown)
      ensures gameTimerActive == old(gameTimerActive)
    {
      gameArea := GameArea(width, height, safeTop, safeBottom);
      if gameState == Initial {
        ResetPositions(drop);
        StartGame(drop);
      }
    }

    /** `handleDrag`: the direction the drag classifies as. */
    method HandleDrag(start: Point, end: Point)
      modifies this
      requires Valid()
      ensures Valid()
      ensures direction == Swipe(start, end, old(direction))
      ensures Snapshot() == old(Snapshot()) && gameArea == old(gameArea)
      ensures gameTimerActive == old(gameTimerActive) && countdownTimerActive == old(countdownTimerActive)
    {
      direction := Swipe(start, end, direction);
    }

    /** `startGame`: a reset, then the countdown. */
    method StartGame(drop: Point)
      modifies this
      requires !gameTimerActive
      ensures Valid()
      ensures gameState == Countdown(CountdownDuration) && countdownTimerActive && countdown == CountdownDuration
      ensures head == Center(gameArea) && segmentCount == 1 && waterDrop == drop
      ensures score == 0 && timeRemaining == GameDuration && direction == Down
      ensures gameArea == old(gameArea) && !gameTimerActive
    {
      ResetGame(drop);
      StartCountdown();
    }

    /** `completeGame`: the callback receives the verdict of a finished game, and is not called otherwise. */
    method CompleteGame() returns (reported: Option<bool>)
      requires Valid()
      ensures reported.Some? <==> gameState.Finished?
      ensures reported.Some? ==> reported.value == gameState.success
    {
      if gameState.Finished? {
        reported := Some(gameState.success);
      } else {
        reported := None;
      }
    }

    /** `cleanup`: both timers stop; the state stays as it is. */
    method Cleanup()
      modifies this
      requires Valid()
      ensures Valid()
      ensures !gameTimerActive && !countdownTimerActive
      ensures Snapshot() == old(Snapshot()) && direction == old(direction) && gameArea == old(gameArea)
    {
      gameTimerActive := false;
      countdownTimerActive := false;
    }

    /** `startCountdown`: the countdown from three is shown and its timer starts. */
    method StartCountdown()
      modifies this
      ensures gameState == Countdown(CountdownDuration) && countdownTimerActive && countdown == CountdownDuration
      ensures head == old(head) && segmentCount == old(segmentCount) && waterDrop == old(waterDrop)
      ensures score == old(score) && timeRemaining == old(timeRemaining) && direction == old(direction)
      ensures gameArea == old(gameArea) && gameTimerActive == old(gameTimerActive)
    {
      countdown := CountdownDuration;
      gameState := Countdown(countdown);
      countdownTimerActive := true;
    }

    /**
     * One firing of the countdown timer: the count drops by one; while it
     * is positive the screen shows it, and at zero the timer stops and play
     * starts.
     */
    method CountdownTick()
      modifies this
      requires Valid()
      ensures Valid()
      ensures !old(countdownTimerActive) ==> gameState == old(gameState) && countdown == old(countdown)
      ensures old(countdownTimerActive) ==> countdown == old(countdown) - 1
      ensures old(countdownTimerActive) && countdown > 0 ==> gameState == Countdown(countdown) && countdownTimerActive
      ensures old(countdownTimerActive) && countdown <= 0 ==>
        gameState == Playing && !countdownTimerActive && gameTimerActive
      ensures head == old(head) && segmentCount == old(segmentCount) && waterDrop == old(waterDrop)
      ensures score == old(score) && timeRemaining == old(timeRemaining) && direction == old(direction)
    {
      if !countdownTimerActive {
        return;
      }
      countdown := countdown - 1;
      if countdown > 0 {
        gameState := Countdown(countdown);
      } else {
        countdownTimerActive := false;
        StartGameplay();
      }
    }

    /** `startGameplay`: play starts with the game timer running. */
    method StartGameplay()
      modifies this
      requires TimeThreshold <= timeRemaining <= GameDuration
      requires score >= 0 && segmentCount == score + 1
      requires !countdownTimerActive
      ensures Valid()
      ensures gameState == Playing && gameTimerActive
      ensures head == old(head) && segmentCount == old(segmentCount) && waterDrop == old(waterDrop)
      ensures score == old(score) && timeRemaining == old(timeRemaining) && direction == old(direction)
      ensures countdown == old(countdown) && !countdownTimerActive
    {
      gameState := Playing;
      gameTimerActive := true;
    }

    /** One firing of the game timer: `updateGameState`. */
    method GameTick(newDrop: Point)
      modifies this
      requires Valid()
      ensures Valid()
      ensures old(gameTimerActive) ==> Snapshot() == Step(old(Snapshot()), gameArea, direction, newDrop)
      ensures !old(gameTimerActive) ==> Snapshot() == old(Snapshot())
      ensures gameArea == old(gameArea) && direction == old(direction)
    {
      if gameTimerActive {
        UpdateGameState(newDrop);
      }
    }

    /**
     * `updateGameState`: one step of play, as `Step` describes it; the
     * game timer stops when the game finishes.
     */
    method UpdateGameState(newDrop: Point)
      modifies this
      requires Valid()
      ensures Valid()
      ensures Snapshot() == Step(old(Snapshot()), gameArea, direction, newDrop)
      ensures gameTimerActive == (old(gameTimerActive) && gameState == Playing)
      ensures gameArea == old(gameArea) && direction == old(direction)
      ensures countdownTimerActive == old(countdownTimerActive) && countdown == old(countdown)
    {
      StepKeepsCount(Snapshot(), gameArea, direction, newDrop);
      if gameState != Playing {
        return;
      }
      if timeRemaining <= TimeThreshold {
        FinishGame();
        return;
      }
      timeRemaining := timeRemaining - 1;
      MoveSnake();
      if DropReached(Snapshot()) {
        CollectDrop(newDrop);
      }
      if WallHit(Snapshot(), gameArea) {
        FinishGame();
      }
    }

    /**
     * `moveSnake`: without a snake nothing moves; a head that would leave
     * the area finishes the game and stays; otherwise it steps.
     */
    method MoveSnake()
      modifies this
      ensures segmentCount == 0 ==> Snapshot() == old(Snapshot()) && gameTimerActive == old(gameTimerActive)
      ensures segmentCount > 0 && !Contains(gameArea, Stepped(old(Snapshot()), direction)) ==>
        Snapshot() == Finish(old(Snapshot())) && !gameTimerActive
      ensures segmentCount > 0 && Contains(gameArea, Stepped(old(Snapshot()), direction)) ==>
        Snapshot() == old(Snapshot()).(head := Stepped(old(Snapshot()), direction))
        && gameTimerActive == old(gameTimerActive)
      ensures segmentCount == old(segmentCount) && gameArea == old(gameArea) && direction == old(direction)
      ensures countdownTimerActive == old(countdownTimerActive) && countdown == old(countdown)
    {
      if segmentCount == 0 {
        return;
      }
      var newHead := Add(head, Movement(direction));
      if !Contains(gameArea, newHead) {
        FinishGame();
        return;
      }
      head := newHead;
    }

    /** `collectDrop`: one more point, a new drop, and one more segment. */
    method CollectDrop(newDrop: Point)
      modifies this
      requires segmentCount > 0
      ensures Snapshot() == old(Snapshot()).(score := old(score) + 1, drop := newDrop, segmentCount := old(segmentCount) + 1)
      ensures gameArea == old(gameArea) && direction == old(direction) && gameTimerActive == old(gameTimerActive)
      ensures countdownTimerActive == old(countdownTimerActive) && countdown == old(countdown)
    {
      score := score + 1;
      GenerateNewDrop(newDrop);
      AddSegment();
    }

    /** `generateNewDrop`: the drop moves to the drawn position. */
    method GenerateNewDrop(newDrop: Point)
      modifies this
      ensures waterDrop == newDrop
      ensures gameState == old(gameState) && head == old(head) && segmentCount == old(segmentCount)
      ensures score == old(score) && timeRemaining == old(timeRemaining)
      ensures gameArea == old(gameArea) && direction == old(direction) && gameTimerActive == old(gameTimerActive)
      ensures countdownTimerActive == old(countdownTimerActive) && countdown == old(countdown)
    {
      waterDrop := newDrop;
    }

    /** `addSegment`: one segment more, if there is a snake at all. */
    method AddSegment()
      modifies this
      ensures segmentCount == (if old(segmentCount) > 0 then old(segmentCount) + 1 else 0)
      ensures gameState == old(gameState) && head == old(head) && waterDrop == old(waterDrop)
      ensures score == old(score) && timeRemaining == old(timeRemaining)
      ensures gameArea == old(gameArea) && direction == old(direction) && gameTimerActive == old(gameTimerActive)
      ensures countdownTimerActive == old(countdownTimerActive) && countdown == old(countdown)
    {
      if segmentCount > 0 {
        segmentCount := segmentCount + 1;
      }
    }

    /** `resetPositions`: a one-segment snake at the centre of the area, and a new drop. */
    method ResetPositions(drop: Point)
      modifies this
      ensures head == Center(gameArea) && segmentCount == 1 && waterDrop == drop
      ensures gameState == old(gameState) && score == old(score) && timeRemaining == old(timeRemaining)
      ensures gameArea == old(gameArea) && direction == old(direction) && gameTimerActive == old(gameTimerActive)
      ensures countdownTimerActive == old(countdownTimerActive) && countdown == old(countdown)
    {
      head := Center(gameArea);
      segmentCount := 1;
      GenerateNewDrop(drop);
    }

    /** `resetGame`: no score, the full time, heading down, the initial state, and new positions. */
    method ResetGame(drop: Point)
      modifies this
      ensures gameState == Initial && score == 0 && timeRemaining == GameDuration && direction == Down
      ensures head == Center(gameArea) && segmentCount == 1 && waterDrop == drop
      ensures gameArea == old(gameArea) && gameTimerActive == old(gameTimerActive)
      ensures countdownTimerActive == old(countdownTimerActive) && countdown == old(countdown)
    {
      score := 0;
      timeRemaining := GameDuration;
      direction := Down;
      gameState := Initial;
      ResetPositions(drop);
    }

    /** `finishGame`: the game timer stops; the game is won exactly when enough drops were collected. */
    method FinishGame()
      modifies this
      ensures Snapshot() == Finish(old(Snapshot())) && !gameTimerActive
      ensures gameArea == old(gameArea) && direction == old(direction)
      ensures countdownTimerActive == old(countdownTimerActive) && countdown == old(countdown)
    {
      gameTimerActive := false;
      gameState := Finished(score >= RequiredDrops);
    }
  }
}
