/**
 * ViewModels/Onboarding/OnboardingViewModel.swift: four onboarding pages
 * then the completed state, and the persisted "onboarding completed" flag,
 * which is a field here standing for the value kept in user defaults.
 */
module OnboardingVm {
  /** `OnboardingState`, whose raw values are 0 to 4. */
  datatype OnboardingState = First | Second | Third | Fourth | Completed

  /** `allCases`, in declaration order. */
  const AllCases: seq<OnboardingState> := [First, Second, Third, Fourth, Completed]

  /** `allCases.firstIndex(of:)`, which always finds the state. */
  function Index(s: OnboardingState): (i: nat)
    ensures i < |AllCases| && AllCases[i] == s
  {
    match s
    case First => 0
    case Second => 1
    case Third => 2
    case Fourth => 3
    case Completed => 4
  }

  /** `isLast`. */
  predicate IsLast(s: OnboardingState)
  {
    s == Fourth
  }

  /** `isCompleted`. */
  predicate IsCompleted(s: OnboardingState)
  {
    s == Completed
  }

  /** `next()`: the following state, or `completed` past the end. */
  function Next(s: OnboardingState): OnboardingState
  {
    var nextIndex := Index(s) + 1;
    if nextIndex < |AllCases| then AllCases[nextIndex] else Completed
  }

  /** `n` successive `next()`s. */
  function NextTimes(s: OnboardingState, n: nat): OnboardingState
    decreases n
  {
    if n == 0 then s else NextTimes(Next(s), n - 1)
  }

  /**
   * `next()` walks the pages in order and stays on `completed`; from any
   * state, four steps reach `completed`.
   */
  lemma {:induction false} NextWalk(s: OnboardingState, n: nat)
    requires n >= 4
    ensures Next(First) == Second && Next(Second) == Third && Next(Third) == Fourth
    ensures Next(Fourth) == Completed && Next(Completed) == Completed
    ensures NextTimes(s, n) == Completed
    decreases n
  {
    if n > 4 {
      NextWalk(Next(s), n - 1);
    }
  }

  /** The last page is the one just before `completed`, and `completed` is the end. */
  lemma LastAndCompleted(s: OnboardingState)
    ensures IsLast(s) <==> s != Completed && Next(s) == Completed
    ensures IsCompleted(s) <==> Index(s) == |AllCases| - 1
  {
  }

  class OnboardingViewModel {
    var currentState: OnboardingState
    /** `hasCompletedOnboarding`, as persisted. */
    var hasCompletedOnboarding: bool

    /** `init`: the first page; the flag is whatever was persisted. */
    constructor(persisted: bool)
      ensures currentState == First && hasCompletedOnboarding == persisted
    {
      currentState := First;
      hasCompletedOnboarding := persisted;
    }

    /** `buttonText`. */
    function ButtonText(): (text: string)
      reads this
      ensures text == "Start" <==> IsLast(currentState)
      ensures text == "Next" <==> !IsLast(currentState)
    {
      if IsLast(currentState) then "Start" else "Next"
    }

    /**
     * `moveToNextStep`: on the last page onboarding completes; anywhere
     * else the state moves on. Either way the state becomes its `next()`.
     */
    method MoveToNextStep()
      modifies this
      ensures currentState == Next(old(currentState))
      ensures IsLast(old(currentState)) ==> IsCompleted(currentState) && hasCompletedOnboarding
      ensures !IsLast(old(currentState)) ==> hasCompletedOnboarding == old(hasCompletedOnboarding)
    {
      if IsLast(currentState) {
        CompleteOnboarding();
      } else {
        currentState := Next(currentState);
      }
    }

    /** `completeOnboarding`: the completed state, persisted. */
    method CompleteOnboarding()
      modifies this
      ensures IsCompleted(currentState) && hasCompletedOnboarding
    {
      currentState := Completed;
      hasCompletedOnboarding := true;
    }

    /** `resetOnboardingState`: the flag cleared and the first page again. */
    method ResetOnboardingState()
      modifies this
      ensures currentState == First && !hasCompletedOnboarding
    {
      hasCompletedOnboarding := false;
      currentState := First;
    }
  }
}
