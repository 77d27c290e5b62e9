/**
 * ViewModels/Tutorial/TutorialViewModel.swift: the tutorial's pages,
 * walked forwards and backwards in the order of `allCases`, stopping at
 * either end.
 */
module TutorialVm {
  /** `TutorialState`. */
  datatype TutorialState = Welcome | Field | Cages | Resources | TutorialEnd

  /** `allCases`, in declaration order. */
  const AllCases: seq<TutorialState> := [Welcome, Field, Cages, Resources, TutorialEnd]

  /** `allCases.firstIndex(of:)`, which always finds the state. */
  function Index(s: TutorialState): (i: nat)
    ensures i < |AllCases| && AllCases[i] == s
    ensures forall j :: 0 <= j < i ==> AllCases[j] != s
  {
    match s
    case Welcome => 0
    case Field => 1
    case Cages => 2
    case Resources => 3
    case TutorialEnd => 4
  }

  /** The page after `s`, or `s` itself on the last page. */
  function NextStep(s: TutorialState): TutorialState
  {
    if Index(s) < |AllCases| - 1 then AllCases[Index(s) + 1] else s
  }

  /** The page before `s`, or `s` itself on the first page. */
  function PreviousStep(s: TutorialState): TutorialState
  {
    if Index(s) > 0 then AllCases[Index(s) - 1] else s
  }

  /**
   * Forward moves one place in the order and stops at the end; backward
   * moves one place back and stops at the welcome page.
   */
  lemma StepsMoveByOne(s: TutorialState)
    ensures s != TutorialEnd ==> Index(NextStep(s)) == Index(s) + 1
    ensures NextStep(TutorialEnd) == TutorialEnd
    ensures s != Welcome ==> Index(PreviousStep(s)) == Index(s) - 1
    ensures PreviousStep(Welcome) == Welcome
  {
  }

  /** Forward then back returns to the same page, from any page but the last; back then forward, from any but the first. */
  lemma NextThenPrevious(s: TutorialState)
    ensures s != TutorialEnd ==> PreviousStep(NextStep(s)) == s
    ensures s != Welcome ==> NextStep(PreviousStep(s)) == s
  {
  }

  class TutorialViewModel {
    var tutorialState: TutorialState

    /** The tutorial opens on the welcome page. */
    constructor()
      ensures tutorialState == Welcome
    {
      tutorialState := Welcome;
    }

    /** `moveToNextStep`: the next page, unless this is the last. */
    method MoveToNextStep()
      modifies this
      ensures tutorialState == NextStep(old(tutorialState))
    {
      var currentIndex := Index(tutorialState);
      if !(currentIndex < |AllCases| - 1) {
        return;
      }
      tutorialState := AllCases[currentIndex + 1];
    }

    /** `moveToPreviousStep`: the previous page, unless this is the first. */
    method MoveToPreviousStep()
      modifies this
      ensures tutorialState == PreviousStep(old(tutorialState))
    {
      var currentIndex := Index(tutorialState);
      if !(currentIndex > 0) {
        return;
      }
      tutorialState := AllCases[currentIndex - 1];
    }
  }
}
