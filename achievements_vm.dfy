/**
 * The `AchievementsViewModel` of
 * ViewModels/Achievement/AchievementsViewModel.swift: the list of
 * achievements the screen shows, one per type, from the stored set. The
 * stored set is a parameter; colours are a two-valued datatype.
 */
module AchievementsVm {
  import opened Wrappers
  import opened AchievementModel

  /** The entry shown for a type: the stored achievement of that type, or a fresh one. */
  function Entry(stored: seq<Achievement>, t: AchievementType): (a: Achievement)
    ensures a.achievementType == t
    ensures FirstOfType(stored, t).Some? ==> a == FirstOfType(stored, t).value
    ensures FirstOfType(stored, t).None? ==> a == Initial(t)
  {
    match FirstOfType(stored, t)
    case Some(existing) => existing
    case None => Initial(t)
  }

  /** `loadAchievements`: `allCases` mapped to their entries. */
  function Load(stored: seq<Achievement>): (r: seq<Achievement>)
    ensures |r| == |AllCases|
    ensures forall i :: 0 <= i < |r| ==> r[i] == Entry(stored, AllCases[i])
  {
    seq(|AllCases|, i requires 0 <= i < |AllCases| => Entry(stored, AllCases[i]))
  }

  /**
   * The loaded list has exactly one entry per type, in `allCases` order:
   * the stored one where there is one, and otherwise one with no progress.
   */
  lemma LoadOnePerType(stored: seq<Achievement>)
    requires AtMostOnePerType(stored)
    ensures |Load(stored)| == 4
    ensures forall i :: 0 <= i < 4 ==> Load(stored)[i].achievementType == AllCases[i]
    ensures AtMostOnePerType(Load(stored))
    ensures forall a :: a in stored ==> a in Load(stored)
    ensures forall a :: a in Load(stored) && a !in stored ==> a.progress == 0
  {
    forall a | a in stored
      ensures a in Load(stored)
    {
      AllCasesComplete(a.achievementType);
      var i :| 0 <= i < 4 && AllCases[i] == a.achievementType;
      FirstOfTypeUnique(stored, a.achievementType, a);
      assert Load(stored)[i] == a;
    }
  }

  /** The two looks of an achievement's card. */
  datatype Color = White | Black

  /** `achievementStyle`: opacity in percent and colour. */
  datatype Style = Style(opacityPercent: int, color: Color)

  /** `achievementStyle(for:)`: full white for an unlocked achievement, dimmed black otherwise. */
  function AchievementStyle(a: Achievement): (s: Style)
    ensures IsUnlocked(a) ==> s == Style(100, White)
    ensures !IsUnlocked(a) ==> s == Style(80, Black)
  {
    if IsUnlocked(a) then Style(100, White) else Style(80, Black)
  }

  /** A card is shown white exactly when its progress meets its type's requirement. */
  lemma StyleShowsUnlocked(a: Achievement)
    ensures AchievementStyle(a).color == White <==> a.progress >= Requirement(a.achievementType)
    ensures AchievementStyle(Initial(a.achievementType)).color == Black
  {
  }

  class AchievementsViewModel {
    var achievements: seq<Achievement>

    /** `init`: the list is loaded from the stored set. */
    constructor(stored: seq<Achievement>)
      ensures achievements == Load(stored)
    {
      achievements := Load(stored);
    }
  }
}
