/**
 * Models/Achievement.swift: the four achievements, what each requires,
 * when one is unlocked, and the identity of an achievement, which is its
 * type alone. A Swift `Set<Achievement>` is modelled as a sequence holding
 * at most one achievement per type, in the set's iteration order.
 */
module AchievementModel {
  import opened Wrappers

  /** `AchievementType`. */
  datatype AchievementType = Food | Water | Wood | Nights

  /** `allCases`, in declaration order. */
  const AllCases: seq<AchievementType> := [Food, Water, Wood, Nights]

  /** Every type is listed once. */
  lemma AllCasesComplete(t: AchievementType)
    ensures t in AllCases
    ensures |AllCases| == 4
    ensures forall i, j :: 0 <= i < j < |AllCases| ==> AllCases[i] != AllCases[j]
  {
  }

  /** `requirement`: twenty of each resource, or ten nights. */
  function Requirement(t: AchievementType): (n: int)
    ensures n == (if t == Nights then 10 else 20)
  {
    match t
    case Food | Water | Wood => 20
    case Nights => 10
  }

  /** `Achievement`. */
  datatype Achievement = Achievement(achievementType: AchievementType, progress: int)

  /** `isUnlocked`. */
  predicate IsUnlocked(a: Achievement)
  {
    a.progress >= Requirement(a.achievementType)
  }

  /** Progress never locks an unlocked achievement: unlocking is monotone in progress. */
  lemma UnlockedMonotone(a: Achievement, more: int)
    requires IsUnlocked(a) && more >= a.progress
    ensures IsUnlocked(a.(progress := more))
  {
  }

  /** `==`: two achievements are the same exactly when their types are. */
  predicate Same(a: Achievement, b: Achievement)
  {
    a.achievementType == b.achievementType
  }

  /** `==` ignores progress, and is an equivalence. */
  lemma SameIgnoresProgress(a: Achievement, b: Achievement, c: Achievement)
    ensures Same(a, a.(progress := b.progress))
    ensures Same(a, b) <==> Same(b, a)
    ensures Same(a, b) && Same(b, c) ==> Same(a, c)
  {
  }

  /** `initial(type:)`. */
  function Initial(t: AchievementType): (a: Achievement)
    ensures a.achievementType == t && a.progress == 0
  {
    Achievement(t, 0)
  }

  /** A fresh achievement is locked, whatever its type. */
  lemma InitialLocked(t: AchievementType)
    ensures !IsUnlocked(Initial(t))
  {
  }

  /** What a `Set<Achievement>` holds: no two elements the same under `==`. */
  predicate AtMostOnePerType(s: seq<Achievement>)
  {
    forall i, j :: 0 <= i < j < |s| ==> !Same(s[i], s[j])
  }

  /** `first(where: { $0.type == t })`. */
  function FirstOfType(s: seq<Achievement>, t: AchievementType): (r: Option<Achievement>)
    ensures r.Some? ==> r.value in s && r.value.achievementType == t
    ensures r.None? ==> forall a :: a in s ==> a.achievementType != t
  {
    if |s| == 0 then None
    else if s[0].achievementType == t then Some(s[0])
    else FirstOfType(s[1..], t)
  }

  /**
   * In a set the element of a type is unique, so `first(where:)` finds the
   * same one whatever the set's iteration order.
   */
  lemma {:induction false} FirstOfTypeUnique(s: seq<Achievement>, t: AchievementType, a: Achievement)
    requires AtMostOnePerType(s)
    requires a in s && a.achievementType == t
    ensures FirstOfType(s, t) == Some(a)
  {
    if s[0] != a {
      assert a in s[1..] by {
        var k :| 0 <= k < |s| && s[k] == a;
        assert k > 0 && s[1..][k - 1] == a;
      }
      assert s[0].achievementType != t by {
        var k :| 0 <= k < |s| && s[k] == a;
        assert !Same(s[0], s[k]);
      }
      assert AtMostOnePerType(s[1..]) by {
        forall i, j | 0 <= i < j < |s| - 1
          ensures !Same(s[1..][i], s[1..][j])
        {
          assert !Same(s[i + 1], s[j + 1]);
        }
      }
      FirstOfTypeUnique(s[1..], t, a);
    }
  }

  /**
   * `insert`: an element equal to one already in the set is not added and
   * does not replace it; any other is added.
   */
  function Insert(s: seq<Achievement>, a: Achievement): (r: seq<Achievement>)
  {
    if FirstOfType(s, a.achievementType).Some? then s else s + [a]
  }

  /** Inserting keeps one element per type, and the set then holds an element of the inserted type. */
  lemma InsertKeepsOnePerType(s: seq<Achievement>, a: Achievement)
    requires AtMostOnePerType(s)
    ensures AtMostOnePerType(Insert(s, a))
    ensures FirstOfType(Insert(s, a), a.achievementType).Some?
    ensures FirstOfType(s, a.achievementType).Some? ==> Insert(s, a) == s
  {
    if FirstOfType(s, a.achievementType).None? {
      var r := s + [a];
      assert r[|s|] == a;
      assert a in r;
    }
  }
}
