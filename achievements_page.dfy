/**
 * The achievements page of app/achievements/page.tsx: which achievements the
 * signed-in record has unlocked, and the list shown under the selected tab.
 */
module AchievementsPage {
  import opened Wrappers
  import opened Progress
  import opened CourseCatalog

  /** isAchievementUnlocked: never when signed out, otherwise exactly when the record lists the id. */
  function IsAchievementUnlocked(userData: Option<UserData>, achievementId: string): (r: bool)
    ensures userData.None? ==> !r
    ensures userData.Some? ==> (r <==> achievementId in userData.value.achievements)
  {
    userData.Some? && Includes(userData.value.achievements, achievementId)
  }

  /** `filter` on the category: the achievements of one category, in catalog order. */
  function OfCategory(achievements: seq<Achievement>, category: string): (r: seq<Achievement>)
    ensures |r| <= |achievements|
    ensures forall a :: a in r <==> a in achievements && a.category == category
  {
    if achievements == [] then []
    else if achievements[0].category == category then [achievements[0]] + OfCategory(achievements[1..], category)
    else OfCategory(achievements[1..], category)
  }

  /** Filtering a catalog split in two filters each part and keeps them in order. */
  lemma {:induction false} OfCategoryAppend(a: seq<Achievement>, b: seq<Achievement>, category: string)
    ensures OfCategory(a + b, category) == OfCategory(a, category) + OfCategory(b, category)
    decreases |a|
  {
    if a != [] {
      assert (a + b)[1..] == a[1..] + b;
      OfCategoryAppend(a[1..], b, category);
    } else {
      assert a + b == b;
    }
  }

  /** Under a category every achievement of the catalog keeps its relative position. */
  lemma OfCategoryKeepsOrder(achievements: seq<Achievement>, category: string, i: int, j: int)
    requires 0 <= i < j < |achievements|
    requires achievements[i].category == category && achievements[j].category == category
    ensures exists p, q ::
      && 0 <= p < q < |OfCategory(achievements, category)|
      && OfCategory(achievements, category)[p] == achievements[i]
      && OfCategory(achievements, category)[q] == achievements[j]
  {
    var front := achievements[..j];
    var back := achievements[j..];
    assert achievements == front + back;
    OfCategoryAppend(front, back, category);
    assert achievements[i] in OfCategory(front, category) by {
      assert front[i] == achievements[i];
    }
    assert back[0] == achievements[j];
    assert OfCategory(back, category)[0] == achievements[j];
    var p :| 0 <= p < |OfCategory(front, category)| && OfCategory(front, category)[p] == achievements[i];
    var q := |OfCategory(front, category)|;
    assert OfCategory(achievements, category)[p] == achievements[i];
    assert OfCategory(achievements, category)[q] == achievements[j];
  }

  const AllTab: string := "all"

  /** getFilteredAchievements: the whole catalog under "all", one category under any other tab. */
  function GetFilteredAchievements(achievements: seq<Achievement>, filter: string): (r: seq<Achievement>)
    ensures filter == AllTab ==> r == achievements
    ensures filter != AllTab ==> r == OfCategory(achievements, filter)
    ensures |r| <= |achievements|
  {
    if filter == AllTab then achievements else OfCategory(achievements, filter)
  }

  /** The tabs the page offers. */
  const Tabs: seq<string> := ["all", "general", "learning", "cybersecurity", "blockchain"]

  /**
   * An achievement whose category has no tab of its own is listed under "all" and
   * nowhere else; in the seeded catalog this is the staking and the cryptography
   * achievement.
   */
  lemma UntabbedCategoryOnlyUnderAll(achievements: seq<Achievement>, a: Achievement, tab: string)
    requires a in achievements && a.category !in Tabs && tab in Tabs
    ensures a in GetFilteredAchievements(achievements, tab) <==> tab == AllTab
  {
  }

  lemma SeedUntabbedCategories()
    ensures forall a :: a in SeedAchievements() && a.category !in Tabs ==>
      a.id == "first-stake" || a.id == "crypto-wizard"
    ensures exists a :: a in SeedAchievements() && a.category !in Tabs && a.id == "first-stake"
    ensures exists a :: a in SeedAchievements() && a.category !in Tabs && a.id == "crypto-wizard"
  {
    var s := SeedAchievements();
    assert s[2].id == "first-stake" && s[2].category == "staking";
    assert s[5].id == "crypto-wizard" && s[5].category == "cryptography";
    assert "staking" !in Tabs;
    assert "cryptography" !in Tabs;
  }
}
