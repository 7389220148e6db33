/** The achievements page (src/app/achievements/page.tsx): its lists, its counter and its icons. */
module Achievements {
  import opened Wrappers
  import opened Seqs

  datatype Achievement = Achievement(
    id: string,
    title: string,
    description: string,
    icon: string,
    progress: int,
    maxProgress: int,
    unlocked: bool,
    unlockedAt: Option<string>,
    category: string)

  /** The icons `getIconComponent` can render. */
  datatype Icon = Award | Trophy | Target | Flame | Calendar | CheckCircle2

  /** `getIconComponent`: the named icon, and the award for any name it does not know. */
  function IconFor(iconName: string): (icon: Icon)
    ensures icon == Award <==> iconName !in {"trophy", "target", "flame", "calendar", "checkCircle2"}
    ensures icon == Trophy <==> iconName == "trophy"
    ensures icon == Target <==> iconName == "target"
    ensures icon == Flame <==> iconName == "flame"
    ensures icon == Calendar <==> iconName == "calendar"
    ensures icon == CheckCircle2 <==> iconName == "checkCircle2"
  {
    match iconName
    case "award" => Award
    case "trophy" => Trophy
    case "target" => Target
    case "flame" => Flame
    case "calendar" => Calendar
    case "checkCircle2" => CheckCircle2
    case _ => Award
  }

  predicate IsUnlocked(a: Achievement) { a.unlocked }
  predicate IsLocked(a: Achievement) { !a.unlocked }
  predicate InCategory(category: string, a: Achievement) { a.category == category }

  /** `unlockedAchievements`. */
  function Unlocked(all: seq<Achievement>): (r: seq<Achievement>)
    ensures forall a :: a in r <==> a in all && a.unlocked
  {
    Filter(all, IsUnlocked)
  }

  /** `inProgressAchievements`. */
  function InProgress(all: seq<Achievement>): (r: seq<Achievement>)
    ensures forall a :: a in r <==> a in all && !a.unlocked
  {
    Filter(all, IsLocked)
  }

  /** The goal, milestone and streak tabs: the achievements of one category, in their order. */
  function OfCategory(all: seq<Achievement>, category: string): (r: seq<Achievement>)
    ensures forall a :: a in r <==> a in all && a.category == category
  {
    Filter(all, a => InCategory(category, a))
  }

  /**
   * The unlocked and in-progress tabs split the list: together they hold each
   * achievement exactly as often as the list does, so the counter's two
   * numbers satisfy unlocked <= total, and the rest are in progress.
   */
  lemma UnlockedInProgressPartition(all: seq<Achievement>)
    ensures multiset(Unlocked(all)) + multiset(InProgress(all)) == multiset(all)
    ensures |Unlocked(all)| + |InProgress(all)| == |all|
  {
    FilterPartition(all, IsUnlocked, IsLocked);
  }

  /** The mock list shown to every signed-in user. */
  function MockAchievements(): (all: seq<Achievement>)
    ensures |all| == 6
  {
    [ Achievement("1", "Goal Setter", "Create your first goal", "target", 1, 1, true, Some("2023-06-15"), "goals"),
      Achievement("2", "Milestone Master", "Complete 5 milestones", "checkCircle2", 3, 5, false, None, "milestones"),
      Achievement("3", "Consistency King", "Log progress for 7 consecutive days", "flame", 4, 7, false, None, "streaks"),
      Achievement("4", "Goal Achiever", "Complete your first goal", "trophy", 0, 1, false, None, "goals"),
      Achievement("5", "30-Day Warrior", "Log progress for 30 days total", "calendar", 12, 30, false, None, "streaks"),
      Achievement("6", "Triple Threat", "Have 3 goals in progress simultaneously", "target", 2, 3, false, None, "goals") ]
  }

  /** On the mock data the counter reads 1/6: only "Goal Setter" is unlocked. */
  lemma MockCounter()
    ensures |Unlocked(MockAchievements())| == 1
    ensures Unlocked(MockAchievements())[0].title == "Goal Setter"
    ensures |InProgress(MockAchievements())| == 5
  {
    var all := MockAchievements();
    assert all == [all[0]] + all[1..];
    FilterConcat([all[0]], all[1..], IsUnlocked);
    FilterKeepsNone(all[1..], IsUnlocked);
    assert Filter([all[0]], IsUnlocked) == [all[0]];
    UnlockedInProgressPartition(all);
  }

  /** When every achievement has one of the three categories, the three category tabs together show each exactly once. */
  lemma CategoriesPartition(all: seq<Achievement>)
    requires forall i :: 0 <= i < |all| ==> all[i].category in {"goals", "milestones", "streaks"}
    ensures multiset(OfCategory(all, "goals")) + multiset(OfCategory(all, "milestones"))
          + multiset(OfCategory(all, "streaks")) == multiset(all)
  {
    var g, m, s := (a: Achievement) => InCategory("goals", a), (a: Achievement) => InCategory("milestones", a),
                   (a: Achievement) => InCategory("streaks", a);
    var ms := (a: Achievement) => InCategory("milestones", a) || InCategory("streaks", a);
    FilterPartition(all, g, ms);
    FilterPartition(Filter(all, ms), m, s);
    FilterNested(all, ms, m);
    FilterNested(all, ms, s);
  }

  /** Every mock achievement appears in exactly one category tab. */
  lemma MockCategoriesCover()
    ensures multiset(OfCategory(MockAchievements(), "goals")) + multiset(OfCategory(MockAchievements(), "milestones"))
          + multiset(OfCategory(MockAchievements(), "streaks")) == multiset(MockAchievements())
  {
    var all := MockAchievements();
    assert all[0].category == "goals" && all[1].category == "milestones" && all[2].category == "streaks";
    assert all[3].category == "goals" && all[4].category == "streaks" && all[5].category == "goals";
    CategoriesPartition(all);
  }
}
