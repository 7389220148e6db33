/**
 * The dashboard (src/components/goal-dashboard.tsx): the goal list it holds in
 * component state, the optimistic local copies of log-progress and
 * toggle-milestone it applies after calling the server, the mapping of
 * fetched rows to goals, and the "in progress" / "completed" tabs.
 */
module Dashboard {
  import opened Wrappers
  import opened ProgressEngine
  import opened Seqs
  import Store

  datatype Milestone = Milestone(id: string, title: string, description: string, completed: bool)

  datatype Goal = Goal(
    id: string,
    title: string,
    description: string,
    progress: int,
    streak: int,
    milestones: seq<Milestone>,
    createdAt: string,
    targetDate: Option<string>,
    lastUpdated: Option<int>)

  function IsCompleted(m: Milestone): bool { m.completed }

  /** The number of completed milestones, `milestones.filter((m) => m.completed).length`. */
  function CompletedCount(ms: seq<Milestone>): (n: nat)
    ensures n <= |ms|
  {
    |Filter(ms, IsCompleted)|
  }

  /** The local copy of log-progress applied to the goal being logged. */
  function LoggedLocally(g: Goal, now: int): (r: Goal)
    ensures r == g.(progress := r.progress, streak := r.streak, lastUpdated := Some(now))
    ensures r.streak == NextStreak(g.streak, g.lastUpdated, now)
    ensures |g.milestones| > 0 ==> 0 <= r.progress <= 100 && r.progress == RoundPercent(CompletedCount(g.milestones), |g.milestones|)
    ensures |g.milestones| == 0 ==> r.progress == IncrementedProgress(g.progress)
  {
    g.(progress := LoggedProgress(g.progress, false, CompletedCount(g.milestones), |g.milestones|),
       streak := NextStreak(g.streak, g.lastUpdated, now),
       lastUpdated := Some(now))
  }

  /** `{ ...milestone, completed }` for the milestones whose id matches. */
  function SetCompleted(ms: seq<Milestone>, milestoneId: string, completed: bool): (r: seq<Milestone>)
    ensures |r| == |ms|
    ensures forall i :: 0 <= i < |ms| ==>
      r[i] == if ms[i].id == milestoneId then ms[i].(completed := completed) else ms[i]
  {
    seq(|ms|, i requires 0 <= i < |ms| => if ms[i].id == milestoneId then ms[i].(completed := completed) else ms[i])
  }

  /**
   * The local copy of toggle-milestone applied to the goal concerned. The
   * source divides by the milestone count without a guard, so the goal must
   * have milestones (it does whenever a milestone checkbox was clicked).
   */
  function ToggledLocally(g: Goal, milestoneId: string, completed: bool, now: int): (r: Goal)
    requires |g.milestones| > 0
    ensures r == g.(milestones := r.milestones, progress := r.progress, lastUpdated := Some(now))
    ensures r.milestones == SetCompleted(g.milestones, milestoneId, completed)
    ensures 0 <= r.progress <= 100 && r.progress == RoundPercent(CompletedCount(r.milestones), |r.milestones|)
  {
    var updated := SetCompleted(g.milestones, milestoneId, completed);
    RoundPercentRange(CompletedCount(updated), |updated|);
    g.(milestones := updated,
       progress := RoundPercent(CompletedCount(updated), |updated|),
       lastUpdated := Some(now))
  }

  /** When a toggle leaves every milestone checked the goal shows 100; when it leaves none checked, 0. */
  lemma {:induction false} ToggleAllOrNothing(g: Goal, milestoneId: string, completed: bool, now: int)
    requires |g.milestones| > 0
    ensures var r := ToggledLocally(g, milestoneId, completed, now);
      (forall i :: 0 <= i < |r.milestones| ==> r.milestones[i].completed) ==> r.progress == 100
    ensures var r := ToggledLocally(g, milestoneId, completed, now);
      (forall i :: 0 <= i < |r.milestones| ==> !r.milestones[i].completed) ==> r.progress == 0
  {
    var r := ToggledLocally(g, milestoneId, completed, now).milestones;
    RoundPercentExtremes(|r|);
    if forall i :: 0 <= i < |r| ==> r[i].completed {
      FilterKeepsAll(r, IsCompleted);
    }
    if forall i :: 0 <= i < |r| ==> !r[i].completed {
      FilterKeepsNone(r, IsCompleted);
    }
  }

  /**
   * The local log agrees with the server's: given the same stored progress,
   * streak and last update, and the same milestone counts, both write the same
   * progress, streak and timestamp.
   */
  lemma LocalLogMatchesServer(g: Goal, row: Store.GoalRow, ms: map<Store.Id, Store.MilestoneRow>, now: int)
    requires row.progress == g.progress && row.streak == g.streak && row.lastUpdated == g.lastUpdated
    requires |Store.MilestonesOf(ms, g.id)| == |g.milestones|
    requires |Store.CompletedOf(ms, g.id)| == CompletedCount(g.milestones)
    ensures var local, server := LoggedLocally(g, now), Store.Logged(row, ms, g.id, false, now);
      local.progress == server.progress && local.streak == server.streak && local.lastUpdated == server.lastUpdated
  {
  }

  // ---------------------------------------------------------------- fetched rows

  datatype FetchedMilestone = FetchedMilestone(id: string, title: string, description: Option<string>, completed: Option<bool>)

  datatype FetchedGoal = FetchedGoal(
    id: string,
    title: string,
    description: Option<string>,
    progress: Option<int>,
    streak: Option<int>,
    milestones: Option<seq<FetchedMilestone>>,
    createdAt: string,
    lastUpdated: Option<int>)

  /** `n || 0`: a missing number (or 0 itself) reads as 0, any other number is kept. */
  function OrZero(n: Option<int>): (r: int)
    ensures n.Some? ==> r == n.value
    ensures n.None? ==> r == 0
  {
    if n.Some? then n.value else 0
  }

  function ToMilestone(m: FetchedMilestone): (r: Milestone)
    ensures r.id == m.id && r.title == m.title
    ensures r.description == (if Truthy(m.description) then m.description.value else "")
    ensures r.completed <==> m.completed == Some(true)
  {
    Milestone(m.id, m.title, OrEmpty(m.description), m.completed == Some(true))
  }

  /**
   * The goal the dashboard builds from a fetched row: absent description is "",
   * absent progress and streak are 0, absent milestones are [], and the target
   * date is not carried over.
   */
  function ToGoal(f: FetchedGoal): (g: Goal)
    ensures g.id == f.id && g.title == f.title && g.createdAt == f.createdAt && g.lastUpdated == f.lastUpdated
    ensures g.description == (if Truthy(f.description) then f.description.value else "")
    ensures g.progress == (if f.progress.Some? then f.progress.value else 0)
    ensures g.streak == (if f.streak.Some? then f.streak.value else 0)
    ensures f.milestones.None? ==> g.milestones == []
    ensures f.milestones.Some? ==>
      && |g.milestones| == |f.milestones.value|
      && (forall i :: 0 <= i < |g.milestones| ==> g.milestones[i] == ToMilestone(f.milestones.value[i]))
    ensures g.targetDate.None?
  {
    var ms := if f.milestones.Some? then f.milestones.value else [];
    Goal(f.id, f.title, OrEmpty(f.description), OrZero(f.progress), OrZero(f.streak),
         seq(|ms|, i requires 0 <= i < |ms| => ToMilestone(ms[i])),
         f.createdAt, None, f.lastUpdated)
  }

  // ---------------------------------------------------------------- tabs

  function IsInProgress(g: Goal): bool { g.progress < 100 }
  function IsDone(g: Goal): bool { g.progress == 100 }

  /** The "In Progress" tab, `goals.filter((goal) => goal.progress < 100)`. */
  function InProgressTab(goals: seq<Goal>): (tab: seq<Goal>)
    ensures forall g :: g in tab <==> g in goals && g.progress < 100
  {
    Filter(goals, IsInProgress)
  }

  /** The "Completed" tab, `goals.filter((goal) => goal.progress === 100)`. */
  function CompletedTab(goals: seq<Goal>): (tab: seq<Goal>)
    ensures forall g :: g in tab <==> g in goals && g.progress == 100
  {
    Filter(goals, IsDone)
  }

  /** When no progress exceeds 100 the two tabs split the goal list: every goal shows in exactly one. */
  lemma TabsPartition(goals: seq<Goal>)
    requires forall i :: 0 <= i < |goals| ==> goals[i].progress <= 100
    ensures multiset(InProgressTab(goals)) + multiset(CompletedTab(goals)) == multiset(goals)
    ensures |InProgressTab(goals)| + |CompletedTab(goals)| == |goals|
  {
    FilterPartition(goals, IsInProgress, IsDone);
  }

  // ---------------------------------------------------------------- component state

  class GoalDashboard {
    var goals: seq<Goal>

    constructor ()
      ensures goals == []
    {
      goals := [];
    }

    /** A successful fetch replaces the list with the mapped rows. */
    method LoadFetched(data: seq<FetchedGoal>)
      modifies this
      ensures |goals| == |data|
      ensures forall i :: 0 <= i < |data| ==> goals[i] == ToGoal(data[i])
    {
      goals := seq(|data|, i requires 0 <= i < |data| => ToGoal(data[i]));
    }

    /**
     * `handleLogProgress`: the server's error only produces a toast; the local
     * update is applied either way, to the goals with the given id and no other.
     */
    method HandleLogProgress(goalId: string, now: int, serverError: Option<string>) returns (toast: Option<string>)
      modifies this
      ensures toast == serverError
      ensures |goals| == |old(goals)|
      ensures forall i :: 0 <= i < |goals| ==>
        goals[i] == if old(goals)[i].id == goalId then LoggedLocally(old(goals)[i], now) else old(goals)[i]
    {
      toast := serverError;
      goals := seq(|goals|, i requires 0 <= i < |goals| reads this =>
                     if goals[i].id == goalId then LoggedLocally(goals[i], now) else goals[i]);
    }

    /** `handleToggleMilestone`: like `handleLogProgress`, applied whatever the server answered. */
    method HandleToggleMilestone(goalId: string, milestoneId: string, completed: bool, now: int, serverError: Option<string>)
      returns (toast: Option<string>)
      requires forall i :: 0 <= i < |goals| && goals[i].id == goalId ==> |goals[i].milestones| > 0
      modifies this
      ensures toast == serverError
      ensures |goals| == |old(goals)|
      ensures forall i :: 0 <= i < |goals| ==>
        goals[i] == if old(goals)[i].id == goalId then ToggledLocally(old(goals)[i], milestoneId, completed, now) else old(goals)[i]
    {
      toast := serverError;
      goals := seq(|goals|, i requires 0 <= i < |goals| && (goals[i].id == goalId ==> |goals[i].milestones| > 0) reads this =>
                     if goals[i].id == goalId then ToggledLocally(goals[i], milestoneId, completed, now) else goals[i]);
    }
  }
}
