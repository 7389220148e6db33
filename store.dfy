/**
 * The four edge functions (log-progress, toggle-milestone, create-goal,
 * delete-goal) as state transitions of an abstract data store.
 *
 * The store holds goal rows and milestone rows keyed by id, and the
 * append-only list of progress logs. Authentication is the caller's id
 * (absent when the identity provider rejects the request). Each store call
 * that can fail in the source takes an `Option<string>` parameter: `Some(m)`
 * means that call returned an error with message `m`.
 */
module Store {
  import opened Wrappers
  import opened ProgressEngine

  type Id = string

  /** A row of the `goals` table. */
  datatype GoalRow = GoalRow(
    owner: Id,
    title: string,
    description: Option<string>,
    progress: int,
    streak: int,
    lastUpdated: Option<int>,
    targetDate: Option<string>,
    notes: seq<string>)

  /** A row of the `milestones` table. */
  datatype MilestoneRow = MilestoneRow(
    goalId: Id,
    title: string,
    description: Option<string>,
    completed: bool,
    completedAt: Option<int>)

  /** A row of the `progress_logs` table. */
  datatype LogRow = LogRow(userId: Id, goalId: Id, loggedAt: int, notes: Option<string>)

  /** One element of the `milestones` array of a create-goal request. */
  datatype MilestoneInput = MilestoneInput(title: string, description: Option<string>, completed: Option<bool>)

  /** The JSON body of a response. */
  datatype Body =
    | Failure(message: string)
    | FailureWithGoal(message: string, goalId: Id, goal: GoalRow)
    | Succeeded
    | GoalCreated(goalId: Id, goal: GoalRow)
    | ProgressLogged(progress: int, streak: int, lastUpdated: int)

  datatype Response = Response(status: int, body: Body)

  const Unauthorized := Response(401, Failure("Unauthorized"))
  const GoalIdRequired := Response(400, Failure("Goal ID is required"))
  const IdsRequired := Response(400, Failure("Goal ID and Milestone ID are required"))
  const TitleRequired := Response(400, Failure("Goal title is required"))
  const NotFoundOrDenied := Response(404, Failure("Goal not found or access denied"))
  const NotFoundOrNotOwned := Response(404, Failure("Goal not found or not owned by user"))

  /** A store call that returned an error: 400 with the store's message. */
  function StoreFailure(message: string): Response {
    Response(400, Failure(message))
  }

  /** The goal lookup `.eq("id", goalId).eq("user_id", user)` finds a row. */
  function Owns(goals: map<Id, GoalRow>, user: Id, goalId: Id): (found: bool)
    ensures found ==> goalId in goals && goals[goalId].owner == user
    ensures goalId !in goals ==> !found
    ensures goalId in goals && goals[goalId].owner == user ==> found
  {
    goalId in goals && goals[goalId].owner == user
  }

  /** A request that passes authentication, the id check and the ownership lookup. */
  function Admits(goals: map<Id, GoalRow>, caller: Option<Id>, goalId: Option<Id>, lookupError: Option<string>): (admitted: bool)
    ensures caller.None? || !Truthy(goalId) || lookupError.Some? ==> !admitted
    ensures admitted ==> goalId.value in goals && goals[goalId.value].owner == caller.value
    ensures (caller.Some? && Truthy(goalId) && lookupError.None? && goalId.value in goals
             && goals[goalId.value].owner == caller.value) ==> admitted
  {
    caller.Some? && Truthy(goalId) && lookupError.None? && Owns(goals, caller.value, goalId.value)
  }

  /** A goal admits requests from one caller only: its owner. */
  lemma OnlyOwnerAdmitted(goals: map<Id, GoalRow>, a: Id, b: Id, goalId: Option<Id>, e1: Option<string>, e2: Option<string>)
    requires Admits(goals, Some(a), goalId, e1) && Admits(goals, Some(b), goalId, e2)
    ensures a == b
  {
  }

  /** The ids of the milestones `.eq("goal_id", goalId)` selects. */
  function MilestonesOf(ms: map<Id, MilestoneRow>, goalId: Id): set<Id> {
    set m | m in ms && ms[m].goalId == goalId
  }

  /** The ids of those milestones that are completed. */
  function CompletedOf(ms: map<Id, MilestoneRow>, goalId: Id): set<Id> {
    set m | m in ms && ms[m].goalId == goalId && ms[m].completed
  }

  lemma {:induction false} SubsetCard<T>(a: set<T>, b: set<T>)
    requires a <= b
    ensures |a| <= |b|
  {
    if a != {} {
      var x :| x in a;
      SubsetCard(a - {x}, b - {x});
    }
  }

  lemma CompletedWithin(ms: map<Id, MilestoneRow>, goalId: Id)
    ensures |CompletedOf(ms, goalId)| <= |MilestonesOf(ms, goalId)|
  {
    SubsetCard(CompletedOf(ms, goalId), MilestonesOf(ms, goalId));
  }

  // ---------------------------------------------------------------- log-progress

  /** The goal row a successful log-progress writes: new progress, new streak, `last_updated = now`. */
  function Logged(g: GoalRow, ms: map<Id, MilestoneRow>, goalId: Id, fetchFailed: bool, now: int): (r: GoalRow)
    ensures r == g.(progress := r.progress, streak := r.streak, lastUpdated := Some(now))
    ensures r.streak == NextStreak(g.streak, g.lastUpdated, now)
    ensures 0 <= g.progress <= 100 ==> 0 <= r.progress <= 100
    ensures 0 <= g.streak ==> 0 <= r.streak
  {
    CompletedWithin(ms, goalId);
    g.(progress := LoggedProgress(g.progress, fetchFailed, |CompletedOf(ms, goalId)|, |MilestonesOf(ms, goalId)|),
       streak := NextStreak(g.streak, g.lastUpdated, now),
       lastUpdated := Some(now))
  }

  /**
   * After a log, a goal with milestones has exactly the rounded share of
   * completed milestones as its progress; a goal without them (or whose
   * milestones could not be read) gains 5 points, capped at 100, and never loses any.
   */
  lemma LoggedProgressRule(g: GoalRow, ms: map<Id, MilestoneRow>, goalId: Id, fetchFailed: bool, now: int)
    requires 0 <= g.progress <= 100
    ensures var r := Logged(g, ms, goalId, fetchFailed, now);
      && (!fetchFailed && MilestonesOf(ms, goalId) != {} ==>
            r.progress == RoundPercent(|CompletedOf(ms, goalId)|, |MilestonesOf(ms, goalId)|))
      && (fetchFailed || MilestonesOf(ms, goalId) == {} ==>
            && r.progress == (if g.progress + 5 <= 100 then g.progress + 5 else 100)
            && g.progress <= r.progress <= 100)
  {
    CompletedWithin(ms, goalId);
  }

  // ---------------------------------------------------------------- toggle-milestone

  /** The milestone table after `update({completed, completed_at}).eq("id", milestoneId).eq("goal_id", goalId)`. */
  function WithCompletion(ms: map<Id, MilestoneRow>, goalId: Id, milestoneId: Id, completed: bool, now: int)
    : (r: map<Id, MilestoneRow>)
    ensures r.Keys == ms.Keys
    ensures forall m :: m in ms && (m != milestoneId || ms[m].goalId != goalId) ==> r[m] == ms[m]
    ensures milestoneId in ms && ms[milestoneId].goalId == goalId ==>
      r[milestoneId] == ms[milestoneId].(completed := completed, completedAt := if completed then Some(now) else None)
  {
    map m | m in ms :: if m == milestoneId && ms[m].goalId == goalId
                       then ms[m].(completed := completed, completedAt := if completed then Some(now) else None)
                       else ms[m]
  }

  /** The progress toggle-milestone computes over all of a goal's milestones, 0 when it has none. */
  function ProgressAfterToggle(ms: map<Id, MilestoneRow>, goalId: Id): (p: int)
    ensures 0 <= p <= 100
    ensures MilestonesOf(ms, goalId) != {} ==>
      |CompletedOf(ms, goalId)| <= |MilestonesOf(ms, goalId)| &&
      p == RoundPercent(|CompletedOf(ms, goalId)|, |MilestonesOf(ms, goalId)|)
    ensures MilestonesOf(ms, goalId) == {} ==> p == 0
    ensures CompletedOf(ms, goalId) == {} ==> p == 0
    ensures MilestonesOf(ms, goalId) != {} && CompletedOf(ms, goalId) == MilestonesOf(ms, goalId) ==> p == 100
  {
    var total := |MilestonesOf(ms, goalId)|;
    var done := |CompletedOf(ms, goalId)|;
    CompletedWithin(ms, goalId);
    if total > 0 then
      RoundPercentRange(done, total);
      RoundPercentExtremes(total);
      RoundPercent(done, total)
    else 0
  }

  /** The goal row toggle-milestone writes: only `progress` and `last_updated` change. */
  function Toggled(g: GoalRow, ms: map<Id, MilestoneRow>, goalId: Id, now: int): (r: GoalRow)
    ensures r == g.(progress := r.progress, lastUpdated := Some(now))
    ensures r.progress == ProgressAfterToggle(ms, goalId)
    ensures r.streak == g.streak
    ensures 0 <= r.progress <= 100
  {
    g.(progress := ProgressAfterToggle(ms, goalId), lastUpdated := Some(now))
  }

  /**
   * Setting the same flag twice changes nothing but timestamps: the second
   * toggle leaves every `completed` flag, and so the progress, as the first left it.
   */
  lemma {:induction false} ToggleIdempotent(ms: map<Id, MilestoneRow>, goalId: Id, milestoneId: Id, completed: bool, t1: int, t2: int)
    ensures var once := WithCompletion(ms, goalId, milestoneId, completed, t1);
      var twice := WithCompletion(once, goalId, milestoneId, completed, t2);
      && twice.Keys == once.Keys
      && (forall m :: m in once ==> twice[m] == once[m].(completedAt := twice[m].completedAt))
      && ProgressAfterToggle(twice, goalId) == ProgressAfterToggle(once, goalId)
  {
    var once := WithCompletion(ms, goalId, milestoneId, completed, t1);
    var twice := WithCompletion(once, goalId, milestoneId, completed, t2);
    assert MilestonesOf(twice, goalId) == MilestonesOf(once, goalId);
    assert CompletedOf(twice, goalId) == CompletedOf(once, goalId);
  }

  /** Checking a milestone never lowers its goal's progress; unchecking one never raises it. */
  lemma {:induction false} ToggleMovesProgressWithFlag(ms: map<Id, MilestoneRow>, goalId: Id, milestoneId: Id, now: int)
    ensures ProgressAfterToggle(ms, goalId) <= ProgressAfterToggle(WithCompletion(ms, goalId, milestoneId, true, now), goalId)
    ensures ProgressAfterToggle(WithCompletion(ms, goalId, milestoneId, false, now), goalId) <= ProgressAfterToggle(ms, goalId)
  {
    var up := WithCompletion(ms, goalId, milestoneId, true, now);
    var down := WithCompletion(ms, goalId, milestoneId, false, now);
    assert MilestonesOf(up, goalId) == MilestonesOf(ms, goalId);
    assert MilestonesOf(down, goalId) == MilestonesOf(ms, goalId);
    SubsetCard(CompletedOf(ms, goalId), CompletedOf(up, goalId));
    SubsetCard(CompletedOf(down, goalId), CompletedOf(ms, goalId));
    CompletedWithin(up, goalId);
    CompletedWithin(ms, goalId);
    if MilestonesOf(ms, goalId) != {} {
      RoundPercentMonotone(|CompletedOf(ms, goalId)|, |CompletedOf(up, goalId)|, |MilestonesOf(ms, goalId)|);
      RoundPercentMonotone(|CompletedOf(down, goalId)|, |CompletedOf(ms, goalId)|, |MilestonesOf(ms, goalId)|);
    }
  }

  /**
   * A toggle sets `last_updated` but not the streak, so a never-logged goal
   * whose milestone was toggled and which is then logged within a day keeps
   * streak 0: the log takes the "same day" branch, not the "first log" one.
   */
  lemma LogAfterToggleKeepsZeroStreak(g: GoalRow, ms: map<Id, MilestoneRow>, goalId: Id, t: int, now: int)
    requires g.streak == 0 && g.lastUpdated.None?
    requires t <= now < t + MsPerDay
    ensures Logged(Toggled(g, ms, goalId, t), ms, goalId, false, now).streak == 0
    ensures Logged(g, ms, goalId, false, now).streak == 1
  {
  }

  // ---------------------------------------------------------------- create-goal

  /** The goal row create-goal inserts. */
  function NewGoalRow(owner: Id, title: string, description: Option<string>, targetDate: Option<string>): (r: GoalRow)
    ensures r.owner == owner && r.progress == 0 && r.streak == 0 && r.notes == [] && r.lastUpdated.None?
    ensures r.title == title && r.description == description
    ensures r.targetDate == (if Truthy(targetDate) then Some(targetDate.value) else None)
  {
    GoalRow(owner, title, description, 0, 0, None, OrNull(targetDate), [])
  }

  /** The milestone row create-goal builds from one input: falsy description is null, falsy completed is false. */
  function NewMilestoneRow(goalId: Id, input: MilestoneInput): (r: MilestoneRow)
    ensures r.goalId == goalId && r.title == input.title
    ensures r.description == (if Truthy(input.description) then Some(input.description.value) else None)
    ensures r.completed <==> input.completed == Some(true)
    ensures r.completedAt.None?
  {
    MilestoneRow(goalId, input.title, OrNull(input.description), input.completed == Some(true), None)
  }

  /** The milestone table after inserting one row per input, the i-th under the i-th generated id. */
  function InsertMilestones(ms: map<Id, MilestoneRow>, ids: seq<Id>, goalId: Id, inputs: seq<MilestoneInput>)
    : (r: map<Id, MilestoneRow>)
    requires |ids| == |inputs|
    requires forall i, j :: 0 <= i < j < |ids| ==> ids[i] != ids[j]
    ensures forall i :: 0 <= i < |ids| ==> ids[i] in r && r[ids[i]] == NewMilestoneRow(goalId, inputs[i])
    ensures forall m :: m in ms && m !in ids ==> m in r && r[m] == ms[m]
    ensures forall m :: m in r ==> m in ms || m in ids
  {
    ms + map i | 0 <= i < |ids| :: ids[i] := NewMilestoneRow(goalId, inputs[i])
  }

  // ---------------------------------------------------------------- delete-goal

  /** The milestone table after `delete().eq("goal_id", goalId)`. */
  function WithoutGoal(ms: map<Id, MilestoneRow>, goalId: Id): (r: map<Id, MilestoneRow>)
    ensures MilestonesOf(r, goalId) == {}
    ensures forall m :: m in ms && ms[m].goalId != goalId ==> m in r && r[m] == ms[m]
    ensures forall m :: m in r ==> m in ms
  {
    map m | m in ms && ms[m].goalId != goalId :: ms[m]
  }

  // ---------------------------------------------------------------- the store

  class Store {
    var goals: map<Id, GoalRow>
    var milestones: map<Id, MilestoneRow>
    var logs: seq<LogRow>

    /** Progress stays in [0, 100], streaks are never negative, and no milestone outlives its goal. */
    ghost predicate Valid()
      reads this
    {
      && (forall g :: g in goals ==> 0 <= goals[g].progress <= 100 && 0 <= goals[g].streak)
      && (forall m :: m in milestones ==> milestones[m].goalId in goals)
    }

    constructor ()
      ensures Valid()
      ensures goals == map[] && milestones == map[] && logs == []
    {
      goals, milestones, logs := map[], map[], [];
    }

    /** supabase/functions/log-progress: append a log, then write progress, streak and `last_updated`. */
    method LogProgress(caller: Option<Id>, goalId: Option<Id>, notes: Option<string>, now: int,
                       lookupError: Option<string>, insertError: Option<string>,
                       fetchError: Option<string>, updateError: Option<string>)
      returns (resp: Response)
      requires Valid()
      modifies this
      ensures Valid()
      ensures milestones == old(milestones)
      ensures caller.None? ==> resp == Unauthorized
      ensures caller.Some? && !Truthy(goalId) ==> resp == GoalIdRequired
      ensures caller.Some? && Truthy(goalId) && !Admits(old(goals), caller, goalId, lookupError) ==> resp == NotFoundOrDenied
      ensures !Admits(old(goals), caller, goalId, lookupError) ==> goals == old(goals) && logs == old(logs)
      ensures Admits(old(goals), caller, goalId, lookupError) && insertError.Some? ==>
        resp == StoreFailure(insertError.value) && goals == old(goals) && logs == old(logs)
      ensures Admits(old(goals), caller, goalId, lookupError) && insertError.None? ==>
        logs == old(logs) + [LogRow(caller.value, goalId.value, now, OrNull(notes))]
      ensures Admits(old(goals), caller, goalId, lookupError) && insertError.None? && updateError.Some? ==>
        resp == StoreFailure(updateError.value) && goals == old(goals)
      ensures Admits(old(goals), caller, goalId, lookupError) && insertError.None? && updateError.None? ==>
        var written := Logged(old(goals)[goalId.value], old(milestones), goalId.value, fetchError.Some?, now);
        && goals == old(goals)[goalId.value := written]
        && resp == Response(200, ProgressLogged(written.progress, written.streak, now))
    {
      if caller.None? {
        return Unauthorized;
      }
      if !Truthy(goalId) {
        return GoalIdRequired;
      }
      var user, id := caller.value, goalId.value;
      if lookupError.Some? || !Owns(goals, user, id) {
        return NotFoundOrDenied;
      }
      var goal := goals[id];
      var newStreak := NextStreak(goal.streak, goal.lastUpdated, now);
      if insertError.Some? {
        return StoreFailure(insertError.value);
      }
      logs := logs + [LogRow(user, id, now, OrNull(notes))];
      CompletedWithin(milestones, id);
      var progress := LoggedProgress(goal.progress, fetchError.Some?, |CompletedOf(milestones, id)|, |MilestonesOf(milestones, id)|);
      if updateError.Some? {
        return StoreFailure(updateError.value);
      }
      goals := goals[id := goal.(progress := progress, streak := newStreak, lastUpdated := Some(now))];
      resp := Response(200, ProgressLogged(progress, newStreak, now));
    }

    /** supabase/functions/toggle-milestone: set one milestone's flag, then recompute the goal's progress. */
    method ToggleMilestone(caller: Option<Id>, goalId: Option<Id>, milestoneId: Option<Id>, completed: bool, now: int,
                           lookupError: Option<string>, updateError: Option<string>,
                           fetchError: Option<string>, goalUpdateError: Option<string>)
      returns (resp: Response)
      requires Valid()
      modifies this
      ensures Valid()
      ensures logs == old(logs)
      ensures caller.None? ==> resp == Unauthorized
      ensures caller.Some? && !(Truthy(goalId) && Truthy(milestoneId)) ==> resp == IdsRequired
      ensures caller.Some? && Truthy(goalId) && Truthy(milestoneId) && !Admits(old(goals), caller, goalId, lookupError) ==>
        resp == NotFoundOrDenied
      ensures !(Admits(old(goals), caller, goalId, lookupError) && Truthy(milestoneId)) ==>
        goals == old(goals) && milestones == old(milestones)
      ensures Admits(old(goals), caller, goalId, lookupError) && Truthy(milestoneId) && updateError.Some? ==>
        resp == StoreFailure(updateError.value) && goals == old(goals) && milestones == old(milestones)
      ensures Admits(old(goals), caller, goalId, lookupError) && Truthy(milestoneId) && updateError.None? ==>
        milestones == WithCompletion(old(milestones), goalId.value, milestoneId.value, completed, now)
      ensures Admits(old(goals), caller, goalId, lookupError) && Truthy(milestoneId) && updateError.None? && fetchError.Some? ==>
        resp == StoreFailure(fetchError.value) && goals == old(goals)
      ensures Admits(old(goals), caller, goalId, lookupError) && Truthy(milestoneId) && updateError.None? && fetchError.None?
              && goalUpdateError.Some? ==>
        resp == StoreFailure(goalUpdateError.value) && goals == old(goals)
      ensures Admits(old(goals), caller, goalId, lookupError) && Truthy(milestoneId) && updateError.None? && fetchError.None?
              && goalUpdateError.None? ==>
        && goals == old(goals)[goalId.value := Toggled(old(goals)[goalId.value], milestones, goalId.value, now)]
        && resp == Response(200, Succeeded)
    {
      if caller.None? {
        return Unauthorized;
      }
      if !Truthy(goalId) || !Truthy(milestoneId) {
        return IdsRequired;
      }
      var user, id, mid := caller.value, goalId.value, milestoneId.value;
      if lookupError.Some? || !Owns(goals, user, id) {
        return NotFoundOrDenied;
      }
      if updateError.Some? {
        return StoreFailure(updateError.value);
      }
      milestones := WithCompletion(milestones, id, mid, completed, now);
      if fetchError.Some? {
        return StoreFailure(fetchError.value);
      }
      var progress := ProgressAfterToggle(milestones, id);
      if goalUpdateError.Some? {
        return StoreFailure(goalUpdateError.value);
      }
      goals := goals[id := goals[id].(progress := progress, lastUpdated := Some(now))];
      resp := Response(200, Succeeded);
    }

    /** supabase/functions/create-goal: insert the goal, then its milestones if any were given. */
    method CreateGoal(caller: Option<Id>, title: Option<string>, description: Option<string>,
                      inputs: Option<seq<MilestoneInput>>, targetDate: Option<string>,
                      newGoalId: Id, newMilestoneIds: seq<Id>,
                      goalInsertError: Option<string>, milestonesInsertError: Option<string>)
      returns (resp: Response)
      requires Valid()
      requires newGoalId !in goals
      requires inputs.Some? ==> |newMilestoneIds| == |inputs.value|
      requires forall i :: 0 <= i < |newMilestoneIds| ==> newMilestoneIds[i] !in milestones
      requires forall i, j :: 0 <= i < j < |newMilestoneIds| ==> newMilestoneIds[i] != newMilestoneIds[j]
      modifies this
      ensures Valid()
      ensures logs == old(logs)
      ensures caller.None? ==> resp == Unauthorized
      ensures caller.Some? && !Truthy(title) ==> resp == TitleRequired
      ensures !(caller.Some? && Truthy(title) && goalInsertError.None?) ==> goals == old(goals) && milestones == old(milestones)
      ensures caller.Some? && Truthy(title) && goalInsertError.Some? ==> resp == StoreFailure(goalInsertError.value)
      ensures caller.Some? && Truthy(title) && goalInsertError.None? ==>
        var row := NewGoalRow(caller.value, title.value, description, targetDate);
        && goals == old(goals)[newGoalId := row]
        && (!(inputs.Some? && |inputs.value| > 0) ==>
              milestones == old(milestones) && resp == Response(200, GoalCreated(newGoalId, row)))
        && (inputs.Some? && |inputs.value| > 0 && milestonesInsertError.Some? ==>
              milestones == old(milestones) && resp == Response(400, FailureWithGoal(milestonesInsertError.value, newGoalId, row)))
        && (inputs.Some? && |inputs.value| > 0 && milestonesInsertError.None? ==>
              && milestones == InsertMilestones(old(milestones), newMilestoneIds, newGoalId, inputs.value)
              && resp == Response(200, GoalCreated(newGoalId, row)))
    {
      if caller.None? {
        return Unauthorized;
      }
      if !Truthy(title) {
        return TitleRequired;
      }
      if goalInsertError.Some? {
        return StoreFailure(goalInsertError.value);
      }
      var row := NewGoalRow(caller.value, title.value, description, targetDate);
      goals := goals[newGoalId := row];
      if inputs.Some? && |inputs.value| > 0 {
        if milestonesInsertError.Some? {
          return Response(400, FailureWithGoal(milestonesInsertError.value, newGoalId, row));
        }
        milestones := InsertMilestones(milestones, newMilestoneIds, newGoalId, inputs.value);
      }
      resp := Response(200, GoalCreated(newGoalId, row));
    }

    /** supabase/functions/delete-goal: delete the goal's milestones, then the goal. */
    method DeleteGoal(caller: Option<Id>, goalId: Option<Id>,
                      lookupError: Option<string>, milestonesDeleteError: Option<string>, goalDeleteError: Option<string>)
      returns (resp: Response)
      requires Valid()
      modifies this
      ensures Valid()
      ensures logs == old(logs)
      ensures caller.None? ==> resp == Unauthorized
      ensures caller.Some? && !Truthy(goalId) ==> resp == GoalIdRequired
      ensures caller.Some? && Truthy(goalId) && lookupError.Some? ==> resp == StoreFailure(lookupError.value)
      ensures caller.Some? && Truthy(goalId) && lookupError.None? && !Owns(old(goals), caller.value, goalId.value) ==>
        resp == NotFoundOrNotOwned
      ensures !Admits(old(goals), caller, goalId, lookupError) ==> goals == old(goals) && milestones == old(milestones)
      ensures Admits(old(goals), caller, goalId, lookupError) && milestonesDeleteError.Some? ==>
        resp == StoreFailure(milestonesDeleteError.value) && goals == old(goals) && milestones == old(milestones)
      ensures Admits(old(goals), caller, goalId, lookupError) && milestonesDeleteError.None? ==>
        milestones == WithoutGoal(old(milestones), goalId.value)
      ensures Admits(old(goals), caller, goalId, lookupError) && milestonesDeleteError.None? && goalDeleteError.Some? ==>
        resp == StoreFailure(goalDeleteError.value) && goals == old(goals)
      ensures Admits(old(goals), caller, goalId, lookupError) && milestonesDeleteError.None? && goalDeleteError.None? ==>
        goals == old(goals) - {goalId.value} && resp == Response(200, Succeeded)
    {
      if caller.None? {
        return Unauthorized;
      }
      if !Truthy(goalId) {
        return GoalIdRequired;
      }
      var user, id := caller.value, goalId.value;
      if lookupError.Some? {
        return StoreFailure(lookupError.value);
      }
      if !Owns(goals, user, id) {
        return NotFoundOrNotOwned;
      }
      if milestonesDeleteError.Some? {
        return StoreFailure(milestonesDeleteError.value);
      }
      milestones := WithoutGoal(milestones, id);
      if goalDeleteError.Some? {
        return StoreFailure(goalDeleteError.value);
      }
      goals := goals - {id};
      resp := Response(200, Succeeded);
    }
  }
}
