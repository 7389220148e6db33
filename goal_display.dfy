/**
 * What the goal card (src/components/goal-card.tsx) shows, and the two
 * expressions the goal detail and the progress map repeat verbatim: the
 * displayed percentage and "updated today".
 */
module GoalDisplay {
  import opened Wrappers
  import opened ProgressEngine
  import opened Dashboard

  /**
   * `progressPercentage`: the rounded share of completed milestones when the
   * goal has any, otherwise the stored progress.
   */
  function ProgressPercentage(g: Goal): (pct: int)
    ensures |g.milestones| > 0 ==> 0 <= pct <= 100 && pct == RoundPercent(CompletedCount(g.milestones), |g.milestones|)
    ensures |g.milestones| == 0 ==> pct == g.progress
  {
    var completed, total := CompletedCount(g.milestones), |g.milestones|;
    if total > 0 then
      RoundPercentRange(completed, total);
      RoundPercent(completed, total)
    else g.progress
  }

  /** After either local update the percentage on display is the goal's own progress. */
  lemma PercentageShowsLocalUpdates(g: Goal, milestoneId: string, completed: bool, now: int)
    ensures ProgressPercentage(LoggedLocally(g, now)) == LoggedLocally(g, now).progress
    ensures |g.milestones| > 0 ==>
      ProgressPercentage(ToggledLocally(g, milestoneId, completed, now)) == ToggledLocally(g, milestoneId, completed, now).progress
  {
  }

  /** The local calendar day of an instant, for a fixed offset of local time from UTC. */
  function CalendarDay(t: int, utcOffsetMs: int): (day: int)
    ensures day * MsPerDay <= t + utcOffsetMs < (day + 1) * MsPerDay
  {
    (t + utcOffsetMs) / MsPerDay
  }

  /** Instant `t` falls within local day number `d`. */
  predicate InDay(t: int, utcOffsetMs: int, d: int)
  {
    d * MsPerDay <= t + utcOffsetMs < (d + 1) * MsPerDay
  }

  /** Two instants have the same calendar day exactly when some local day holds both. */
  lemma SameCalendarDay(t1: int, t2: int, utcOffsetMs: int)
    ensures CalendarDay(t1, utcOffsetMs) == CalendarDay(t2, utcOffsetMs) <==>
      exists d :: InDay(t1, utcOffsetMs, d) && InDay(t2, utcOffsetMs, d)
  {
    var d1, d2 := CalendarDay(t1, utcOffsetMs), CalendarDay(t2, utcOffsetMs);
    if d1 == d2 {
      assert InDay(t1, utcOffsetMs, d1) && InDay(t2, utcOffsetMs, d1);
    }
    forall d | InDay(t1, utcOffsetMs, d) && InDay(t2, utcOffsetMs, d)
      ensures d1 == d2
    {
      assert d == d1 && d == d2;
    }
  }

  /** `isUpdatedToday`: false when never updated, else `toDateString()` equality of the two instants. */
  function IsUpdatedToday(lastUpdated: Option<int>, now: int, utcOffsetMs: int): (b: bool)
    ensures b <==> lastUpdated.Some? && exists d :: InDay(lastUpdated.value, utcOffsetMs, d) && InDay(now, utcOffsetMs, d)
    ensures b ==> -MsPerDay < now - lastUpdated.value < MsPerDay
  {
    if lastUpdated.None? then false
    else
      SameCalendarDay(lastUpdated.value, now, utcOffsetMs);
      CalendarDay(lastUpdated.value, utcOffsetMs) == CalendarDay(now, utcOffsetMs)
  }

  /** While the log button is disabled, a log would not advance the streak anyway. */
  lemma UpdatedTodayKeepsStreak(last: int, now: int, utcOffsetMs: int, streak: int)
    requires IsUpdatedToday(Some(last), now, utcOffsetMs) && last <= now
    ensures DiffDays(now, last) == 0
    ensures NextStreak(streak, Some(last), now) == streak
  {
  }

  /**
   * The two notions of "day" differ: an update one millisecond before local
   * midnight enables the button after midnight, yet a log then keeps the streak.
   */
  lemma MidnightEnablesButWithoutStreak(k: int, utcOffsetMs: int, streak: int)
    ensures var last := k * MsPerDay - utcOffsetMs - 1;
      !IsUpdatedToday(Some(last), last + 2, utcOffsetMs) && NextStreak(streak, Some(last), last + 2) == streak
  {
    var last := k * MsPerDay - utcOffsetMs - 1;
    var before, after := CalendarDay(last, utcOffsetMs), CalendarDay(last + 2, utcOffsetMs);
    assert before == k - 1;
    assert after == k;
  }

  /** The card's "Log Progress" button: disabled exactly when updated today; a click logs this goal. */
  function LogClick(g: Goal, now: int, utcOffsetMs: int): (call: Option<string>)
    ensures call.Some? <==> !IsUpdatedToday(g.lastUpdated, now, utcOffsetMs)
    ensures call.Some? ==> call.value == g.id
  {
    if IsUpdatedToday(g.lastUpdated, now, utcOffsetMs) then None else Some(g.id)
  }

  /** The button's label. */
  function LogButtonLabel(g: Goal, now: int, utcOffsetMs: int): (caption: string)
    ensures caption == "Logged Today" <==> LogClick(g, now, utcOffsetMs).None?
  {
    if IsUpdatedToday(g.lastUpdated, now, utcOffsetMs) then "Logged Today" else "Log Progress"
  }
}
