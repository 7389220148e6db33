/**
 * The progress and streak rules shared by the log-progress and toggle-milestone
 * edge functions and by the dashboard's optimistic local copy of them.
 * Instants are integer milliseconds since the epoch.
 */
module ProgressEngine {
  import opened Wrappers

  /** `1000 * 60 * 60 * 24`: milliseconds in a day. */
  const MsPerDay: int := 86_400_000

  /**
   * `Math.floor((now - last) / MsPerDay)`. Dafny's `/` with a positive divisor
   * rounds toward negative infinity, as `Math.floor` does, also when `now < last`.
   */
  function DiffDays(now: int, last: int): (d: int)
    ensures d * MsPerDay <= now - last < (d + 1) * MsPerDay
  {
    (now - last) / MsPerDay
  }

  /**
   * The streak after a progress log at `now`, given the stored streak and the
   * instant of the previous update (absent when the goal was never updated).
   * A log one whole day after the last update continues the streak, two or
   * more whole days break it, and anything shorter (including a clock that
   * went backwards) keeps it.
   */
  function NextStreak(streak: int, lastUpdated: Option<int>, now: int): (r: int)
    ensures lastUpdated.None? ==> r == 1
    ensures lastUpdated.Some? && MsPerDay <= now - lastUpdated.value < 2 * MsPerDay ==> r == streak + 1
    ensures lastUpdated.Some? && 2 * MsPerDay <= now - lastUpdated.value ==> r == 1
    ensures lastUpdated.Some? && now - lastUpdated.value < MsPerDay ==> r == streak
  {
    match lastUpdated
    case None => 1
    case Some(last) =>
      var diffDays := DiffDays(now, last);
      if diffDays == 1 then streak + 1
      else if diffDays > 1 then 1
      else streak
  }

  /**
   * `Math.round((completed / total) * 100)`, computed exactly on integers as
   * `(200 * completed + total) / (2 * total)`: the nearest integer to
   * 100 * completed / total, halves rounded up. (The source evaluates
   * `(completed / total) * 100` in floating point before rounding.)
   */
  function RoundPercent(completed: nat, total: nat): (r: nat)
    requires 0 < total
    ensures 2 * total * r <= 200 * completed + total < 2 * total * (r + 1)
  {
    (200 * completed + total) / (2 * total)
  }

  lemma MulMono(k: int, a: int, b: int)
    requires 0 <= k && a <= b
    ensures k * a <= k * b
  {
    assert k * b - k * a == k * (b - a);
  }

  /** With no more completed milestones than milestones, the percentage is between 0 and 100. */
  lemma RoundPercentRange(completed: nat, total: nat)
    requires 0 < total && completed <= total
    ensures 0 <= RoundPercent(completed, total) <= 100
  {
    var r, d := RoundPercent(completed, total), 2 * total;
    if r > 100 {
      MulMono(d, 101, r);
      assert false;
    }
  }

  /** No milestone completed gives 0; every milestone completed gives 100. */
  lemma RoundPercentExtremes(total: nat)
    requires 0 < total
    ensures RoundPercent(0, total) == 0
    ensures RoundPercent(total, total) == 100
  {
    var d := 2 * total;
    var z := RoundPercent(0, total);
    if z > 0 {
      MulMono(d, 1, z);
      assert false;
    }
    var h := RoundPercent(total, total);
    if h < 100 {
      MulMono(d, h + 1, 100);
      assert false;
    }
    if h > 100 {
      MulMono(d, 101, h);
      assert false;
    }
  }

  /** Completing more milestones never lowers the percentage. */
  lemma RoundPercentMonotone(c1: nat, c2: nat, total: nat)
    requires 0 < total && c1 <= c2
    ensures RoundPercent(c1, total) <= RoundPercent(c2, total)
  {
    var r1, r2, d := RoundPercent(c1, total), RoundPercent(c2, total), 2 * total;
    if r1 > r2 {
      MulMono(d, r2 + 1, r1);
      assert false;
    }
  }

  /** Worked values: 1 of 4 is 25, 2 of 4 is 50, 1 of 8 (12.5) rounds up to 13, 1 of 3 is 33, 2 of 3 is 67. */
  lemma RoundPercentExamples()
    ensures RoundPercent(1, 4) == 25 && RoundPercent(2, 4) == 50
    ensures RoundPercent(1, 8) == 13
    ensures RoundPercent(1, 3) == 33 && RoundPercent(2, 3) == 67
  {
  }

  /** `Math.min(100, progress + 5)`: the flat increment a log gives a goal without milestones. */
  function IncrementedProgress(progress: int): (r: int)
    ensures progress + 5 <= 100 ==> r == progress + 5
    ensures 100 < progress + 5 ==> r == 100
    ensures r <= 100
    ensures progress <= 100 ==> progress <= r
  {
    if progress + 5 < 100 then progress + 5 else 100
  }

  /**
   * The progress a log writes: the rounded share of completed milestones when
   * the goal's milestones could be read and there is at least one, otherwise
   * the flat increment of the stored progress.
   */
  function LoggedProgress(stored: int, fetchFailed: bool, completed: nat, total: nat): (r: int)
    requires completed <= total
    ensures 0 <= stored <= 100 ==> 0 <= r <= 100
    ensures !fetchFailed && 0 < total ==> 0 <= r <= 100 && r == RoundPercent(completed, total)
    ensures fetchFailed || total == 0 ==> r == IncrementedProgress(stored)
  {
    if fetchFailed || total == 0 then IncrementedProgress(stored)
    else
      RoundPercentRange(completed, total);
      RoundPercent(completed, total)
  }

  /** When the milestones decide, the stored progress plays no part in the result. */
  lemma LoggedProgressIgnoresStored(s1: int, s2: int, completed: nat, total: nat)
    requires completed <= total && 0 < total
    ensures LoggedProgress(s1, false, completed, total) == LoggedProgress(s2, false, completed, total)
  {
  }

  /** A goal's progress fields as one progress log sees them. */
  datatype Tally = Tally(progress: int, streak: int, lastUpdated: Option<int>)

  /** One progress log at `now` on a goal without milestones. */
  function LogWithoutMilestones(t: Tally, now: int): (r: Tally)
    ensures r.progress == IncrementedProgress(t.progress)
    ensures r.streak == NextStreak(t.streak, t.lastUpdated, now)
    ensures r.lastUpdated == Some(now)
  {
    Tally(LoggedProgress(t.progress, false, 0, 0), NextStreak(t.streak, t.lastUpdated, now), Some(now))
  }

  /**
   * A new goal without milestones logged on three consecutive days (each log
   * between one and two days after the previous) ends at progress 15, streak 3.
   */
  lemma ThreeConsecutiveDays(t0: int, t1: int, t2: int)
    requires MsPerDay <= t1 - t0 < 2 * MsPerDay
    requires MsPerDay <= t2 - t1 < 2 * MsPerDay
    ensures LogWithoutMilestones(LogWithoutMilestones(LogWithoutMilestones(Tally(0, 0, None), t0), t1), t2)
            == Tally(15, 3, Some(t2))
  {
  }

  /** Two logs less than a day apart count once: the second keeps the streak. */
  lemma SameDayRelogKeepsStreak(t: Tally, t1: int, t2: int)
    requires 0 <= t2 - t1 < MsPerDay
    ensures LogWithoutMilestones(LogWithoutMilestones(t, t1), t2).streak == LogWithoutMilestones(t, t1).streak
  {
  }

  /** However long the previous streak, a log three days after the last update restarts it at 1. */
  lemma GapResetsStreak(streak: int, last: int)
    ensures NextStreak(streak, Some(last), last + 3 * MsPerDay) == 1
  {
  }
}
