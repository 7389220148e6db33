/** The progress map (src/components/goal-progress-map.tsx): milestone markers, the drawn path and its animation. */
module GoalProgressMap {
  import opened Dashboard
  import opened GoalDisplay

  /** `((index + 1) / (count + 1)) * 100`: where the `index`-th of `count` markers sits, in percent of the width. */
  function MarkerPosition(index: nat, count: nat): (pos: real)
    requires index < count
    ensures 0.0 < pos < 100.0
  {
    (index + 1) as real / (count + 1) as real * 100.0
  }

  /** Later milestones sit further along the path. */
  lemma MarkersIncrease(i: nat, j: nat, count: nat)
    requires i < j < count
    ensures MarkerPosition(i, count) < MarkerPosition(j, count)
  {
    var d := (count + 1) as real;
    assert (i + 1) as real / d < (j + 1) as real / d;
  }

  /** `800 - (800 * p) / 100`: the dash offset that reveals `p` percent of the 800-unit path. */
  function DashOffset(p: real): (offset: real)
    ensures p == 0.0 ==> offset == 800.0
    ensures p == 100.0 ==> offset == 0.0
    ensures 0.0 <= p <= 100.0 ==> 0.0 <= offset <= 800.0
  {
    800.0 - (800.0 * p) / 100.0
  }

  /** More progress reveals more of the path. */
  lemma DashOffsetDecreasing(p: real, q: real)
    requires p < q
    ensures DashOffset(q) < DashOffset(p)
  {
  }

  /** The `animateProgress` state. */
  class ProgressAnimation {
    var animateProgress: int

    constructor ()
      ensures animateProgress == 0
    {
      animateProgress := 0;
    }

    /** The timer callback sets the animated value to the stored progress, not the displayed percentage. */
    method TimerFired(g: Goal)
      modifies this
      ensures animateProgress == g.progress
    {
      animateProgress := g.progress;
    }
  }

  /**
   * The path and the percentage label can disagree: with one of two milestones
   * done and 30 stored, the label reads 50 while the path animates to 30.
   */
  lemma PathFollowsStoredProgress()
    ensures var g := Goal("g", "t", "", 30, 0,
                          [Milestone("a", "A", "", true), Milestone("b", "B", "", false)], "", Wrappers.None, Wrappers.None);
      ProgressPercentage(g) == 50 && g.progress == 30
  {
    var ms := [Milestone("a", "A", "", true), Milestone("b", "B", "", false)];
    assert ms == [ms[0]] + [ms[1]];
    Seqs.FilterConcat([ms[0]], [ms[1]], IsCompleted);
    ProgressEngine.RoundPercentExamples();
    assert CompletedCount(ms) == 1;
  }
}
