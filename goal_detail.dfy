/** The goal detail view (src/components/goal-detail.tsx): dates, the progress note and the milestone checkboxes. */
module GoalDetail {
  import opened Wrappers
  import opened Dashboard
  import opened GoalDisplay

  /** What `formatDate` shows: "Not started" for an empty string, else the formatted date. */
  datatype DateLabel = NotStarted | Formatted(iso: string)

  function FormatDate(dateString: string): (shown: DateLabel)
    ensures shown == NotStarted <==> dateString == ""
    ensures shown.Formatted? ==> shown.iso == dateString
  {
    if dateString == "" then NotStarted else Formatted(dateString)
  }

  /** The call `onLogProgress(goal.id, progressNote)`. */
  datatype LogCall = LogCall(goalId: string, note: string)

  /** The call `onToggleMilestone(goal.id, milestone.id, checked)`. */
  datatype ToggleCall = ToggleCall(goalId: string, milestoneId: string, completed: bool)

  /** The checkbox of the `index`-th milestone forwards the goal's id, that milestone's id and the new state. */
  function CheckboxChange(g: Goal, index: nat, checked: bool): (call: ToggleCall)
    requires index < |g.milestones|
    ensures call.goalId == g.id && call.milestoneId == g.milestones[index].id && call.completed == checked
  {
    ToggleCall(g.id, g.milestones[index].id, checked)
  }

  /** Forwarded to the dashboard, a checkbox change leaves that milestone in the state the user chose. */
  lemma CheckboxShowsChoice(g: Goal, index: nat, checked: bool, now: int)
    requires index < |g.milestones|
    ensures var call := CheckboxChange(g, index, checked);
      ToggledLocally(g, call.milestoneId, call.completed, now).milestones[index].completed == checked
  {
  }

  /** The `progressNote` state behind the note textarea. */
  class NoteBox {
    var progressNote: string

    constructor ()
      ensures progressNote == ""
    {
      progressNote := "";
    }

    /** Typing into the textarea; it is disabled, so nothing changes, once the goal was updated today. */
    method Type(text: string, g: Goal, now: int, utcOffsetMs: int)
      modifies this
      ensures progressNote == if IsUpdatedToday(g.lastUpdated, now, utcOffsetMs) then old(progressNote) else text
    {
      if !IsUpdatedToday(g.lastUpdated, now, utcOffsetMs) {
        progressNote := text;
      }
    }

    /**
     * Clicking "Log Daily Progress": disabled under the same condition as the
     * textarea; otherwise it passes the current note on and clears it.
     */
    method Submit(g: Goal, now: int, utcOffsetMs: int) returns (call: Option<LogCall>)
      modifies this
      ensures IsUpdatedToday(g.lastUpdated, now, utcOffsetMs) ==> call.None? && progressNote == old(progressNote)
      ensures !IsUpdatedToday(g.lastUpdated, now, utcOffsetMs) ==> call == Some(LogCall(g.id, old(progressNote))) && progressNote == ""
    {
      if IsUpdatedToday(g.lastUpdated, now, utcOffsetMs) {
        return None;
      }
      call := Some(LogCall(g.id, progressNote));
      progressNote := "";
    }
  }
}
