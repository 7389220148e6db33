/** The new-goal form (src/components/goal-form.tsx). */
module GoalForm {
  import opened Wrappers
  import opened Seqs
  import opened Dashboard

  // ---------------------------------------------------------------- String.prototype.trim

  /**
   * The characters ECMAScript's `trim` removes: WhiteSpace (tab, vertical tab, form feed,
   * space, no-break space, the byte order mark and the Zs category) and
   * LineTerminator (line feed, carriage return, U+2028, U+2029).
   */
  predicate IsJsWhitespace(c: char)
  {
    var n := c as int;
    (0x09 <= n <= 0x0D) || n == 0x20 || n == 0xA0 || n == 0x1680 || (0x2000 <= n <= 0x200A)
    || n == 0x2028 || n == 0x2029 || n == 0x202F || n == 0x205F || n == 0x3000 || n == 0xFEFF
  }

  predicate Blank(s: string)
  {
    forall i :: 0 <= i < |s| ==> IsJsWhitespace(s[i])
  }

  /** Drops leading whitespace: the result is a suffix of `s` that does not start with whitespace. */
  function TrimStart(s: string): (r: string)
    ensures |r| <= |s| && r == s[|s| - |r|..]
    ensures forall i :: 0 <= i < |s| - |r| ==> IsJsWhitespace(s[i])
    ensures r == [] || !IsJsWhitespace(r[0])
  {
    if s == [] || !IsJsWhitespace(s[0]) then s else TrimStart(s[1..])
  }

  /** Drops trailing whitespace: the result is a prefix of `s` that does not end with whitespace. */
  function TrimEnd(s: string): (r: string)
    ensures |r| <= |s| && r == s[..|r|]
    ensures forall i :: |r| <= i < |s| ==> IsJsWhitespace(s[i])
    ensures r == [] || !IsJsWhitespace(r[|r| - 1])
  {
    if s == [] || !IsJsWhitespace(s[|s| - 1]) then s else TrimEnd(s[..|s| - 1])
  }

  /** `s.trim()`: whitespace removed from both ends, nothing else. */
  function Trim(s: string): (r: string)
    ensures |r| <= |s|
    ensures r == [] || (!IsJsWhitespace(r[0]) && !IsJsWhitespace(r[|r| - 1]))
    ensures exists k :: TrimmedAt(s, r, k)
  {
    TrimWitness(s);
    TrimEnd(TrimStart(s))
  }

  /** `r` is `s` with exactly the first `k` and the last `|s| - k - |r|` characters, all whitespace, removed. */
  predicate TrimmedAt(s: string, r: string, k: int)
  {
    0 <= k <= |s| - |r| && r == s[k..k + |r|] && Blank(s[..k]) && Blank(s[k + |r|..])
  }

  /** TrimStart removes a blank prefix. */
  lemma TrimStartDropsBlank(s: string)
    ensures Blank(s[..|s| - |TrimStart(s)|])
  {
    var k := |s| - |TrimStart(s)|;
    forall i | 0 <= i < k
      ensures IsJsWhitespace(s[..k][i])
    {
      assert s[..k][i] == s[i];
    }
  }

  /** TrimEnd removes a blank suffix. */
  lemma TrimEndDropsBlank(t: string)
    ensures Blank(t[|TrimEnd(t)|..])
  {
    var n := |TrimEnd(t)|;
    forall i | 0 <= i < |t| - n
      ensures IsJsWhitespace(t[n..][i])
    {
      assert t[n..][i] == t[n + i];
    }
  }

  /** Dropping a blank prefix and then a blank suffix trims at the prefix's length. */
  lemma TrimmedInTwoSteps(s: string, t: string, r: string, k: int)
    requires 0 <= k <= |s| && t == s[k..] && Blank(s[..k])
    requires |r| <= |t| && r == t[..|r|] && Blank(t[|r|..])
    ensures TrimmedAt(s, r, k)
  {
    assert s[k + |r|..] == t[|r|..];
  }

  lemma TrimWitness(s: string)
    ensures TrimmedAt(s, TrimEnd(TrimStart(s)), |s| - |TrimStart(s)|)
  {
    var t := TrimStart(s);
    TrimStartDropsBlank(s);
    TrimEndDropsBlank(t);
    TrimmedInTwoSteps(s, t, TrimEnd(t), |s| - |t|);
  }






  /** `s.trim() !== ""` exactly when `s` holds a character other than whitespace. */
  lemma TrimEmptyIffBlank(s: string)
    ensures Trim(s) == "" <==> Blank(s)
  {
    var t := TrimStart(s);
    if Trim(s) == "" {
      forall i | 0 <= i < |s|
        ensures IsJsWhitespace(s[i])
      {
      }
    } else {
      var r := Trim(s);
      assert r[0] == t[0];
      assert !IsJsWhitespace(r[0]) by {
        if |r| == |t| {
        } else {
          assert r[|r| - 1] == t[|r| - 1];
        }
      }
      assert s[|s| - |t|] == t[0];
    }
  }

  // ---------------------------------------------------------------- the form's state

  /** A change to one field of a milestone, as `updateMilestone(id, field, value)` makes it. */
  datatype FieldUpdate = SetId(id: string) | SetTitle(title: string) | SetDescription(description: string) | SetCompleted(completed: bool)

  function ApplyUpdate(m: Milestone, u: FieldUpdate): (r: Milestone)
    ensures u.SetId? ==> r == m.(id := u.id)
    ensures u.SetTitle? ==> r == m.(title := u.title)
    ensures u.SetDescription? ==> r == m.(description := u.description)
    ensures u.SetCompleted? ==> r == m.(completed := u.completed)
  {
    match u
    case SetId(v) => m.(id := v)
    case SetTitle(v) => m.(title := v)
    case SetDescription(v) => m.(description := v)
    case SetCompleted(v) => m.(completed := v)
  }

  /** A milestone survives submission only with a title that is not blank. */
  predicate HasTitle(m: Milestone)
  {
    Trim(m.title) != ""
  }

  predicate IdIsNot(id: string, m: Milestone)
  {
    m.id != id
  }

  /** The object `handleSubmit` hands to `onSubmit`; the dates are instants. */
  datatype GoalDraft = GoalDraft(
    title: string,
    description: string,
    milestones: seq<Milestone>,
    createdAt: int,
    targetDate: Option<int>,
    progress: int,
    streak: int,
    lastUpdated: Option<int>)

  class GoalFormState {
    var title: string
    var description: string
    var milestones: seq<Milestone>
    var date: Option<int>

    /** A fresh form: empty fields, no milestones, the target date preset to now. */
    constructor (now: int)
      ensures title == "" && description == "" && milestones == [] && date == Some(now)
    {
      title, description, milestones, date := "", "", [], Some(now);
    }

    method EditTitle(value: string)
      modifies this
      ensures title == value
      ensures description == old(description) && milestones == old(milestones) && date == old(date)
    {
      title := value;
    }

    method EditDescription(value: string)
      modifies this
      ensures description == value
      ensures title == old(title) && milestones == old(milestones) && date == old(date)
    {
      description := value;
    }

    /** The calendar's `onSelect`, which may also clear the date. */
    method SelectDate(value: Option<int>)
      modifies this
      ensures date == value
      ensures title == old(title) && description == old(description) && milestones == old(milestones)
    {
      date := value;
    }

    /** `addMilestone`: appends an empty, open milestone whose id is the click time `newId`. */
    method AddMilestone(newId: string)
      modifies this
      ensures milestones == old(milestones) + [Milestone(newId, "", "", false)]
      ensures title == old(title) && description == old(description) && date == old(date)
    {
      milestones := milestones + [Milestone(newId, "", "", false)];
    }

    /** `updateMilestone`: every milestone carrying `id` gets the update, the others stay. */
    method UpdateMilestone(id: string, u: FieldUpdate)
      modifies this
      ensures |milestones| == |old(milestones)|
      ensures forall i :: 0 <= i < |milestones| ==>
        milestones[i] == if old(milestones)[i].id == id then ApplyUpdate(old(milestones)[i], u) else old(milestones)[i]
      ensures title == old(title) && description == old(description) && date == old(date)
    {
      milestones := seq(|milestones|, i requires 0 <= i < |milestones| reads this =>
        if milestones[i].id == id then ApplyUpdate(milestones[i], u) else milestones[i]);
    }

    /** `removeMilestone`: drops every milestone carrying `id` and keeps the rest in order. */
    method RemoveMilestone(id: string)
      modifies this
      ensures milestones == Filter(old(milestones), m => IdIsNot(id, m))
      ensures forall m :: m in milestones <==> m in old(milestones) && m.id != id
      ensures title == old(title) && description == old(description) && date == old(date)
    {
      milestones := Filter(milestones, m => IdIsNot(id, m));
    }

    /**
     * `handleSubmit`. The title input is `required`, so an empty title never
     * reaches it. Otherwise it builds a draft with zero progress and streak,
     * never updated, keeping only milestones with a title that is not blank.
     * The fields are reset only when `onSubmit` returned normally.
     */
    method HandleSubmit(now: int, submitFails: bool) returns (draft: Option<GoalDraft>)
      modifies this
      ensures draft.None? <==> old(title) == ""
      ensures draft.Some? ==>
                draft.value == GoalDraft(old(title), old(description), Filter(old(milestones), HasTitle), now, old(date), 0, 0, None)
      ensures draft.Some? ==> forall m :: m in draft.value.milestones <==> m in old(milestones) && !Blank(m.title)
      ensures draft.Some? && !submitFails ==> title == "" && description == "" && milestones == [] && date == Some(now)
      ensures draft.None? || submitFails ==>
                title == old(title) && description == old(description) && milestones == old(milestones) && date == old(date)
    {
      if title == "" {
        return None;
      }
      var kept := Filter(milestones, HasTitle);
      forall m | m in milestones
        ensures HasTitle(m) <==> !Blank(m.title)
      {
        TrimEmptyIffBlank(m.title);
      }
      draft := Some(GoalDraft(title, description, kept, now, date, 0, 0, None));
      if !submitFails {
        title, description, milestones, date := "", "", [], Some(now);
      }
    }
  }

  /** Removing a milestone just added, under an id no other milestone has, restores the list. */
  lemma RemoveUndoesAdd(ms: seq<Milestone>, newId: string)
    requires forall m :: m in ms ==> m.id != newId
    ensures Filter(ms + [Milestone(newId, "", "", false)], m => IdIsNot(newId, m)) == ms
  {
    var keep := (m: Milestone) => IdIsNot(newId, m);
    FilterConcat(ms, [Milestone(newId, "", "", false)], keep);
    FilterKeepsAll(ms, keep);
    FilterKeepsNone([Milestone(newId, "", "", false)], keep);
  }

  /** Two clicks within one millisecond give two milestones the same id; removing either removes both. */
  lemma SameMillisecondIdsRemovedTogether(ms: seq<Milestone>, newId: string)
    ensures var twice := ms + [Milestone(newId, "", "", false)] + [Milestone(newId, "", "", false)];
      forall m :: m in Filter(twice, m => IdIsNot(newId, m)) ==> m.id != newId
  {
  }
}
