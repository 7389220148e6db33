# Goal tracker: progress, streaks and goal views in Dafny

This project models the core of a goal-tracking web application. Users
create goals, optionally split into milestones. They log daily progress and
keep a streak of consecutive days. Four Supabase edge functions write to the
store:

- **log-progress** advances the streak and recomputes the progress;
- **toggle-milestone** checks or unchecks a milestone and recomputes the progress;
- **create-goal** inserts a goal and its milestones;
- **delete-goal** removes a goal and its milestones.

The React components show the goals, keep an optimistic local copy of the
two progress rules, and provide the forms around them.

Modules, one per part of the program:

- `ProgressEngine` (`progress_engine.dfy`): the shared rules.
  - Streak: a log one whole day (86 400 000 ms, floored) after the last
    update continues the streak; two or more whole days restart it at 1;
    anything less keeps it; a goal that was never updated starts at 1.
  - Progress: the rounded share of completed milestones, or a flat
    `min(100, p + 5)` for a goal without milestones.
  - `Math.round(100 * c / n)` is written as an exact integer formula, halves
    rounded up.
- `Store` (`store.dfy`): the database (goals, milestones and progress logs)
  as a class with three fields, and the four edge functions as its methods.
  - Every outcome of a failing store call is a parameter.
  - The signed-in user is an optional caller id.
  - Generated ids are parameters.
  - Each method states the exact new state and response on every path,
    including the partial writes that the code leaves behind when a later
    call fails.
- `Dashboard` (`dashboard.dfy`): the dashboard's goal list.
  - The defaults applied to fetched rows.
  - The local log and toggle updates, which are applied whether or not the
    server call failed.
  - The in-progress and completed tabs.
- `GoalDisplay`, `GoalDetail`, `GoalProgressMap` (`goal_display.dfy`,
  `goal_detail.dfy`, `goal_progress_map.dfy`): the displayed percentage, the
  "updated today" test behind the disabled log buttons, the progress note,
  the milestone checkboxes, marker positions and the path's dash offset.
- `GoalForm` (`goal_form.dfy`): the new-goal form as a class with its
  state fields. It includes ECMAScript's `String.prototype.trim`.
- `Initials`, `Settings`, `Pricing`, `Achievements`: avatar initials, the
  settings form and its save sequence, the plan feature list, and the
  achievement lists.
- `Seqs`, `Wrappers`: `Array.prototype.filter` on sequences, and an
  `Option` type with JavaScript truthiness for optional strings.

Instants are integer milliseconds. The local calendar day of an instant is
`(t + offset) / 86 400 000` for a fixed offset from UTC.

The detail view calls `onLogProgress(goal.id, progressNote)`
(src/components/goal-detail.tsx:247). The dashboard's handler takes only the
goal id, and sends only that (src/components/goal-dashboard.tsx:164-171). The
note is therefore never sent, and log rows written from the UI carry a null
note.

## Model

| member | source | states |
|---|---|---|
| ProgressEngine.DiffDays | supabase/functions/log-progress/index.ts:77-79 | the whole days between two instants, floored: `d` days is at most the gap and `d + 1` days exceed it, also for negative gaps |
| ProgressEngine.NextStreak | supabase/functions/log-progress/index.ts:69-89 | never updated gives 1; a gap of one to two days continues the streak; two days or more restart it at 1; less than one day, including a clock running backwards, keeps it |
| ProgressEngine.RoundPercent | supabase/functions/log-progress/index.ts:121-122 | the result is the nearest integer to 100·completed/total, halves rounded up (a two-sided bound) |
| ProgressEngine.RoundPercentRange | supabase/functions/log-progress/index.ts:119-123 | with completed ≤ total, the rounded percentage lies in [0, 100] |
| ProgressEngine.RoundPercentExtremes | supabase/functions/toggle-milestone/index.ts:101-106 | none completed gives 0; all completed gives 100 |
| ProgressEngine.RoundPercentMonotone | supabase/functions/toggle-milestone/index.ts:101-106 | more completed milestones of the same total never give a lower percentage |
| ProgressEngine.RoundPercentExamples | supabase/functions/log-progress/index.ts:122 | 1/4 → 25, 2/4 → 50, 1/8 → 13, 1/3 → 33, 2/3 → 67 |
| ProgressEngine.IncrementedProgress | supabase/functions/log-progress/index.ts:115-118 | exactly old+5 when that is at most 100, else 100; so never above 100, and never below an old value that was at most 100 |
| ProgressEngine.LoggedProgress | supabase/functions/log-progress/index.ts:114-123 | the milestone ratio when milestones were read and exist, else the flat increment; the result stays in [0, 100] |
| ProgressEngine.LoggedProgressIgnoresStored | supabase/functions/log-progress/index.ts:119-123 | when milestones decide, the stored progress does not affect the result |
| ProgressEngine.LogWithoutMilestones | supabase/functions/log-progress/index.ts:125-133 | one log on a goal without milestones sets progress to old+5 capped at 100, the streak by NextStreak, and `last_updated` to the log time |
| ProgressEngine.ThreeConsecutiveDays | supabase/functions/log-progress/index.ts:69-123 | a new goal without milestones, logged on three consecutive days, ends at progress 15 and streak 3 |
| ProgressEngine.SameDayRelogKeepsStreak | supabase/functions/log-progress/index.ts:88 | a second log within a day keeps the streak the first log set |
| ProgressEngine.GapResetsStreak | supabase/functions/log-progress/index.ts:84-87 | a log three days after the last update restarts any streak at 1 |
| Store.Logged | supabase/functions/log-progress/index.ts:125-133 | the row log-progress writes changes only progress, streak (by NextStreak) and `last_updated`; it keeps progress in [0, 100] and a non-negative streak |
| Store.LoggedProgressRule | supabase/functions/log-progress/index.ts:108-123 | with milestones, progress is exactly their rounded completion share; without them, or when they could not be read, it is exactly old+5 capped at 100, and never falls |
| Store.WithCompletion | supabase/functions/toggle-milestone/index.ts:72-79 | only the milestone with that id and that goal id changes: its flag is set and `completed_at` is the time when checked and null when unchecked; the key set is unchanged |
| Store.ProgressAfterToggle | supabase/functions/toggle-milestone/index.ts:88-106 | with milestones, the rounded share of completed milestones over all of the goal's milestones; 0 without milestones; always in [0, 100]; 0 when none are completed and 100 when all are |
| Store.Toggled | supabase/functions/toggle-milestone/index.ts:108-115 | the goal row toggle-milestone writes changes only progress (to ProgressAfterToggle) and `last_updated` (to the toggle time); the streak and every other column are kept |
| Store.ToggleIdempotent | supabase/functions/toggle-milestone/index.ts:72-106 | setting the same flag twice changes nothing except `completed_at`, and leaves the same progress |
| Store.ToggleMovesProgressWithFlag | supabase/functions/toggle-milestone/index.ts:101-106 | checking a milestone never lowers its goal's progress; unchecking one never raises it |
| Store.LogAfterToggleKeepsZeroStreak | supabase/functions/log-progress/index.ts:72-89 | a never-logged goal whose milestone was toggled and which is logged within a day keeps streak 0, where without the toggle it would get 1 |
| Store.Owns | supabase/functions/log-progress/index.ts:51-56 | the lookup by goal id and user id finds a row exactly when the goal exists and belongs to that user |
| Store.Admits | supabase/functions/log-progress/index.ts:33-66 | a request without a user, without a goal id or with a failed lookup is refused; a signed-in caller with a goal id and a successful lookup is admitted exactly when the goal exists and is theirs |
| Store.OnlyOwnerAdmitted | supabase/functions/log-progress/index.ts:51-66 | two callers admitted to the same goal are the same user |
| Store.NewGoalRow | supabase/functions/create-goal/index.ts:51-63 | the inserted goal belongs to the caller, has progress 0, streak 0, no notes and no `last_updated`; it keeps the given title and description, and the target date when one was given, else null |
| Store.NewMilestoneRow | supabase/functions/create-goal/index.ts:74-79 | each milestone row belongs to the new goal and keeps its title; a given description is kept and a falsy one becomes null; completed only if given as true; no `completed_at` |
| Store.InsertMilestones | supabase/functions/create-goal/index.ts:73-83 | every input gets its row under its id; existing rows stay; nothing else is added |
| Store.WithoutGoal | supabase/functions/delete-goal/index.ts:76-79 | no milestone of the goal remains; every other goal's milestones stay unchanged; nothing is added |
| Store.Store.LogProgress | supabase/functions/log-progress/index.ts:33-151 | checks run in order: 401, then 400 for a missing id, then 404 when the goal is missing or not the caller's, with nothing written. The log row is appended before the goal update. An insert failure returns 400 with nothing written. An update failure returns 400 with the log kept and the goal unchanged. Success writes Logged and reports the values it wrote |
| Store.Store.ToggleMilestone | supabase/functions/toggle-milestone/index.ts:33-126 | the same 401, 400 and 404 order. The milestone is updated first. The fetch or goal-update failures return 400 after that write. Success writes Toggled |
| Store.Store.CreateGoal | supabase/functions/create-goal/index.ts:33-98 | 401, then 400 for a falsy title. The goal is inserted, then its milestones only when the list is non-empty. A milestone failure returns 400 together with the goal, which stays in the store |
| Store.Store.DeleteGoal | supabase/functions/delete-goal/index.ts:33-104 | 401, then 400. A lookup error returns 400 with its message; a goal that is not the caller's returns 404. Milestones are deleted before the goal: a failed goal delete leaves the goal but not its milestones. Success removes both and touches nothing else |
| Dashboard.CompletedCount | src/components/goal-dashboard.tsx:214-216 | the completed milestones never outnumber all milestones |
| Dashboard.LoggedLocally | src/components/goal-dashboard.tsx:186-228 | the local log changes only progress, streak and `lastUpdated`, with the server's streak rule and the ratio-or-increment progress rule |
| Dashboard.SetCompleted | src/components/goal-dashboard.tsx:263-267 | same length; only milestones with the id get the new flag; the rest are unchanged |
| Dashboard.ToggledLocally | src/components/goal-dashboard.tsx:260-282 | the local toggle changes only milestones, progress and `lastUpdated`; the progress is the rounded share of the updated milestones, in [0, 100]; the streak is untouched |
| Dashboard.ToggleAllOrNothing | src/components/goal-dashboard.tsx:270-275 | for any goal with milestones, a toggle that leaves every milestone checked shows 100, and one that leaves none checked shows 0 |
| Dashboard.LocalLogMatchesServer | src/components/goal-dashboard.tsx:193-221 | from the same stored values and milestone counts, the local log and log-progress write the same progress, streak and timestamp |
| Dashboard.OrZero | src/components/goal-dashboard.tsx:68-69 | the fetch's zero default: a present number is kept and a missing one reads as 0 |
| Dashboard.ToMilestone | src/components/goal-dashboard.tsx:71-76 | a fetched milestone keeps id and title; its description is the fetched one, or "" when missing or empty; it is completed only if the fetched flag is true |
| Dashboard.ToGoal | src/components/goal-dashboard.tsx:64-79 | a fetched goal keeps id, title, creation and update times; description, progress and streak are the fetched values, or "", 0, 0 when missing; the milestones are converted in order, or [] when missing; it never has a target date |
| Dashboard.InProgressTab | src/components/goal-dashboard.tsx:374-377 | the "In Progress" tab holds exactly the goals with progress below 100 |
| Dashboard.CompletedTab | src/components/goal-dashboard.tsx:405-408 | the "Completed" tab holds exactly the goals with progress 100 |
| Dashboard.TabsPartition | src/components/goal-dashboard.tsx:374-410 | for progress at most 100, the in-progress tab (< 100) and the completed tab (= 100) together hold every goal exactly once |
| Dashboard.GoalDashboard.constructor | src/components/goal-dashboard.tsx:34 | the dashboard starts with no goals |
| Dashboard.GoalDashboard.LoadFetched | src/components/goal-dashboard.tsx:62-80 | the list becomes the fetched rows, converted one by one in order |
| Dashboard.GoalDashboard.HandleLogProgress | src/components/goal-dashboard.tsx:164-233 | a server error only shows a toast; the goals with the id are updated locally either way, and the others are unchanged |
| Dashboard.GoalDashboard.HandleToggleMilestone | src/components/goal-dashboard.tsx:235-287 | a server error only shows a toast; the goals with the id are toggled locally either way, and the others are unchanged |
| GoalDisplay.ProgressPercentage | src/components/goal-card.tsx:45-50 | with milestones, the rounded completion share, in [0, 100]; without them, the stored progress. The same expression appears at src/components/goal-detail.tsx:66-71 and src/components/goal-progress-map.tsx:41-46 |
| GoalDisplay.PercentageShowsLocalUpdates | src/components/goal-card.tsx:45-50 | after a local log or toggle, the displayed percentage equals the goal's progress |
| GoalDisplay.CalendarDay | src/components/goal-card.tsx:64-67 | the day is the one whose local-time window contains the instant |
| GoalDisplay.SameCalendarDay | src/components/goal-card.tsx:64-67 | two instants give the same calendar day exactly when one local day holds both |
| GoalDisplay.IsUpdatedToday | src/components/goal-card.tsx:61-68 | true exactly when the goal was updated and one local calendar day holds both the update and now; then the two instants are less than a day apart. The same test appears at src/components/goal-detail.tsx:83-90 |
| GoalDisplay.UpdatedTodayKeepsStreak | src/components/goal-card.tsx:61-68 | while the log button is disabled, a log would keep the streak: `diffDays` is 0 |
| GoalDisplay.MidnightEnablesButWithoutStreak | src/components/goal-card.tsx:64-67 | an update just before local midnight enables the button just after it, yet a log then keeps the streak: calendar days are not 24-hour windows |
| GoalDisplay.LogClick | src/components/goal-card.tsx:136-141 | the button logs this goal exactly when it was not updated today |
| GoalDisplay.LogButtonLabel | src/components/goal-card.tsx:142-149 | the label reads "Logged Today" exactly when the button is disabled |
| GoalDetail.FormatDate | src/components/goal-detail.tsx:73-81 | "Not started" exactly for the empty string; anything else is formatted |
| GoalDetail.CheckboxChange | src/components/goal-detail.tsx:177-183 | a checkbox forwards the goal's id, its milestone's id and the new checked state |
| GoalDetail.CheckboxShowsChoice | src/components/goal-detail.tsx:177-183 | forwarded to the dashboard, the milestone ends up in the state the user chose |
| GoalDetail.NoteBox.constructor | src/components/goal-detail.tsx:64 | the note starts empty |
| GoalDetail.NoteBox.Type | src/components/goal-detail.tsx:239-241 | typing replaces the note unless the goal was updated today |
| GoalDetail.NoteBox.Submit | src/components/goal-detail.tsx:245-251 | disabled when updated today; otherwise passes the goal id and the current note on, then clears the note |
| GoalProgressMap.MarkerPosition | src/components/goal-progress-map.tsx:100-101 | every marker lies strictly between 0 % and 100 % |
| GoalProgressMap.MarkersIncrease | src/components/goal-progress-map.tsx:101 | later milestones sit strictly further along |
| GoalProgressMap.DashOffset | src/components/goal-progress-map.tsx:77 | 800 at 0 %, 0 at 100 %, and within [0, 800] in between |
| GoalProgressMap.DashOffsetDecreasing | src/components/goal-progress-map.tsx:77 | more progress reveals strictly more of the path |
| GoalProgressMap.ProgressAnimation.constructor | src/components/goal-progress-map.tsx:30 | the animated value starts at 0 |
| GoalProgressMap.ProgressAnimation.TimerFired | src/components/goal-progress-map.tsx:32-39 | the timer sets the animated value to the stored progress |
| GoalProgressMap.PathFollowsStoredProgress | src/components/goal-progress-map.tsx:30-46 | the path and the label can disagree: one of two milestones done with 30 stored shows 50 while the path animates to 30 |
| GoalForm.TrimStart | src/components/goal-form.tsx:78 | the result is a suffix of the input without leading whitespace; only whitespace was dropped |
| GoalForm.TrimEnd | src/components/goal-form.tsx:78 | the result is a prefix of the input without trailing whitespace; only whitespace was dropped |
| GoalForm.Trim | src/components/goal-form.tsx:78 | the result is the input with a blank prefix and a blank suffix removed, and neither starts nor ends with whitespace |
| GoalForm.TrimEmptyIffBlank | src/components/goal-form.tsx:78 | a title trims to "" exactly when all its characters are whitespace |
| GoalForm.ApplyUpdate | src/components/goal-form.tsx:61 | the update sets the named field and no other |
| GoalForm.GoalFormState.constructor | src/components/goal-form.tsx:36-39 | the form starts empty with the date preset to now |
| GoalForm.GoalFormState.EditTitle | src/components/goal-form.tsx:120 | sets the title only |
| GoalForm.GoalFormState.EditDescription | src/components/goal-form.tsx:132 | sets the description only |
| GoalForm.GoalFormState.SelectDate | src/components/goal-form.tsx:158-159 | sets or clears the date only |
| GoalForm.GoalFormState.AddMilestone | src/components/goal-form.tsx:42-52 | appends one empty, open milestone; the existing ones and the other fields are unchanged |
| GoalForm.GoalFormState.UpdateMilestone | src/components/goal-form.tsx:54-64 | same length and order; milestones with the id get the update; all others are unchanged |
| GoalForm.GoalFormState.RemoveMilestone | src/components/goal-form.tsx:66-68 | keeps exactly the milestones with another id, in order |
| GoalForm.GoalFormState.HandleSubmit | src/components/goal-form.tsx:70-99 | an empty title is blocked by `required`. Otherwise the draft has the title, description and date, progress 0, streak 0 and no update, and exactly the milestones whose title is not blank, in order. Fields are reset only when `onSubmit` returned |
| GoalForm.RemoveUndoesAdd | src/components/goal-form.tsx:42-68 | removing a just-added milestone under a fresh id restores the list |
| GoalForm.SameMillisecondIdsRemovedTogether | src/components/goal-form.tsx:46 | two milestones added in the same millisecond share an id, and removing one removes both |
| Initials.Split | src/components/user-profile.tsx:50 | at least one piece, none containing a space |
| Initials.JoinSplit | src/components/user-profile.tsx:50 | joining the pieces with spaces gives back the name |
| Initials.FirstLetters | src/components/user-profile.tsx:51-52 | at most one letter per piece |
| Initials.FirstLettersConcat | src/components/user-profile.tsx:51-52 | the first letters of two runs of pieces are those of each run, in order |
| Initials.FirstLettersSkipEmpty | src/components/user-profile.tsx:50-52 | an empty piece, from two spaces in a row, contributes no letter |
| Initials.WordStarts | src/components/user-profile.tsx:49-52 | the characters that start a word, never a space |
| Initials.FirstLettersAreWordStarts | src/components/user-profile.tsx:49-52 | the first letters of the split pieces are exactly the word starts, in order |
| Initials.Upper | src/components/user-profile.tsx:53 | ASCII lower-case letters become upper-case; other characters stay |
| Initials.UpperAll | src/components/user-profile.tsx:53 | upper-cases each character in place |
| Initials.Take2 | src/components/user-profile.tsx:54 | the prefix of length min(2, n) |
| Initials.GetInitials | src/components/user-profile.tsx:47-55 | "U" for an empty name, else the first two upper-cased word starts; never more than 2 characters |
| Initials.GetInitialsSkipsEmptyPieces | src/components/user-profile.tsx:50-52 | "ada  lovelace" gives "AL" |
| Initials.TwoWordsGiveInitials | src/components/user-profile.tsx:49-54 | any two leading words give their upper-cased first letters, whatever follows |
| Initials.GetInitialsTakesTwo | src/components/user-profile.tsx:54 | "grace brewster hopper" gives "GB" |
| Initials.GetInitialsOfSpaces | src/components/user-profile.tsx:48-52 | a name of spaces gives "", not "U" |
| Initials.ProfileInitials | src/components/user-profile.tsx:77 | the initials of the profile name, else of the email, else "U" |
| Initials.AvatarText | src/app/settings/page.tsx:175-181 | at most 2 characters. When the name has a word, the first two upper-cased word starts; otherwise the first two characters of the signed-in account's email (not the form's email field), upper-cased. With no word and no account email it is the TypeError the source throws. Empty only when the name has no word and the account email is "" |
| Initials.AvatarMatchesMenu | src/app/settings/page.tsx:175-181 | when the name has a word, the settings avatar shows the same initials as the profile menu |
| Settings.DefaultNotifications | src/app/settings/page.tsx:33-38 | the four flags email, push, goalReminders and achievements, all on |
| Settings.Loaded | src/app/settings/page.tsx:54-70 | missing or empty text fields become ""; missing notifications become the defaults; a stored object is kept as it is |
| Settings.WithField | src/app/settings/page.tsx:110-115 | only the named text field changes |
| Settings.SettingsForm.constructor | src/app/settings/page.tsx:29-39 | empty fields with every notification on |
| Settings.SettingsForm.Load | src/app/settings/page.tsx:46-71 | a signed-in user's data replaces the form; otherwise it stays |
| Settings.SettingsForm.HandleChange | src/app/settings/page.tsx:110-115 | sets only the named field |
| Settings.SettingsForm.HandleNotificationChange | src/app/settings/page.tsx:117-125 | sets only the given key; every other key and every other field keeps its value |
| Settings.ErrorAlert | src/app/settings/page.tsx:104 | an error alert ends with the error's message and is never the success alert |
| Settings.SaveProfile | src/app/settings/page.tsx:78-108 | no user means nothing happens. Otherwise the users row is written with name, avatar URL and notifications only. The email change is requested exactly when that write succeeded and the email differs. Success is reported exactly when neither write failed |
| Settings.SaveAfterLoadKeepsEmail | src/app/settings/page.tsx:95-100 | saving a freshly loaded form never requests an email change for an account with an email |
| Settings.NotificationsAndFieldsIndependent | src/app/settings/page.tsx:110-125 | a field change and a notification change commute |
| Pricing.Features | src/components/pricing-card.tsx:67-80 | always the three base features first. "Free" has only those. Every other plan adds unlimited goals and advanced analytics. "Pro" ends with priority support, for 6 features |
| Achievements.IconFor | src/app/achievements/page.tsx:129-146 | each known name gives its own icon; any other name gives the award |
| Achievements.Unlocked | src/app/achievements/page.tsx:166 | exactly the unlocked achievements |
| Achievements.InProgress | src/app/achievements/page.tsx:167 | exactly the achievements still locked |
| Achievements.OfCategory | src/app/achievements/page.tsx:169-175 | exactly the achievements of that category |
| Achievements.UnlockedInProgressPartition | src/app/achievements/page.tsx:166-167 | the two tabs hold every achievement exactly once; their sizes sum to the total in the counter |
| Achievements.MockAchievements | src/app/achievements/page.tsx:63-126 | six achievements |
| Achievements.MockCounter | src/app/achievements/page.tsx:199-201 | on the mock data the counter reads 1/6, and the one unlocked achievement is "Goal Setter" |
| Achievements.CategoriesPartition | src/app/achievements/page.tsx:169-175 | when every category is goals, milestones or streaks, the three category tabs together hold each achievement exactly once |
| Achievements.MockCategoriesCover | src/app/achievements/page.tsx:63-126 | every mock achievement appears in exactly one category tab |

## Left out

- The Supabase client, `auth.getUser`, `serve`, CORS headers, `req.json` and `functions.invoke` are I/O. Their outcomes are parameters: the caller id, the request fields, each store call's error and the server's error for the dashboard.
- The 500 response of each edge function's `catch` block. It only fires on an exception thrown by I/O or by malformed JSON.
- Wall-clock reads are parameters. log-progress reads the clock once. toggle-milestone reads it twice, for `completed_at` and for `last_updated`; the model takes both as one instant.
- GoalForm.GoalFormState.HandleSubmit: `createdAt` and the reset date come from two clock reads in the source; the model takes both as one instant `now`.
- Time zones: the local calendar day uses a fixed UTC offset, so daylight-saving changes are not modelled.
- ProgressEngine.RoundPercent: rounds the exact quotient. The source rounds the floating-point value of `(c / n) * 100`, which can fall just below a half for ordinary milestone counts: 23 of 40 (and 46 of 80) evaluates to 57.49999999999999, so the source shows 57 where this model gives 58.
- The dashboard's localStorage fallback and JSON round trip are browser storage.
- The dashboard's `handleCreateGoal` and `selectedGoal` are not modelled. They only forward the form's draft to create-goal, or append it locally, and pick one goal to show.
- Dashboard.GoalDashboard.HandleToggleMilestone: requires that the goal being toggled has milestones. The source divides by their number without a guard, which gives NaN for a goal without milestones; a milestone checkbox only exists when there is a milestone.
- The loading flags (`isLoading`, `isSubmitting`, `saving`) and the buttons they disable.
- Rendering is left out: JSX, icons, `Intl.DateTimeFormat` output, the `Math.sin` heights of the map's dot and markers, the price text `amount / 100` and the achievements' progress bars.
- The checkout flow in the pricing card is a redirect to a payment provider.
- Initials.GetInitials: indexes Unicode characters, where `part[0]` and `substring(0, 2)` index UTF-16 code units. For a character outside the Basic Multilingual Plane the source takes half of its surrogate pair; the model takes the whole character.
- Initials.AvatarText: the same UTF-16 difference for the name's first letters and for the email's first two characters.
- Store.Store.ToggleMilestone: takes `completed` as a boolean. A request whose `completed` is missing or not a boolean is not modelled. The source would then leave the column out of the update (undefined is dropped by JSON) or pass the value on, and it would set `completed_at` by the value's truthiness. The dashboard always sends a boolean.
- Initials.Upper: only ASCII letters are upper-cased. Full Unicode case mapping, which can change a string's length, is not modelled.
- Concurrency between requests, and the atomicity of each read-modify-write on the store.
- Progress decay: no code lowers a goal's progress when it is not logged, so the model has no such operation.
- `completed_at`: toggle-milestone sets it when a milestone is checked, but create-goal writes a null `completed_at` for milestones created as completed, so no store invariant ties it to the completed flag.
