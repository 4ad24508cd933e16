# TaskBoost core, modelled in Dafny

TaskBoost turns a photo of handwritten notes or a voice memo into a list of
dated tasks, and tracks progress with weekly counts, a growing tree and
achievements. This project models the parts of it that interpret and
compute. Each part is stated in the form the code takes.

- **Server routes** (`Routes`, `Deadline`):
  - the deadline-phrase resolver ("tomorrow", "this week", "next week", "monday", fallback);
  - the Sunday-to-Saturday week window;
  - the voice route's save loop;
  - the `suggestedDeadline` to `dueDate` defaulting of `POST /api/tasks`;
  - the id and array guards.
- **Provider pipeline** (`Structurer`):
  - the per-field normaliser of the model's JSON reply;
  - the blank-text guards of the image and audio pipelines.
  - The provider's chat replies are parameters.
- **Task table** (`Storage`): a class holding the rows, with owner-scoped insert, query, update, complete and delete, and the statistics counts.
- **Client pages**:
  - the home page's "all" and "this week" lists, the due-date chip and the edit dialog (`Home`);
  - the planner's seven day columns and week counters (`Planner`);
  - level progress and achievements (`Progress`);
  - the tree's growth stages and sizes (`Tree`);
  - the task card (`TaskItem`);
  - the scanner and voice recorder pages' candidate lists and state (`Drafts`, `Scanner`, `VoiceRecorder`).
- **Shared pieces**: strings (`Text`), JSON values (`JsValues`), sequences (`Seqs`), and time and the mutable `Date` (`Time`).

Instants are whole milliseconds. A calendar day is `ms / 86400000`, and the
weekday is `(day + 4) % 7` with Sunday = 0. Time zones and daylight saving
do not exist in this model.

The code is modelled as written, including these behaviours:

- The "monday" phrase resolves to today on a Monday (`Deadline.MondayRule`).
- The statistics count a pending task as overdue when `dueDate <= now`, but the planner and the task card use `<`.
  - `Storage.OverdueIncludesNow` shows the server side.
  - `TaskItem.CardOverdueWithinServerCount` shows the task card's side.
- The home page counts weeks from Monday, while the server and the planner count them from Sunday (`Home.WeeksDisagreeOnSunday`).
  - The home page's "Saturday night" default deadline is really the Sunday that ends the Monday week (`Home.SyntheticDue`).
- The statistics route sends only three counts. So on the progress page the level is always 1 and the streak badge cannot be earned (`Progress.ServerStatsFixLevel`).
- The voice route already stores the tasks it extracts. The voice page's "save all" then posts them again, as copies without their due date (`Drafts.VoiceResaveDropsDueDate`).
- Bulk delete deletes by id with no owner check (`Routes.BulkDelete` goes through `Storage.TaskTable.DeleteTask`).
  - It reports the number of ids sent, not the number of rows removed (`Routes.BulkCountIsIdsSent`).
- `DELETE /api/tasks/:id` is registered first, so the `bulk` and `all` paths reach its id guard. That guard refuses both (`Routes.LiteralSegmentsRejected`).

Where the intended behaviour and the code part ways, the model follows the code, with one exception: the structuring pipeline (`Structurer.StructureTasksFromText`) uses the corrected normaliser, where the code as written fails with "Failed to structure tasks from text: Cannot read properties of null".

- **"monday" on a Monday.** "Next Monday" would be a week later; the code gives today.
- **Overdue.** A task due exactly now is not yet late; the statistics query counts it all the same (`<=`), while the task card and the planner do not (`<`).
- **Streak and level.** The progress page reads both from the statistics; no code computes them, and the server never sends them.
- **Week start.** The home page starts weeks on Monday; the server and the planner start them on Sunday.
- **Long titles.** Extracted titles are meant to be short (at most 50 characters); the code keeps whatever the provider returns (`Structurer.NormaliseItemFields`).
- **Null replies and null items.** A reply that is not a list should give no tasks, and one bad item should not drop the others. As written, a `null` reply or a `null` item throws. See Findings: the pipeline uses the corrected normaliser.

## Model

| member | source | states |
|---|---|---|
| Text.LowerOfUpper | server/routes.ts:323 | lower-casing after upper-casing equals lower-casing alone, so matching ignores case |
| Text.TrimEmptyIffBlank | server/services/openai.ts:127-129 | `trim()` gives "" exactly when every character is white space |
| Text.TrimIdempotent | server/services/openai.ts:125-129 | trimming the already-trimmed transcription changes nothing |
| Text.ParseIntOfNat | server/routes.ts:187 | `parseInt` reads back the decimal rendering of every natural number |
| Text.ParseIntOfInt | client/src/pages/home.tsx:155-166 | `parseInt` reads back `toString()` of every integer, negative ones included |
| Text.ToLower | server/routes.ts:323 | same length, every character lower-cased one by one |
| Text.ContainsAt | server/routes.ts:325-334 | `includes` holds whenever the phrase sits at some offset of the text |
| Text.ContainsWitness | server/routes.ts:325-334 | whenever `includes` holds, the phrase sits at some offset of the text |
| Text.ParseInt | server/routes.ts:187 | `parseInt` fails exactly when no digits follow the leading white space and sign |
| Text.Capitalize | client/src/components/task-item.tsx:77 | same length; the first character is upper-cased and the rest kept |
| Seqs.Filter | server/storage.ts:79-85 | the kept elements are exactly those meeting the condition, in order, never more than the input |
| Seqs.FilterAppend | server/routes.ts:246-248 | filtering a concatenation is the concatenation of the filtered parts |
| Seqs.FilterFilter | server/storage.ts:164-195 | filtering by a weaker condition first changes nothing |
| Seqs.FilterDisjoint | server/storage.ts:175-184 | two exclusive conditions inside a third keep no more than it |
| Seqs.FilterPartition | client/src/pages/home.tsx:234-235 | a condition and its negation split a list with nothing lost |
| Seqs.FilterMonotone | client/src/pages/planner.tsx:117-127 | a stronger condition keeps no more elements |
| Seqs.SortBy | server/storage.ts:67-87 | the result is a permutation of the input, ordered by the key |
| Time.SundayOf | server/routes.ts:150 | the Sunday opening the week of a day: a Sunday, at most six days before |
| Time.MondayOf | client/src/pages/home.tsx:211-212 | the Monday opening the Monday-start week of a day |
| Time.SundayUnique | server/storage.ts:159-162 | any Sunday within the six days before a day is the Sunday opening its week |
| Time.MondayUnique | client/src/pages/home.tsx:211-212 | any Monday within the six days before a day is the Monday opening its week |
| Time.ShiftDays | server/routes.ts:150-155 | moving by k whole days moves the day by k and keeps the time of day |
| Time.Date.ShiftDate | server/routes.ts:150-154 | `setDate(getDate() + k)` moves the instant by k days, with the time of day kept |
| Time.Date.SetHours | server/routes.ts:151-155 | `setHours` keeps the day and sets the time of day |
| Deadline.ParseSuggestedDeadline | server/routes.ts:312-339 | builds the result by shifting `Date` copies; it equals the resolved phrase, keeps the time of day of now, and lands 0 to 7 days ahead |
| Deadline.RuleFor | server/routes.ts:323-338 | the rule chosen is one whose keyword the lower-cased phrase contains (or the fallback), and no earlier rule's keyword occurs in it: precedence by rule order for every phrase |
| Deadline.Resolved | server/routes.ts:312-339 | the resolved instant lies 0 to 7 whole days after now |
| Deadline.ResolvedDay | server/routes.ts:314-335 | the result is now shifted by the chosen rule's day count, time of day unchanged |
| Deadline.DaysAhead | server/routes.ts:314-334 | every rule lands between today and seven days ahead |
| Deadline.NoTomorrow | server/routes.ts:325 | a text with no "to" pair never takes the "tomorrow" rule's `includes` test |
| Deadline.TomorrowRule | server/routes.ts:323-326 | "tomorrow" anywhere, in any case, wins and gives now + 1 day |
| Deadline.ThisWeekRule | server/routes.ts:320-328 | "this week" lands on a Sunday 1 to 7 days ahead |
| Deadline.MondayRule | server/routes.ts:331-334 | "monday" lands on a Monday 0 to 6 days ahead, and on now exactly when today is Monday |
| Deadline.FallbackRule | server/routes.ts:317-338 | "next week" and unmatched phrases give now + 7 days, the same weekday |
| Deadline.CaseInsensitive | server/routes.ts:323 | upper-casing a phrase does not change the rule or the result |
| Deadline.TomorrowBeatsNextWeek | server/routes.ts:325-330 | precedence follows the rule order, not the position in the text |
| Deadline.ThisWeekBeatsMonday | server/routes.ts:327-334 | "Monday this week" resolves by the "this week" rule |
| Structurer.PriorityOf | server/services/openai.ts:83 | a priority is kept only when it is exactly the string "low", "medium" or "high" |
| Structurer.OrUndefined | server/services/openai.ts:82-85 | `x \|\| undefined` keeps exactly the truthy values |
| Structurer.NormaliseItemFields | server/services/openai.ts:80-86 | per field: a truthy title is kept, else "Untitled Task"; an invalid priority becomes medium; hours kept only when a number; falsy description and phrase dropped; the result is well-formed |
| Structurer.NormaliseRoundTrip | server/services/openai.ts:80-86 | normalising a well-formed task's JSON gives the task back |
| Structurer.NormaliseTasks | server/services/openai.ts:74-86 | corrected normaliser: no list gives no tasks, otherwise one well-formed task per item in order |
| Structurer.NormaliseAgrees | server/services/openai.ts:74-86 | wherever the code as written does not throw, it agrees with the corrected normaliser |
| Structurer.NormaliseTasksAsWritten | server/services/openai.ts:74-86 | as written: fails exactly for a `null` reply (reading "tasks") or a task list holding a `null` item (reading "title") |
| Structurer.NullItemSinksBatch | server/services/openai.ts:80-81 | as written, one `null` item makes the whole batch fail with a TypeError |
| Structurer.NullReplyThrows | server/services/openai.ts:74-76 | as written, a `null` reply throws instead of giving no tasks |
| Structurer.DefaultsExample | server/services/openai.ts:81-83 | an empty title becomes "Untitled Task" and "URGENT" becomes medium |
| Structurer.StructureOutcomes | server/services/openai.ts:74-89 | a provider error is rethrown with the prefix; empty content gives no tasks; unparsable content is an error, not an empty list |
| Structurer.StructureTasksFromText | server/services/openai.ts:46-90 | a provider error is a failure carrying the wrapping prefix; otherwise the content (empty read as "{}") is parsed: a parse error fails with the prefix, a parsed reply gives exactly the corrected normaliser's tasks, every one well-formed |
| Structurer.ExtractTextFromImage | server/services/openai.ts:16-44 | succeeds exactly on a provider reply; its text is the content, or "" for none |
| Structurer.ProcessImageToTasks | server/services/openai.ts:135-143 | a success needs non-blank extracted text; non-blank text gives exactly the structuring of that text, and blank text fails with "No text could be extracted from the image" |
| Structurer.ProcessAudioToTasks | server/services/openai.ts:125-133 | a success needs a non-blank transcription; a non-blank one gives exactly the structuring of the trimmed text, otherwise the transcription's own failure is passed on |
| Structurer.TranscribeAudioToText | server/services/openai.ts:112-122 | succeeds exactly when the reply has non-blank content, and the text is then that content trimmed; every failure carries "Failed to transcribe audio: " |
| Structurer.BlankImageFails | server/services/openai.ts:137-139 | blank extracted text fails with the explicit error, whatever the structuring provider would say |
| Structurer.NullImageFails | server/services/openai.ts:135-139 | a `null` OCR reply reads as "" and fails the same way |
| Structurer.AudioGuardUnreachable | server/services/openai.ts:125-129 | blank audio fails inside transcription, so the pipeline's own guard never fires |
| Structurer.ImageProviderErrorSurfaces | server/services/openai.ts:41-43 | an OCR provider error surfaces with the wrapping message |
| Storage.Inserted | server/storage.ts:62-65 | the inserted row carries the fresh id, the owner, title, description, priority and hours given, the status given or "pending" by default, and creation and update times of now |
| Storage.ApplyPatch | server/storage.ts:89-96 | an update keeps id, creation and completion times and sets `updatedAt`; each column (owner, title, description, priority, status, hours, due date) takes the patched value when given and is kept otherwise |
| Storage.CompletedRow | server/storage.ts:129-133 | the row becomes completed with `completedAt` and `updatedAt` set to now; putting back the old status and times gives the old row, so nothing else changes |
| Storage.UpdateRows | server/storage.ts:90-94 | an update changes every matching row and keeps the rest in place |
| Storage.UniqueIds | server/storage.ts:62-63 | serial ids are distinct |
| Storage.UpdateTouchesOne | server/storage.ts:89-103 | an update keyed by id changes exactly one row |
| Storage.WeekStart | server/storage.ts:159-162 | the week starts at Sunday 00:00 and holds now |
| Storage.WeeklyAtMostTotal | server/storage.ts:164-201 | completed this week never exceeds completed in total |
| Storage.StatsOf | server/storage.ts:164-195 | a task is never both completed and overdue, so the two counts together never exceed the user's tasks |
| Storage.OverdueIncludesNow | server/storage.ts:175-184 | a pending task due at exactly now counts as overdue |
| Storage.StatsOwnerScoped | server/storage.ts:164-195 | the counts over all rows equal the counts over the caller's rows alone: other users' rows never change them |
| Storage.TaskTable.constructor | server/storage.ts:62-124 | an empty table with the known users |
| Storage.TaskTable.CreateTask | server/storage.ts:62-65 | appends the inserted row with a fresh id unused by any earlier row |
| Storage.TaskTable.GetTasksByUserId | server/storage.ts:67-73 | exactly the owner's rows, newest first |
| Storage.TaskTable.GetTasksByUserIdAndDateRange | server/storage.ts:75-87 | exactly the owner's rows due within the inclusive range (none without a due date), ascending by due date |
| Storage.TaskTable.UpdateWhere | server/storage.ts:89-103 | the matching row is replaced by its changed copy and all others are kept; none matched gives no row |
| Storage.TaskTable.UpdateTask | server/storage.ts:89-96 | patches the row with the id whoever owns it, or returns nothing |
| Storage.TaskTable.UpdateTaskForUser | server/storage.ts:98-110 | patches only the row with both id and owner; otherwise fails with "Task not found or access denied" and changes nothing |
| Storage.TaskTable.CompleteTask | server/storage.ts:126-142 | marks the owner's row completed now whatever its status; fails and changes nothing when no such row |
| Storage.TaskTable.DeleteTask | server/storage.ts:112-114 | removes the row with the id, with no owner check |
| Storage.TaskTable.DeleteTaskForUser | server/storage.ts:116-120 | removes only a row the caller owns; otherwise a silent no-op |
| Storage.TaskTable.DeleteAllTasksForUser | server/storage.ts:122-124 | removes exactly the owner's rows |
| Storage.TaskTable.GetUserStats | server/storage.ts:147-202 | fails with "User not found" for an unknown user; otherwise the three counts, the weekly one within the total |
| Routes.WeekOffset | server/routes.ts:145-148 | 'last' gives -1, 'next' gives +1, anything else 0 |
| Routes.GetWeekWindow | server/routes.ts:143-155 | builds the window by shifting `Date` copies; it equals the Sunday-start window of the offset week |
| Routes.WindowShape | server/routes.ts:150-155 | the window runs from Sunday 00:00 to Saturday 23:59:59.999, seven days less a millisecond |
| Routes.CurrentWindowHoldsNow | server/routes.ts:143-155 | the current window holds now and starts where the statistics' week starts |
| Routes.WindowsAdjacent | server/routes.ts:150 | consecutive windows meet with no gap and no overlap |
| Routes.GetWeekTasks | server/routes.ts:137-158 | the result is ordered by due date and is, as a multiset, exactly the owner's tasks due inside the requested window |
| Routes.VoiceDue | server/routes.ts:101 | no phrase gives a null due date; a string phrase gives its resolved instant; a truthy non-string fails |
| Routes.VoiceItem | server/routes.ts:99-109 | one extracted task contributes at most one stored record |
| Routes.SaveVoiceTasks | server/routes.ts:97-111 | the loop appends exactly the batch's records, in order, with consecutive ids |
| Routes.VoiceBatchAppend | server/routes.ts:98-110 | the batch of a concatenation is the concatenation of the batches |
| Routes.VoiceBatchBound | server/routes.ts:98-110 | never more stored than extracted |
| Routes.VoiceBatch | server/routes.ts:98-110 | every stored record comes from one of the extracted items |
| Routes.VoiceSkip | server/routes.ts:107-109 | a rejected item is skipped without disturbing the items around it |
| Routes.VoiceScenario | server/routes.ts:98-111 | an item with a numeric phrase is dropped while its neighbours are stored |
| Routes.SuppliedDueDateWins | server/routes.ts:171 | a supplied due date is never replaced by the phrase |
| Routes.PhraseFillsMissingDueDate | server/routes.ts:171-174 | for every body without a due date and every parsed due date, a non-empty string phrase becomes the resolved instant |
| Routes.PostDueDate | server/routes.ts:171-174 | a truthy string phrase with no due date gives the resolved instant; no phrase keeps the parsed due date; fails ("Failed to create task") exactly when a truthy phrase is not a string and no due date was given |
| Routes.PostTask | server/routes.ts:165-182 | stores the schema's record with the defaulted due date, or fails with "Failed to create task" and stores nothing |
| Routes.TaskIdParam | server/routes.ts:187-191 | an id that does not parse gives "Invalid task ID"; otherwise the parsed number |
| Routes.TaskIdRoundTrip | server/routes.ts:187 | every id the server hands out is accepted back |
| Routes.LiteralSegmentsRejected | server/routes.ts:219-226 | "bulk" and "all" fail the id guard |
| Routes.PatchTaskRoute | server/routes.ts:184-200 | a bad id is refused and nothing changes; otherwise the owner-scoped update or "Failed to update task" |
| Routes.CompleteTaskRoute | server/routes.ts:202-217 | a bad id is refused; a success completes a row whose id is the parsed one and whose owner is the caller, replaces that row in place with its completed copy, and returns it; otherwise "Failed to complete task" |
| Routes.DeleteTaskRoute | server/routes.ts:219-234 | a bad id is refused; otherwise exactly the caller's row with that id is removed |
| Routes.ElementId | server/routes.ts:247 | `parseInt` of an element: numbers pass, strings are parsed, null, booleans and objects give NaN (arrays go through their string form) |
| Routes.JsString | server/routes.ts:247 | `String()` of an element: a number's text reads back to the number, a string is itself, `null`, booleans and objects read as NaN, an empty array is "" |
| Routes.ElementIdReadsString | server/routes.ts:247 | for every element, the id is `parseInt` of `String(element)`, arrays included |
| Routes.SingletonArrayId | server/routes.ts:247 | `[[7]]` deletes row 7: a one-number array reads as that number |
| Routes.ParsedIds | server/routes.ts:246-248 | one parsed id per element, in order |
| Routes.WithoutIdsMembers | server/routes.ts:246-248 | after the loop, exactly the rows whose id was not sent remain |
| Routes.BulkDelete | server/routes.ts:237-255 | a non-array is refused and nothing changes; otherwise the ids are deleted in order; with no NaN the count sent is reported, and at the first NaN the route fails with "Failed to delete tasks", keeping the deletions made before it |
| Routes.BulkCountIsIdsSent | server/routes.ts:250 | the reported count is the number of ids sent, even when nothing was removed |
| TaskItem.BadgeVariantOf | client/src/components/task-item.tsx:31-38 | destructive exactly for high, secondary exactly for low, default otherwise |
| TaskItem.BorderOf | client/src/components/task-item.tsx:40-47 | gray exactly for an unknown priority |
| TaskItem.BadgeMatchesBorder | client/src/components/task-item.tsx:31-47 | the badge and the border agree on every priority |
| TaskItem.NormalisedPriorityColoured | client/src/components/task-item.tsx:40-47 | every priority the normaliser produces has its own colour |
| TaskItem.PriorityLabel | client/src/components/task-item.tsx:77 | the capitalised priority followed by " Priority" |
| TaskItem.HighLabel | client/src/components/task-item.tsx:77 | "high" reads "High Priority" |
| TaskItem.CompletedNeverOverdue | client/src/components/task-item.tsx:49 | a completed task is never flagged overdue |
| TaskItem.IsOverdue | client/src/components/task-item.tsx:49 | a flagged card is a pending task with a due date, which the server also counts as overdue |
| TaskItem.CardOverdueWithinServerCount | client/src/components/task-item.tsx:49 | every flagged card is in the server's overdue count; the server also counts a task due at exactly now |
| TaskItem.CheckboxOf | client/src/components/task-item.tsx:57-62 | completes only a pending task with a handler; checked and disabled exactly when completed |
| TaskItem.CheckboxConsistent | client/src/components/task-item.tsx:57-62 | a box that can complete is enabled, and a completed task cannot be completed again |
| TaskItem.ActionsOf | client/src/components/task-item.tsx:100-112 | a button shows only when actions are on (default on) and its handler exists |
| TaskItem.ActionsDefault | client/src/components/task-item.tsx:29 | actions off hides both buttons; the flag left out shows every button with a handler |
| Tree.Stage | client/src/components/tree-visualization.tsx:19-33 | five stages: 0 below level 3, 1 exactly on 3 and 4, 2 exactly on 5 and 6, 3 exactly on 7 to 9, 4 from 10 |
| Tree.TreeEmoji | client/src/components/tree-visualization.tsx:19-25 | the emoji of the level's stage, from seedling to oak |
| Tree.TreeName | client/src/components/tree-visualization.tsx:27-33 | the name of the level's stage, from "Tiny Seedling" to "Mighty Productivity Oak" |
| Tree.EmojiAndNameFollowStage | client/src/components/tree-visualization.tsx:19-33 | the emoji and the name each change exactly when the stage does |
| Tree.EmojiChangesWithName | client/src/components/tree-visualization.tsx:19-33 | the emoji changes exactly when the name does |
| Tree.TreeSize | client/src/components/tree-visualization.tsx:35-37 | never above 256, 256 exactly from level 16, else 128 + 8 per level |
| Tree.TreeSizeMonotone | client/src/components/tree-visualization.tsx:35-37 | the size never shrinks as the level rises |
| Tree.TrunkOf | client/src/components/tree-visualization.tsx:46-55 | width is the larger of 8 and twice the level; height the larger of 20 and four times the level; from level 5 the height is twice the width |
| Tree.BottomOffset | client/src/components/tree-visualization.tsx:65 | positive exactly when the trunk is drawn, then the larger of 16 and three times the level |
| Tree.TreeRestsOnTrunk | client/src/components/tree-visualization.tsx:46-65 | the lift never exceeds the trunk's height |
| Progress.LeavesFollowWeek | client/src/components/tree-visualization.tsx:72 | fed the server's weekly count, the floating leaves show exactly when some task of the user was completed since this week's Sunday |
| Progress.Stat | client/src/pages/progress.tsx:31-33 | `stats?.x \|\| d`: the member when present and non-zero, the default otherwise |
| Progress.JsRem | client/src/pages/progress.tsx:35 | JavaScript's `%`: for a non-negative dividend, the usual remainder |
| Progress.TreeLevelProgress | client/src/pages/progress.tsx:31-43 | the level is the sent tree level or 1, never 0; the threshold is ten per level; progress is the completed total modulo the threshold; remaining is threshold minus progress |
| Progress.ProgressBounds | client/src/pages/progress.tsx:34-41 | progress lies in [0, threshold), so the bar stays below 100% and 1 to threshold tasks remain |
| Progress.ProgressWraps | client/src/pages/progress.tsx:35 | at level 1 the progress starts over every ten tasks |
| Progress.GetRecentAchievements | client/src/pages/progress.tsx:45-76 | each badge is present exactly when its threshold is met, in fixed order, at most three |
| Progress.ServerStatsFixLevel | client/src/pages/progress.tsx:31-61 | with what the server sends, the level is 1 and the streak badge is never earned |
| Planner.WeekDays | client/src/pages/planner.tsx:87-99 | seven consecutive days starting on a Sunday |
| Planner.WeekParam | client/src/pages/planner.tsx:16-26 | taking the query key's second element as the `week` parameter, the server picks the same week: last -1, current 0, next +1 |
| Planner.WeekDaysMatchServer | client/src/pages/planner.tsx:87-99 | the columns are the days of the server's window for the same week |
| Planner.TasksForDay | client/src/pages/planner.tsx:101-107 | exactly the tasks due on that calendar day; none without a due date or before the data arrives |
| Planner.OneBucketPerTask | client/src/pages/planner.tsx:101-107 | a task sits in at most one column, the one of its due day |
| Planner.WeekTaskHasBucket | client/src/pages/planner.tsx:87-107 | every task of the week route lands in one of the seven columns |
| Planner.WeekSummary | client/src/pages/planner.tsx:109-111 | the total is the number of week tasks, 0 before the data arrives |
| Planner.SummaryPartition | client/src/pages/planner.tsx:113-119 | completed plus pending is the total when every status is one of the two |
| Planner.OverdueAtMostPending | client/src/pages/planner.tsx:117-128 | the overdue count never exceeds the pending count |
| Planner.OverdueNow | client/src/pages/planner.tsx:121-128 | the planner's overdue test is exactly the task card's, and every task it flags is pending and in the server's overdue count |
| Planner.EmptyDayLabel | client/src/pages/planner.tsx:202-205 | "Weekend break" exactly for the Sunday and Saturday columns |
| Planner.WeekendColumns | client/src/pages/planner.tsx:202-205 | a column's index is its day's weekday, so the label marks the real weekend days |
| Planner.CheckboxOf | client/src/pages/planner.tsx:219-227 | completes only a pending task; disabled for a completed one or while a completion is in flight |
| Planner.CompletedStaysCompleted | client/src/pages/planner.tsx:219-227 | a completed task cannot be completed again from the planner |
| Home.SyntheticDue | client/src/pages/home.tsx:211-214 | the default deadline is the last millisecond of a Sunday in this Monday week, not before now |
| Home.GetFilteredTasks | client/src/pages/home.tsx:204-238 | nothing before the data arrives; otherwise the shown list, week-filtered and filled in week mode, split by status |
| Home.Shown | client/src/pages/home.tsx:207-231 | "all" shows the tasks as they are; in week mode no more tasks than given, each with a due date inside this Monday week |
| Home.WithDefaultDue | client/src/pages/home.tsx:226-231 | only the due date can change; it is filled exactly for an undated pending task |
| Home.AllModePartition | client/src/pages/home.tsx:204-238 | in "all" mode the lists split the tasks by status, and together hold all of them |
| Home.WeekMembership | client/src/pages/home.tsx:216-231 | in week mode a task is shown exactly when it is the filled-in copy of a task the filter kept |
| Home.WeekPendingHaveDue | client/src/pages/home.tsx:226-234 | every pending task of the week list has a deadline inside this Monday week |
| Home.WeekKeepsDated | client/src/pages/home.tsx:216-223 | a dated task is shown unchanged exactly when in this Monday week; an undated task that is not pending never shows |
| Home.InWeekView | client/src/pages/home.tsx:216-223 | a kept dated task is due within six days of today; a task due today is always kept; an undated task is kept exactly when pending |
| Home.FilledCopy | client/src/pages/home.tsx:226-231 | an undated pending task shows as a copy with the default deadline; the original is unchanged |
| Home.SyntheticDueVersusServerWeek | client/src/pages/home.tsx:211-214 | the default deadline is one day after the server's week, except on a Sunday |
| Home.WeeksDisagreeOnSunday | client/src/pages/home.tsx:218 | on a Sunday, a task due the next day is in the server's week but not the home page's |
| Home.DueDateColor | client/src/pages/home.tsx:186-193 | gray without a date; red once past, even earlier today; orange for later today; yellow for tomorrow; blue exactly from two days on |
| Home.FormatDueDate | client/src/pages/home.tsx:178-184 | no label without a date; "Today" and "Tomorrow" by calendar day; otherwise the due day |
| Home.ChipAgrees | client/src/pages/home.tsx:178-193 | "Tomorrow" is always yellow; "Today" is orange or red; red matches the task card's overdue flag for a pending task |
| Home.EditFormOf | client/src/pages/home.tsx:148-157 | the dialog holds the title and priority; the description or ""; the due date as its day or nothing; the hours as text that `parseInt` reads back to the hours, or "" |
| Home.EditPatch | client/src/pages/home.tsx:162-173 | title and priority as typed; an empty description or hours become null, others the text or its `parseInt`; a due date is sent exactly when a day is chosen, at midnight of it; owner and status untouched |
| Home.HandleSaveEdit | client/src/pages/home.tsx:159-176 | nothing without a task being edited; otherwise that task's id with the update |
| Home.EditRoundTrip | client/src/pages/home.tsx:148-176 | saving the dialog unchanged writes the task back as it was, when its description is not empty and its deadline is at midnight |
| Home.EditNormalises | client/src/pages/home.tsx:150-173 | otherwise an empty description becomes null and the deadline moves to midnight |
| Home.SaveDisabled | client/src/pages/home.tsx:530 | Save is disabled exactly while an update is in flight or the title is blank |
| Drafts.DraftOf | client/src/pages/scanner.tsx:46-51 | title, hours and phrase pass through; the description is dropped; a falsy priority becomes "medium" |
| Drafts.DraftsOf | client/src/pages/voice-recorder.tsx:54-59 | one candidate per reply element, in order |
| Drafts.ScanDraftKeepsFields | client/src/pages/scanner.tsx:46-51 | a scanned candidate keeps every field the normaliser produced except the description |
| Drafts.VoiceDraftHasNoPhrase | client/src/pages/voice-recorder.tsx:54-59 | the voice reply is stored rows, so a voice candidate has no phrase |
| Drafts.DraftJson | client/src/pages/scanner.tsx:81-84 | the posted body is an object whose title, description, priority, hours and phrase members are the candidate's, with no other member and never a due date |
| Drafts.ScannedPhraseBecomesDueDate | client/src/pages/scanner.tsx:80-85 | saving a scanned candidate turns its phrase into the due date |
| Drafts.VoiceResaveDropsDueDate | client/src/pages/voice-recorder.tsx:86-92 | saving a voice candidate posts neither a due date nor a phrase |
| Drafts.ReplaceAt | client/src/pages/scanner.tsx:156-157 | only the element at the index changes; past the end the list grows with holes |
| Drafts.ReplaceSame | client/src/pages/scanner.tsx:156-157 | saving a candidate unchanged leaves the list as it was |
| Drafts.ReplaceTwice | client/src/pages/voice-recorder.tsx:173-174 | two saves at the same index: the later wins |
| Drafts.HoursInput | client/src/pages/scanner.tsx:425-428 | an empty field gives undefined, any other text `parseInt` of it |
| Drafts.HoursRoundTrip | client/src/pages/scanner.tsx:424-428 | typing a whole number gives that number back |
| Drafts.SaveEditDisabled | client/src/pages/scanner.tsx:449 | Save is disabled exactly for a blank title |
| Drafts.EditField | client/src/pages/scanner.tsx:385-441 | each dialog input changes its own field, the hours through `parseInt`, and leaves the others |
| Drafts.DialogEditsArePosted | client/src/pages/scanner.tsx:80-85 | a description and a phrase typed in the dialog are posted, and the phrase becomes the resolved due date |
| Scanner.ScannerPage.constructor | client/src/pages/scanner.tsx:29-33 | no candidates, not processing, nothing being edited |
| Scanner.ScannerPage.HandleFileSelect | client/src/pages/scanner.tsx:114-128 | with a file, processing starts and the scan is sent |
| Scanner.ScannerPage.OnScanSuccess | client/src/pages/scanner.tsx:44-53 | the reply becomes the candidate list and processing ends |
| Scanner.ScannerPage.OnScanError | client/src/pages/scanner.tsx:59-60 | processing ends and nothing else changes |
| Scanner.ScannerPage.HandleEditTask | client/src/pages/scanner.tsx:149-152 | the candidate and its index go into the dialog |
| Scanner.ScannerPage.EditDialog | client/src/pages/scanner.tsx:385-441 | a dialog input updates the field of the dialog's candidate, if any; the rest of the page is unchanged |
| Scanner.ScannerPage.CancelEdit | client/src/pages/scanner.tsx:444 | Cancel drops the dialog's candidate but keeps the index |
| Scanner.ScannerPage.HandleSaveEdit | client/src/pages/scanner.tsx:154-162 | with a candidate and an index of 0 or more, the index's element is replaced and editing cleared; otherwise nothing changes |
| Scanner.ScannerPage.HandleSaveTasks | client/src/pages/scanner.tsx:134-138 | submits the whole list, and only when it is not empty |
| VoiceRecorder.ControlOf | client/src/pages/voice-recorder.tsx:237-265 | Start exactly when idle, Stop exactly when recording, the spinner exactly when processing but not recording |
| VoiceRecorder.VoiceRecorderPage.constructor | client/src/pages/voice-recorder.tsx:28-33 | idle, showing Start |
| VoiceRecorder.VoiceRecorderPage.StartRecording | client/src/pages/voice-recorder.tsx:120-151 | with the microphone the page records and shows Stop; without it nothing changes |
| VoiceRecorder.VoiceRecorderPage.StopRecording | client/src/pages/voice-recorder.tsx:154-164 | acts only on a recording recorder: stops it, queues its stop event, clears recording |
| VoiceRecorder.VoiceRecorderPage.FireOnStop | client/src/pages/voice-recorder.tsx:130-135 | the stop event sets processing, which shows the spinner |
| VoiceRecorder.VoiceRecorderPage.OnSuccess | client/src/pages/voice-recorder.tsx:52-61 | the reply becomes the candidate list and processing ends |
| VoiceRecorder.VoiceRecorderPage.OnError | client/src/pages/voice-recorder.tsx:67-68 | processing ends and the list is kept |
| VoiceRecorder.VoiceRecorderPage.HandleEditTask | client/src/pages/voice-recorder.tsx:166-169 | the candidate and its index go into the dialog |
| VoiceRecorder.VoiceRecorderPage.EditDialog | client/src/pages/voice-recorder.tsx:352-408 | a dialog input updates the field of the dialog's candidate, if any; recording state and the list are unchanged |
| VoiceRecorder.VoiceRecorderPage.CancelEdit | client/src/pages/voice-recorder.tsx:411 | Cancel drops the dialog's candidate but keeps the index, the list and the recording state |
| VoiceRecorder.VoiceRecorderPage.HandleSaveEdit | client/src/pages/voice-recorder.tsx:171-179 | only the element at the edited index changes; a negative index or no candidate changes nothing |
| VoiceRecorder.RecordingRound | client/src/pages/voice-recorder.tsx:120-164 | start, stop, the stop event and the reply bring the page back to idle with the reply's candidates |
| VoiceRecorder.MicDenied | client/src/pages/voice-recorder.tsx:145-151 | without the microphone the page stays idle |

## Left out

- The provider's chat calls, prompts and base64 packaging. The replies are parameters (`ChatReply`), and JSON parsing is a parameter too.
- The insert schema (`insertTaskSchema` and its `partial()` form). It is not part of this model: routes take it as a parameter returning a record or nothing.
- Express routing, uploads, authentication, logging and status codes other than the 400 guards.
- The `/api/scan-image` and `/api/transcribe` handlers. They only wrap `Structurer.ProcessImageToTasks` and `Structurer.ProcessAudioToTasks` in HTTP. Likewise the failure path of `/api/voice-to-tasks`: when the pipeline fails, the route replies "Failed to process audio: " with the message and stores nothing; `Routes.SaveVoiceTasks` starts from the pipeline's tasks.
- The SQL engine and the users upsert. The known users are a set given to the table.
- Ties in `ORDER BY`: rows with equal keys come in an order the model does not fix.
- Time zones, daylight saving, ISO date text and date-fns formatting:
  - instants are milliseconds, and `Drafts.Instant` stands for the ISO string;
  - `new Date("yyyy-MM-dd")` is read as midnight of that day.
- Home.FormatDueDate: the "MMM d" text is represented by the calendar day it names; the month-name rendering is not modelled.
- Numbers are integers: fractional hours, `NaN` and `Infinity` in replies are not modelled. A `parseInt` that gives `NaN` is represented as `null`, which is what it becomes in JSON.
- `parseInt` with a `0x` prefix, and letter case and white space outside the ASCII letters and the listed space characters.
- The exact progress percentage and the emoji font size, which are floating point. `Progress.ProgressBounds` states the bound that the percentage stays below 100.
- The streak and the tree level. No code computes them.
- The mock weekly chart and the fixed "hours saved" figure on the progress page.
- The home page's `getPriorityColor`. It is the same four-way mapping as `TaskItem.BorderOf` and is not modelled twice.
- Toasts, redirects, navigation, React Query caching, the image preview, the audio chunks and the media stream:
  - the microphone grant is a parameter;
  - the recorder is reduced to its state;
  - the page's other state is modelled.
- Structurer.StructureTasksFromText: uses the corrected normaliser, so a `null` reply gives no tasks and a `null` item becomes an "Untitled Task" in its place, where the code as written throws (see Findings).
- Routes.BulkDelete: `deleteTask(NaN)` is taken to be rejected by the database (the id column is an integer), which ends the loop with "Failed to delete tasks"; the driver's exact behaviour is not part of this model.
- Planner.WeekParam: the request made for the query key `['/api/tasks/week', week]` is built by a query client that is not part of this model; the key's second element is assumed to reach the server as the `week` query parameter, and `Planner.WeekDaysMatchServer` and `Planner.WeekTaskHasBucket` rest on that.
- Routes.TaskIdParam: ids are unbounded integers; an id outside the database's integer column (such as "99999999999"), which the database would reject so that the patch, complete, delete and bulk routes answer with their failure message, and `parseInt` losing precision above 2^53, are not modelled.
- Routes.JsString: numbers are exact integers; numbers beyond 2^53, and those of 1e21 or more, which JavaScript writes in exponent form ("1e+21" reads back as 1), are not modelled.
- Drafts.SaveEditDisabled: takes the title as a string; a candidate whose title is not a string (a number the normaliser passed through) makes `title.trim()` throw, which is not modelled.
- Routes.ElementId: `String()` of an object is always "[object Object]"; a custom `toString` is not modelled.
- The service worker, the confetti, the landing page and the week navigation component.

## Findings

| source | as written | input that shows it | evidently intended | confidence | as-written member | corrected member |
|---|---|---|---|---|---|---|
| server/services/openai.ts:80-81 | `task.title` is read on every element, so a `null` element throws a TypeError and the whole reply fails | `{"tasks": [null, {"title": "Buy milk"}]}` | each item is normalised on its own, so one malformed item never drops the others ("Buy milk" is kept) | not executed | Structurer.NullItemSinksBatch | Structurer.NormaliseTasks |
| server/services/openai.ts:74-76 | `result.tasks` is read on the parsed reply, so a reply whose content is `null` throws | content `"null"` | a reply that is not a well-formed list gives no tasks | not executed | Structurer.NullReplyThrows | Structurer.NormaliseTasks |
