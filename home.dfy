/** The home page: the "all" and "this week" task lists, the due-date chip
    (its colour and its text), and the edit dialog with the update it
    sends. The home page counts weeks from Monday, unlike the server and
    the planner, which count them from Sunday. */
module Home {
  import opened Wrappers
  import opened Text
  import opened Time
  import opened Seqs
  import opened Storage
  import Planner
  import Routes
  import TaskItem

  datatype ViewMode = All | Week

  /** `isSameWeek(a, b, { weekStartsOn: 1 })`. */
  predicate SameMondayWeek(a: int, b: int) {
    MondayOf(Day(a)) == MondayOf(Day(b))
  }

  /** The week filter: a dated task is kept when it falls in this Monday
      week, an undated one when it is pending. */
  function InWeekView(now: int): (r: Task -> bool)
    ensures forall t: Task :: r(t) && t.dueDate.Some? ==> Day(now) - 6 <= Day(t.dueDate.value) <= Day(now) + 6
    ensures forall t: Task :: t.dueDate.Some? && Day(t.dueDate.value) == Day(now) ==> r(t)
    ensures forall t: Task :: t.dueDate.None? ==> (r(t) <==> t.status == Pending)
  {
    (t: Task) => if t.dueDate.Some? then SameMondayWeek(t.dueDate.value, now) else t.status == Pending
  }

  /** The deadline given to undated pending tasks: `endOfWeek` with Monday
      as first day, which is the Sunday that closes the Monday week, at
      23:59:59.999. The page calls it Saturday night, but it is a Sunday. */
  function SyntheticDue(now: int): (r: int)
    ensures Weekday(Day(r)) == 0 && TimeOfDay(r) == MsPerDay - 1
    ensures SameMondayWeek(r, now) && now <= r
  {
    var m := MondayOf(Day(now));
    var r := DayEnd(m + 6);
    WeekdayShift(m, 6);
    MondayUnique(m, m + 6);
    Decompose(now);
    r
  }

  /** A copy with the synthetic deadline for an undated pending task; any
      other task is returned as it is. */
  function WithDefaultDue(t: Task, due: int): (r: Task)
    ensures r.(dueDate := t.dueDate) == t
    ensures t.dueDate.Some? ==> r == t
    ensures t.dueDate.None? ==> (r.dueDate == Some(due) <==> t.status == Pending)
  {
    if t.dueDate.None? && t.status == Pending then t.(dueDate := Some(due)) else t
  }

  /** The list the page shows before splitting it by status. */
  function Shown(tasks: seq<Task>, mode: ViewMode, now: int): (r: seq<Task>)
    ensures mode == All ==> r == tasks
    ensures |r| <= |tasks|
    ensures mode == Week ==> forall i :: 0 <= i < |r| ==> r[i].dueDate.Some? && SameMondayWeek(r[i].dueDate.value, now)
  {
    if mode == All then tasks
    else
      var kept := Filter(tasks, InWeekView(now));
      var r := seq(|kept|, i requires 0 <= i < |kept| => WithDefaultDue(kept[i], SyntheticDue(now)));
      assert forall i :: 0 <= i < |r| ==> kept[i] in kept && r[i] == WithDefaultDue(kept[i], SyntheticDue(now));
      r
  }

  /** `getFilteredTasks`: nothing before the data has arrived; otherwise
      the shown list, filtered and filled in week mode, split by status. */
  method GetFilteredTasks(tasks: Option<seq<Task>>, viewMode: ViewMode, now: int) returns (pending: seq<Task>, completed: seq<Task>)
    ensures tasks.None? ==> pending == [] && completed == []
    ensures tasks.Some? ==> pending == Filter(Shown(tasks.value, viewMode, now), Planner.HasStatus(Pending))
    ensures tasks.Some? ==> completed == Filter(Shown(tasks.value, viewMode, now), Planner.HasStatus(Completed))
  {
    if tasks.None? {
      return [], [];
    }
    var filteredTasks := tasks.value;
    if viewMode == Week {
      var weekEnd := new Date(DayEnd(MondayOf(Day(now)) + 6));
      var saturdayNight := new Date(weekEnd.ms);
      saturdayNight.SetHours(23, 59, 59, 999);
      Decompose(saturdayNight.ms);
      filteredTasks := Filter(filteredTasks, InWeekView(now));
      var due := saturdayNight.ms;
      assert due == SyntheticDue(now);
      filteredTasks := seq(|filteredTasks|, i requires 0 <= i < |filteredTasks| => WithDefaultDue(filteredTasks[i], due));
    }
    pending := Filter(filteredTasks, Planner.HasStatus(Pending));
    completed := Filter(filteredTasks, Planner.HasStatus(Completed));
  }

  /** In "all" mode the two lists split the tasks by status, keeping their
      order, and together hold every task when each status is one of the
      two. */
  lemma AllModePartition(tasks: seq<Task>, now: int)
    ensures forall t :: t in Filter(Shown(tasks, All, now), Planner.HasStatus(Pending)) <==> t in tasks && t.status == Pending
    ensures (forall t :: t in tasks ==> t.status == Pending || t.status == Completed) ==>
      |Filter(Shown(tasks, All, now), Planner.HasStatus(Pending))| + |Filter(Shown(tasks, All, now), Planner.HasStatus(Completed))| == |tasks|
  {
    if forall t :: t in tasks ==> t.status == Pending || t.status == Completed {
      Planner.SummaryPartition(tasks, now);
    }
  }

  /** In week mode a task is shown exactly when it is the filled-in copy of
      a task the week filter kept. */
  lemma WeekMembership(tasks: seq<Task>, now: int, u: Task)
    ensures u in Shown(tasks, Week, now) <==>
      exists t :: t in tasks && InWeekView(now)(t) && u == WithDefaultDue(t, SyntheticDue(now))
  {
    var kept := Filter(tasks, InWeekView(now));
    var shown := Shown(tasks, Week, now);
    if u in shown {
      var i :| 0 <= i < |shown| && shown[i] == u;
      assert kept[i] in kept;
    }
    if exists t :: t in tasks && InWeekView(now)(t) && u == WithDefaultDue(t, SyntheticDue(now)) {
      var t :| t in tasks && InWeekView(now)(t) && u == WithDefaultDue(t, SyntheticDue(now));
      var i :| 0 <= i < |kept| && kept[i] == t;
      assert shown[i] == u;
    }
  }

  /** Every pending task of the week list carries a deadline inside this
      Monday week: its own or the synthetic one. */
  lemma WeekPendingHaveDue(tasks: seq<Task>, now: int, u: Task)
    requires u in Filter(Shown(tasks, Week, now), Planner.HasStatus(Pending))
    ensures u.dueDate.Some? && SameMondayWeek(u.dueDate.value, now)
  {
    WeekMembership(tasks, now, u);
  }

  /** A dated task is shown unchanged exactly when it falls in this Monday
      week, and an undated task that is not pending is never shown. */
  lemma WeekKeepsDated(tasks: seq<Task>, now: int, t: Task)
    requires t in tasks
    ensures t.dueDate.Some? ==> (t in Shown(tasks, Week, now) <==> SameMondayWeek(t.dueDate.value, now))
    ensures t.dueDate.None? && t.status != Pending ==> t !in Shown(tasks, Week, now)
  {
    WeekMembership(tasks, now, t);
    if t.dueDate.Some? && SameMondayWeek(t.dueDate.value, now) {
      assert InWeekView(now)(t) && t == WithDefaultDue(t, SyntheticDue(now));
    }
  }

  /** Week mode never changes the original tasks: an undated pending task
      is still undated in the input, and the shown copy differs from it
      only in its deadline. */
  lemma FilledCopy(tasks: seq<Task>, now: int, t: Task)
    requires t in tasks && t.dueDate.None? && t.status == Pending
    ensures t.(dueDate := Some(SyntheticDue(now))) in Shown(tasks, Week, now)
    ensures t.dueDate.None?
  {
    WeekMembership(tasks, now, t.(dueDate := Some(SyntheticDue(now))));
  }

  /** The synthetic deadline is one day after the server's week (which
      ends on Saturday night), except on a Sunday, when the Monday week
      ends that very day. */
  lemma SyntheticDueVersusServerWeek(now: int)
    ensures Weekday(Day(now)) != 0 ==> SyntheticDue(now) == Routes.WindowEnd(now, 0) + MsPerDay
    ensures Weekday(Day(now)) == 0 ==> SyntheticDue(now) == DayEnd(Day(now))
  {
    MondayUnique(Day(now) - (Weekday(Day(now)) + 6) % 7, Day(now));
    Decompose(now);
  }

  /** On a Sunday the two pages disagree about "this week": a task due the
      next day is in the server's current window but not in the home
      page's week. */
  lemma WeeksDisagreeOnSunday(now: int)
    requires Weekday(Day(now)) == 0
    ensures Routes.WindowStart(now, 0) <= now + MsPerDay <= Routes.WindowEnd(now, 0)
    ensures !SameMondayWeek(now + MsPerDay, now)
  {
    Decompose(now);
    ShiftDays(now, 1);
    WeekdayShift(Day(now), 1);
    MondayUnique(Day(now) + 1, Day(now) + 1);
  }

  datatype DueColor = GrayChip | RedChip | OrangeChip | YellowChip | BlueChip

  /** `getDueDateColor`: gray without a date, red once the date has
      passed (even earlier today), then orange for today, yellow for
      tomorrow and blue for later. */
  function DueDateColor(due: Option<int>, now: int): (r: DueColor)
    ensures r == GrayChip <==> due.None?
    ensures r == RedChip <==> due.Some? && due.value < now
    ensures r == OrangeChip <==> due.Some? && now <= due.value && Day(due.value) == Day(now)
    ensures r == YellowChip <==> due.Some? && Day(due.value) == Day(now) + 1
    ensures r == BlueChip <==> due.Some? && Day(due.value) >= Day(now) + 2
  {
    if due.None? then GrayChip
    else if now > due.value then RedChip
    else if Day(due.value) == Day(now) then OrangeChip
    else if Day(due.value) == Day(now) + 1 then YellowChip
    else BlueChip
  }

  datatype DueLabel = Today | Tomorrow | MonthDay(day: int)

  /** `formatDueDate`: no label without a date, "Today", "Tomorrow", and
      otherwise the month and day of the due date. */
  function FormatDueDate(due: Option<int>, now: int): (r: Option<DueLabel>)
    ensures r.None? <==> due.None?
    ensures r == Some(Today) <==> due.Some? && Day(due.value) == Day(now)
    ensures r == Some(Tomorrow) <==> due.Some? && Day(due.value) == Day(now) + 1
    ensures r.Some? && r.value.MonthDay? ==> r.value.day == Day(due.value)
  {
    if due.None? then None
    else if Day(due.value) == Day(now) then Some(Today)
    else if Day(due.value) == Day(now) + 1 then Some(Tomorrow)
    else Some(MonthDay(Day(due.value)))
  }

  /** The chip's colour and text agree: "Tomorrow" is always yellow, a
      "Today" chip is orange or red, and a dated chip is red exactly when
      the task card would flag a pending task as overdue. */
  lemma ChipAgrees(t: Task, now: int)
    ensures FormatDueDate(t.dueDate, now) == Some(Tomorrow) ==> DueDateColor(t.dueDate, now) == YellowChip
    ensures FormatDueDate(t.dueDate, now) == Some(Today) ==> DueDateColor(t.dueDate, now) in {OrangeChip, RedChip}
    ensures t.status == Pending ==> (DueDateColor(t.dueDate, now) == RedChip <==> TaskItem.IsOverdue(t, now))
  {
  }

  /** The edit dialog's fields, as text inputs hold them; the date input
      holds a calendar day or nothing. */
  datatype EditForm = EditForm(title: string, description: string, priority: string, dueDate: Option<int>, estimatedHours: string)

  /** `handleEditTask`: the dialog filled from the task. */
  function EditFormOf(t: Task): (r: EditForm)
    ensures r.title == t.title && r.priority == t.priority
    ensures t.description.Some? ==> r.description == t.description.value
    ensures t.description.None? ==> r.description == ""
    ensures t.dueDate.Some? ==> r.dueDate == Some(Day(t.dueDate.value))
    ensures t.dueDate.None? ==> r.dueDate.None?
    ensures t.estimatedHours.Some? ==> r.estimatedHours != "" && ParseInt(r.estimatedHours) == t.estimatedHours
    ensures t.estimatedHours.None? ==> r.estimatedHours == ""
  {
    EditForm(t.title,
             if t.description.Some? then t.description.value else "",
             t.priority,
             if t.dueDate.Some? then Some(Day(t.dueDate.value)) else None,
             if t.estimatedHours.Some? then ParseIntOfInt(t.estimatedHours.value); IntToString(t.estimatedHours.value) else "")
  }

  /** The update the dialog sends: the title and priority as typed, an
      empty description or hours field as null, the hours read with
      `parseInt` (a value that does not parse is sent as null), and the
      date as midnight of the chosen day or null. The owner and the status
      are left alone. */
  function EditPatch(form: EditForm): (p: TaskPatch)
    ensures p.userId.None? && p.status.None?
    ensures p.title == Some(form.title) && p.priority == Some(form.priority)
    ensures form.description == "" ==> p.description == Some(None)
    ensures form.description != "" ==> p.description == Some(Some(form.description))
    ensures form.estimatedHours == "" ==> p.estimatedHours == Some(None)
    ensures form.estimatedHours != "" ==> p.estimatedHours == Some(ParseInt(form.estimatedHours))
    ensures p.dueDate.Some? && (p.dueDate.value.Some? <==> form.dueDate.Some?)
    ensures form.dueDate.Some? ==> Day(p.dueDate.value.value) == form.dueDate.value && TimeOfDay(p.dueDate.value.value) == 0
  {
    TaskPatch(None,
              Some(form.title),
              Some(if form.description == "" then None else Some(form.description)),
              Some(form.priority),
              None,
              Some(if form.estimatedHours == "" then None else ParseInt(form.estimatedHours)),
              Some(if form.dueDate.Some? then Some(DayStart(form.dueDate.value)) else None))
  }

  /** `handleSaveEdit`: nothing without a task being edited; otherwise the
      id and the update, built field by field. */
  method HandleSaveEdit(editingTask: Option<Task>, editForm: EditForm) returns (request: Option<(nat, TaskPatch)>)
    ensures request.None? <==> editingTask.None?
    ensures request.Some? ==> request.value == (editingTask.value.id, EditPatch(editForm))
  {
    if editingTask.None? {
      return None;
    }
    var updates := TaskPatch(None, Some(editForm.title),
                             Some(if editForm.description == "" then None else Some(editForm.description)),
                             Some(editForm.priority), None,
                             Some(if editForm.estimatedHours == "" then None else ParseInt(editForm.estimatedHours)),
                             None);
    if editForm.dueDate.Some? {
      updates := updates.(dueDate := Some(Some(DayStart(editForm.dueDate.value))));
    } else {
      updates := updates.(dueDate := Some(None));
    }
    request := Some((editingTask.value.id, updates));
  }

  /** Opening the dialog and saving it unchanged writes the task back as it
      was, provided its description is not empty and its deadline is at
      midnight. */
  lemma EditRoundTrip(t: Task, now: int)
    requires t.description != Some("")
    requires t.dueDate.Some? ==> TimeOfDay(t.dueDate.value) == 0
    ensures ApplyPatch(t, EditPatch(EditFormOf(t)), now) == t.(updatedAt := now)
  {
    if t.estimatedHours.Some? {
      ParseIntOfInt(t.estimatedHours.value);
    }
    if t.dueDate.Some? {
      Decompose(t.dueDate.value);
      Decompose(DayStart(Day(t.dueDate.value)));
    }
  }

  /** Otherwise the unchanged dialog still changes the task: an empty
      description becomes null and a deadline moves to midnight of its
      day. */
  lemma EditNormalises(t: Task, now: int)
    ensures t.description == Some("") ==> ApplyPatch(t, EditPatch(EditFormOf(t)), now).description.None?
    ensures t.dueDate.Some? ==> ApplyPatch(t, EditPatch(EditFormOf(t)), now).dueDate == Some(DayStart(Day(t.dueDate.value)))
  {
  }

  /** The Save button: disabled while an update is in flight or when the
      title is blank. */
  function SaveDisabled(isPending: bool, title: string): (r: bool)
    ensures r <==> isPending || Blank(title)
  {
    TrimEmptyIffBlank(title);
    isPending || Trim(title) == ""
  }
}
