/** The weekly planner page: the seven days of the shown week, the tasks
    due on each day, the week's summary counts, the empty-day label and the
    completion checkbox. The tasks are the ones the week route returned. */
module Planner {
  import opened Wrappers
  import opened JsValues
  import opened Time
  import opened Seqs
  import opened Storage
  import Routes
  import TaskItem

  datatype WeekView = Last | Current | Next

  /** The `week` parameter the request for the page's query key is taken
      to carry: none for the current week. */
  function WeekParam(view: WeekView): (r: Option<Json>)
    ensures Routes.WeekOffset(r) == (if view == Last then -1 else if view == Next then 1 else 0)
  {
    match view
    case Last => Some(Str("last"))
    case Current => None
    case Next => Some(Str("next"))
  }

  /** `getWeekDays`: the calendar days from the Sunday of the base date,
      where the base is now moved back or forward by seven days of
      milliseconds for the last or next week. */
  function WeekDays(view: WeekView, now: int): (r: seq<int>)
    ensures |r| == 7
    ensures Weekday(r[0]) == 0
    ensures forall i :: 0 <= i < 7 ==> r[i] == r[0] + i
  {
    var base := match view
      case Last => now - 7 * MsPerDay
      case Current => now
      case Next => now + 7 * MsPerDay;
    var weekStart := SundayOf(Day(base));
    seq(7, i => weekStart + i)
  }

  /** The page's seven days are exactly the days of the window the server
      uses for the same week: the first is the window's start day and the
      last holds its end. */
  lemma WeekDaysMatchServer(view: WeekView, now: int)
    ensures WeekDays(view, now)[0] == Day(Routes.WindowStart(now, Routes.WeekOffset(WeekParam(view))))
    ensures WeekDays(view, now)[6] == Day(Routes.WindowEnd(now, Routes.WeekOffset(WeekParam(view))))
  {
    var offset := Routes.WeekOffset(WeekParam(view));
    ShiftDays(now, offset * 7);
    var base := now + offset * 7 * MsPerDay;
    assert Day(base) == Day(now) + 7 * offset;
    WeekdayShift(Day(now), 7 * offset);
    SundayUnique(SundayOf(Day(now)) + 7 * offset, Day(base));
  }

  function DueOn(day: int): Task -> bool {
    (t: Task) => t.dueDate.Some? && Day(t.dueDate.value) == day
  }

  /** `getTasksForDay`: the week's tasks due on that calendar day, in
      the order received; none before the data has arrived. */
  function TasksForDay(tasks: Option<seq<Task>>, day: int): (r: seq<Task>)
    ensures forall t :: t in r <==> tasks.Some? && t in tasks.value && t.dueDate.Some? && Day(t.dueDate.value) == day
  {
    if tasks.None? then [] else Filter(tasks.value, DueOn(day))
  }

  /** A task sits in the bucket of its due day and in no other, and a task
      without a due date in none. */
  lemma OneBucketPerTask(tasks: Option<seq<Task>>, t: Task, d1: int, d2: int)
    requires t in TasksForDay(tasks, d1) && t in TasksForDay(tasks, d2)
    ensures d1 == d2 && t.dueDate.Some? && Day(t.dueDate.value) == d1
  {
  }

  /** A task the week route returned lands in one of the seven buckets. */
  lemma WeekTaskHasBucket(view: WeekView, now: int, tasks: seq<Task>, t: Task)
    requires t in tasks && t.dueDate.Some?
    requires Routes.WindowStart(now, Routes.WeekOffset(WeekParam(view))) <= t.dueDate.value <= Routes.WindowEnd(now, Routes.WeekOffset(WeekParam(view)))
    ensures exists i :: 0 <= i < 7 && t in TasksForDay(Some(tasks), WeekDays(view, now)[i])
  {
    WeekDaysMatchServer(view, now);
    var days := WeekDays(view, now);
    var start := Routes.WindowStart(now, Routes.WeekOffset(WeekParam(view)));
    var end := Routes.WindowEnd(now, Routes.WeekOffset(WeekParam(view)));
    var d := Day(t.dueDate.value);
    assert Day(start) <= d <= Day(end) by {
      Decompose(start);
      Decompose(end);
      Decompose(t.dueDate.value);
    }
    var i := d - days[0];
    assert 0 <= i < 7 && days[i] == d;
  }

  function HasStatus(s: string): Task -> bool {
    (t: Task) => t.status == s
  }

  /** Pending, with a due date strictly before now. */
  function OverdueNow(now: int): (r: Task -> bool)
    ensures forall t: Task :: r(t) <==> TaskItem.IsOverdue(t, now)
    ensures forall t: Task :: r(t) ==> HasStatus(Pending)(t) && OverdueOf(t.userId, now)(t)
  {
    (t: Task) => t.status == Pending && t.dueDate.Some? && t.dueDate.value < now
  }

  /** The four counters of the week header. */
  datatype Summary = Summary(total: nat, completed: nat, pending: nat, overdue: nat)

  function WeekSummary(tasks: Option<seq<Task>>, now: int): (r: Summary)
    ensures tasks.None? ==> r == Summary(0, 0, 0, 0)
    ensures tasks.Some? ==> r.total == |tasks.value|
  {
    match tasks
    case None => Summary(0, 0, 0, 0)
    case Some(ts) =>
      Summary(|ts|, |Filter(ts, HasStatus(Completed))|, |Filter(ts, HasStatus(Pending))|, |Filter(ts, OverdueNow(now))|)
  }

  /** When every status is one of the two, completed and pending add up
      to the total. */
  lemma SummaryPartition(tasks: seq<Task>, now: int)
    requires forall t :: t in tasks ==> t.status == Pending || t.status == Completed
    ensures WeekSummary(Some(tasks), now).completed + WeekSummary(Some(tasks), now).pending == |tasks|
  {
    OnlyTwoStatuses(tasks);
    FilterPartition(tasks, HasStatus(Completed), (t: Task) => t.status != Completed);
  }

  lemma {:induction false} OnlyTwoStatuses(tasks: seq<Task>)
    requires forall t :: t in tasks ==> t.status == Pending || t.status == Completed
    ensures Filter(tasks, (t: Task) => t.status != Completed) == Filter(tasks, HasStatus(Pending))
    decreases |tasks|
  {
    if tasks != [] {
      OnlyTwoStatuses(tasks[1..]);
    }
  }

  /** Overdue tasks are pending ones, so the overdue count never exceeds
      the pending count. */
  lemma OverdueAtMostPending(tasks: Option<seq<Task>>, now: int)
    ensures WeekSummary(tasks, now).overdue <= WeekSummary(tasks, now).pending
  {
    if tasks.Some? {
      FilterMonotone(tasks.value, OverdueNow(now), HasStatus(Pending));
    }
  }

  const DayNames: seq<string> := ["Sunday", "Monday", "Tuesday", "Wednesday", "Thursday", "Friday", "Saturday"]

  /** The text of an empty day column. */
  function EmptyDayLabel(index: nat): (r: string)
    requires index < 7
    ensures r == "Weekend break" <==> index == 0 || index == 6
    ensures r != "Weekend break" ==> r == "No tasks scheduled"
  {
    var dayName := DayNames[index];
    if dayName == "Saturday" || dayName == "Sunday" then "Weekend break" else "No tasks scheduled"
  }

  /** The column index is the weekday of the column's day, so the weekend
      label marks exactly the Saturday and Sunday columns. */
  lemma WeekendColumns(view: WeekView, now: int, index: nat)
    requires index < 7
    ensures Weekday(WeekDays(view, now)[index]) == index
    ensures EmptyDayLabel(index) == "Weekend break" <==> Weekday(WeekDays(view, now)[index]) in {0, 6}
  {
    WeekdayShift(WeekDays(view, now)[0], index);
  }

  /** The planner's checkbox: a change completes the task only when it is
      pending; the box is disabled for a completed task and while a
      completion is in flight. */
  datatype Checkbox = Checkbox(completes: bool, disabled: bool)

  function CheckboxOf(status: string, busy: bool): (r: Checkbox)
    ensures r.completes <==> status == Pending
    ensures r.disabled <==> status == Completed || busy
  {
    Checkbox(status == Pending, status == Completed || busy)
  }

  /** A completed task can never be completed again from the planner. */
  lemma CompletedStaysCompleted(busy: bool)
    ensures !CheckboxOf(Completed, busy).completes && CheckboxOf(Completed, busy).disabled
  {
  }
}
