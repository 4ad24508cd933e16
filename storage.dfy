/** The task table of the server's storage layer: owner-scoped inserts,
    queries, updates, completion, deletes and the statistics counts, over an
    in-memory table standing in for the database. */
module Storage {
  import opened Wrappers
  import opened Seqs
  import opened Time

  const Pending: string := "pending"
  const Completed: string := "completed"
  const NotFoundOrDenied: string := "Task not found or access denied"
  const UserNotFound: string := "User not found"

  /** A stored row. Instants are milliseconds; a missing optional column is
      SQL NULL. */
  datatype Task = Task(
    id: nat,
    userId: string,
    title: string,
    description: Option<string>,
    priority: string,
    status: string,
    estimatedHours: Option<int>,
    dueDate: Option<int>,
    createdAt: int,
    completedAt: Option<int>,
    updatedAt: int)

  /** The record handed to `createTask`; a missing status takes the column
      default "pending". */
  datatype NewTask = NewTask(
    userId: string,
    title: string,
    description: Option<string>,
    priority: string,
    status: Option<string>,
    estimatedHours: Option<int>,
    dueDate: Option<int>)

  /** A partial insert record: `None` leaves a column alone, and for the
      nullable columns `Some(None)` writes NULL. */
  datatype TaskPatch = TaskPatch(
    userId: Option<string>,
    title: Option<string>,
    description: Option<Option<string>>,
    priority: Option<string>,
    status: Option<string>,
    estimatedHours: Option<Option<int>>,
    dueDate: Option<Option<int>>)

  datatype Stats = Stats(totalCompleted: nat, completedThisWeek: nat, overdueTasks: nat)

  /** The row the database returns for an insert: a fresh serial id and
      creation and update stamps of now. */
  function Inserted(t: NewTask, id: nat, now: int): (r: Task)
    ensures r.id == id && r.userId == t.userId && r.title == t.title && r.dueDate == t.dueDate
    ensures r.description == t.description && r.priority == t.priority && r.estimatedHours == t.estimatedHours
    ensures t.status.Some? ==> r.status == t.status.value
    ensures t.status.None? ==> r.status == Pending
    ensures r.createdAt == now && r.updatedAt == now && r.completedAt.None?
  {
    Task(id, t.userId, t.title, t.description, t.priority, t.status.GetOr(Pending),
         t.estimatedHours, t.dueDate, now, None, now)
  }

  /** `set({ ...updates, updatedAt: new Date() })` on one row. */
  function ApplyPatch(t: Task, p: TaskPatch, now: int): (r: Task)
    ensures r.id == t.id && r.createdAt == t.createdAt && r.completedAt == t.completedAt
    ensures r.updatedAt == now
    ensures p.userId.Some? ==> r.userId == p.userId.value
    ensures p.userId.None? ==> r.userId == t.userId
    ensures p.title.Some? ==> r.title == p.title.value
    ensures p.title.None? ==> r.title == t.title
    ensures p.description.Some? ==> r.description == p.description.value
    ensures p.description.None? ==> r.description == t.description
    ensures p.priority.Some? ==> r.priority == p.priority.value
    ensures p.priority.None? ==> r.priority == t.priority
    ensures p.status.Some? ==> r.status == p.status.value
    ensures p.status.None? ==> r.status == t.status
    ensures p.estimatedHours.Some? ==> r.estimatedHours == p.estimatedHours.value
    ensures p.estimatedHours.None? ==> r.estimatedHours == t.estimatedHours
    ensures p.dueDate.Some? ==> r.dueDate == p.dueDate.value
    ensures p.dueDate.None? ==> r.dueDate == t.dueDate
  {
    Task(t.id,
         p.userId.GetOr(t.userId),
         p.title.GetOr(t.title),
         p.description.GetOr(t.description),
         p.priority.GetOr(t.priority),
         p.status.GetOr(t.status),
         p.estimatedHours.GetOr(t.estimatedHours),
         p.dueDate.GetOr(t.dueDate),
         t.createdAt,
         t.completedAt,
         now)
  }

  /** The columns `completeTask` sets. */
  function CompletedRow(t: Task, now: int): (r: Task)
    ensures r.status == Completed && r.completedAt == Some(now) && r.updatedAt == now
    ensures r.(status := t.status, completedAt := t.completedAt, updatedAt := t.updatedAt) == t
  {
    t.(status := Completed, completedAt := Some(now), updatedAt := now)
  }

  function IdOf(t: Task): int { t.id }
  function NewestFirst(t: Task): int { -t.createdAt }
  function DueKey(t: Task): int { t.dueDate.GetOr(0) }

  function OwnedBy(userId: string): Task -> bool {
    (t: Task) => t.userId == userId
  }

  function IdIsNot(id: int): Task -> bool {
    (t: Task) => t.id != id
  }

  function IdIs(id: int): Task -> bool {
    (t: Task) => t.id == id
  }

  function IdOwnedBy(id: int, userId: string): Task -> bool {
    (t: Task) => t.id == id && t.userId == userId
  }

  function NotIdOwnedBy(id: int, userId: string): Task -> bool {
    (t: Task) => !(t.id == id && t.userId == userId)
  }

  function DueWithin(userId: string, start: int, end: int): Task -> bool {
    (t: Task) => t.userId == userId && t.dueDate.Some? && start <= t.dueDate.value <= end
  }

  function CompletedOf(userId: string): Task -> bool {
    (t: Task) => t.userId == userId && t.status == Completed
  }

  /** `completedAt >= since`; a NULL completedAt never compares. */
  function CompletedSince(userId: string, since: int): Task -> bool {
    (t: Task) => t.userId == userId && t.status == Completed && t.completedAt.Some? && t.completedAt.value >= since
  }

  /** `dueDate <= now`, as the stats query writes it. */
  function OverdueOf(userId: string, now: int): Task -> bool {
    (t: Task) => t.userId == userId && t.status == Pending && t.dueDate.Some? && t.dueDate.value <= now
  }

  /** `UPDATE ... WHERE m`: every matching row is changed, the rest kept. */
  function UpdateRows(rows: seq<Task>, m: Task -> bool, change: Task -> Task): (r: seq<Task>)
    ensures |r| == |rows|
    ensures forall k :: 0 <= k < |r| ==> r[k] == (if m(rows[k]) then change(rows[k]) else rows[k])
  {
    seq(|rows|, k requires 0 <= k < |rows| => if m(rows[k]) then change(rows[k]) else rows[k])
  }

  /** Row ids are distinct because the table keeps them ascending. */
  lemma UniqueIds(rows: seq<Task>, i: int, j: int)
    requires IncreasingBy(rows, IdOf)
    requires 0 <= i < |rows| && 0 <= j < |rows| && i != j
    ensures rows[i].id != rows[j].id
  {
    if i < j {
      assert IdOf(rows[i]) < IdOf(rows[j]);
    } else if j < i {
      assert IdOf(rows[j]) < IdOf(rows[i]);
    }
  }

  /** An update keyed by id touches exactly the one row carrying that id. */
  lemma {:induction false} UpdateTouchesOne(rows: seq<Task>, m: Task -> bool, change: Task -> Task, i: nat, id: int)
    requires IncreasingBy(rows, IdOf)
    requires forall t :: m(t) ==> t.id == id
    requires i < |rows| && m(rows[i])
    ensures UpdateRows(rows, m, change) == rows[i := change(rows[i])]
  {
    var r := UpdateRows(rows, m, change);
    forall k | 0 <= k < |rows| && k != i
      ensures r[k] == rows[k]
    {
      UniqueIds(rows, i, k);
    }
  }

  /** Every row id is below the next serial id, and ids ascend. */
  ghost predicate WellKeyed(rows: seq<Task>, nextId: nat) {
    IncreasingBy(rows, IdOf) && forall t :: t in rows ==> t.id < nextId
  }

  /** The week starts on Sunday at 00:00:00.000. */
  function WeekStart(now: int): (r: int)
    ensures Weekday(Day(r)) == 0 && TimeOfDay(r) == 0
    ensures r <= now < r + 7 * MsPerDay
  {
    Decompose(now);
    DayStart(SundayOf(Day(now)))
  }

  /** The counts `getUserStats` returns. A completed task is never
      overdue, so the two counts together never exceed the user's tasks. */
  function StatsOf(rows: seq<Task>, userId: string, now: int): (r: Stats)
    ensures r.totalCompleted + r.overdueTasks <= |Filter(rows, OwnedBy(userId))|
  {
    FilterDisjoint(rows, CompletedOf(userId), OverdueOf(userId, now), OwnedBy(userId));
    Stats(|Filter(rows, CompletedOf(userId))|,
          |Filter(rows, CompletedSince(userId, WeekStart(now)))|,
          |Filter(rows, OverdueOf(userId, now))|)
  }

  /** A task completed this week is a completed task, so the weekly count
      never exceeds the total. */
  lemma WeeklyAtMostTotal(rows: seq<Task>, userId: string, now: int)
    ensures StatsOf(rows, userId, now).completedThisWeek <= StatsOf(rows, userId, now).totalCompleted
  {
    FilterMonotone(rows, CompletedSince(userId, WeekStart(now)), CompletedOf(userId));
  }

  /** The overdue count includes a pending task due exactly now. */
  lemma OverdueIncludesNow(t: Task, now: int)
    requires t.status == Pending && t.dueDate == Some(now)
    ensures StatsOf([t], t.userId, now).overdueTasks == 1
  {
    assert Filter([t], OverdueOf(t.userId, now)) == [t];
  }

  /** The counts ignore other users' rows: they are those of the user's
      own rows alone. */
  lemma StatsOwnerScoped(rows: seq<Task>, userId: string, now: int)
    ensures StatsOf(rows, userId, now) == StatsOf(Filter(rows, OwnedBy(userId)), userId, now)
  {
    FilterFilter(rows, CompletedOf(userId), OwnedBy(userId));
    FilterFilter(rows, CompletedSince(userId, WeekStart(now)), OwnedBy(userId));
    FilterFilter(rows, OverdueOf(userId, now), OwnedBy(userId));
  }

  /** The task table with its serial id counter and the set of known users. */
  class TaskTable {
    var rows: seq<Task>
    var nextId: nat
    var users: set<string>

    ghost predicate Valid()
      reads this
    {
      WellKeyed(rows, nextId)
    }

    constructor (users: set<string>)
      ensures Valid() && rows == [] && nextId == 1 && this.users == users
    {
      rows := [];
      nextId := 1;
      this.users := users;
    }

    /** `createTask`: appends the inserted row and returns it. */
    method CreateTask(t: NewTask, now: int) returns (r: Task)
      requires Valid()
      modifies this
      ensures Valid()
      ensures r == Inserted(t, old(nextId), now)
      ensures rows == old(rows) + [r] && nextId == old(nextId) + 1 && users == old(users)
      ensures forall k :: 0 <= k < |old(rows)| ==> old(rows)[k].id != r.id
    {
      r := Inserted(t, nextId, now);
      rows := rows + [r];
      nextId := nextId + 1;
    }

    /** `getTasksByUserId`: exactly the owner's rows, newest first. */
    method GetTasksByUserId(userId: string) returns (r: seq<Task>)
      ensures multiset(r) == multiset(Filter(rows, OwnedBy(userId)))
      ensures forall t :: t in r <==> t in rows && t.userId == userId
      ensures forall i, j :: 0 <= i < j < |r| ==> r[i].createdAt >= r[j].createdAt
    {
      var owned := Filter(rows, OwnedBy(userId));
      r := SortBy(owned, NewestFirst);
      assert forall t :: t in r <==> t in multiset(owned);
      assert SortedBy(r, NewestFirst);
      forall i, j | 0 <= i < j < |r|
        ensures r[i].createdAt >= r[j].createdAt
      {
        assert NewestFirst(r[i]) <= NewestFirst(r[j]);
      }
    }

    /** `getTasksByUserIdAndDateRange`: the owner's rows due within
        [start, end] inclusive, earliest due first; rows without a due date
        never match. */
    method GetTasksByUserIdAndDateRange(userId: string, start: int, end: int) returns (r: seq<Task>)
      ensures multiset(r) == multiset(Filter(rows, DueWithin(userId, start, end)))
      ensures forall t :: t in r <==> t in rows && t.userId == userId && t.dueDate.Some? && start <= t.dueDate.value <= end
      ensures forall i, j :: 0 <= i < j < |r| ==> r[i].dueDate.value <= r[j].dueDate.value
    {
      var due := Filter(rows, DueWithin(userId, start, end));
      r := SortBy(due, DueKey);
      forall t
        ensures t in r <==> t in due
      {
        assert t in r <==> t in multiset(due);
      }
      forall t | t in r
        ensures t.dueDate.Some? && DueKey(t) == t.dueDate.value
      {
        assert DueWithin(userId, start, end)(t);
      }
      assert SortedBy(r, DueKey);
    }

    /** The row update shared by the update, update-for-user and complete
        operations: `UPDATE ... WHERE m RETURNING *`, taking the first
        returned row. */
    method UpdateWhere(m: Task -> bool, id: int, change: Task -> Task) returns (r: Option<Task>)
      requires Valid()
      requires forall t :: m(t) ==> t.id == id
      requires forall t :: change(t).id == t.id
      modifies this
      ensures Valid() && nextId == old(nextId) && users == old(users)
      ensures rows == UpdateRows(old(rows), m, change)
      ensures r.None? <==> forall k :: 0 <= k < |old(rows)| ==> !m(old(rows)[k])
      ensures r.Some? ==> exists k :: 0 <= k < |old(rows)| && m(old(rows)[k]) && r.value == change(old(rows)[k]) && rows == old(rows)[k := r.value]
    {
      var i := IndexFrom(rows, m, 0);
      if i.None? {
        r := None;
        assert UpdateRows(rows, m, change) == rows;
      } else {
        var k := i.value;
        UpdateTouchesOne(rows, m, change, k, id);
        r := Some(change(rows[k]));
        rows := rows[k := r.value];
        assert IdOf(rows[k]) == IdOf(old(rows)[k]);
        assert forall a :: 0 <= a < |rows| ==> IdOf(rows[a]) == IdOf(old(rows)[a]);
      }
    }

    /** `updateTask`: patches the row with this id, whoever owns it; with no
        such row nothing changes and nothing is returned. */
    method UpdateTask(id: int, patch: TaskPatch, now: int) returns (r: Option<Task>)
      requires Valid()
      modifies this
      ensures Valid() && nextId == old(nextId) && users == old(users)
      ensures rows == UpdateRows(old(rows), IdIs(id), (t: Task) => ApplyPatch(t, patch, now))
      ensures r.None? <==> forall k :: 0 <= k < |old(rows)| ==> old(rows)[k].id != id
      ensures r.Some? ==> exists k :: 0 <= k < |old(rows)| && old(rows)[k].id == id && r.value == ApplyPatch(old(rows)[k], patch, now) && rows == old(rows)[k := r.value]
    {
      r := UpdateWhere(IdIs(id), id, (t: Task) => ApplyPatch(t, patch, now));
    }

    /** `updateTaskForUser`: patches the row only when both id and owner
        match, and otherwise fails without changing anything. */
    method UpdateTaskForUser(id: int, userId: string, patch: TaskPatch, now: int) returns (r: Result<Task>)
      requires Valid()
      modifies this
      ensures Valid() && nextId == old(nextId) && users == old(users)
      ensures r.Failure? <==> forall k :: 0 <= k < |old(rows)| ==> !(old(rows)[k].id == id && old(rows)[k].userId == userId)
      ensures r.Failure? ==> r.message == NotFoundOrDenied && rows == old(rows)
      ensures r.Success? ==> exists k :: 0 <= k < |old(rows)| && old(rows)[k].id == id && old(rows)[k].userId == userId && r.value == ApplyPatch(old(rows)[k], patch, now) && rows == old(rows)[k := r.value]
    {
      var u := UpdateWhere(IdOwnedBy(id, userId), id, (t: Task) => ApplyPatch(t, patch, now));
      if u.None? {
        assert rows == old(rows);
        r := Failure(NotFoundOrDenied);
      } else {
        r := Success(u.value);
      }
    }

    /** `completeTask`: marks the caller's row completed now, whatever its
        previous status, or fails when the row is missing or not theirs. */
    method CompleteTask(id: int, userId: string, now: int) returns (r: Result<Task>)
      requires Valid()
      modifies this
      ensures Valid() && nextId == old(nextId) && users == old(users)
      ensures r.Failure? <==> forall k :: 0 <= k < |old(rows)| ==> !(old(rows)[k].id == id && old(rows)[k].userId == userId)
      ensures r.Failure? ==> r.message == NotFoundOrDenied && rows == old(rows)
      ensures r.Success? ==> r.value.status == Completed && r.value.completedAt == Some(now) && r.value.updatedAt == now
      ensures r.Success? ==> exists k :: 0 <= k < |old(rows)| && old(rows)[k].id == id && old(rows)[k].userId == userId && r.value == CompletedRow(old(rows)[k], now) && rows == old(rows)[k := r.value]
    {
      var u := UpdateWhere(IdOwnedBy(id, userId), id, (t: Task) => CompletedRow(t, now));
      if u.None? {
        assert rows == old(rows);
        r := Failure(NotFoundOrDenied);
      } else {
        r := Success(u.value);
      }
    }

    /** `deleteTask`: removes the row with this id, with no owner check. */
    method DeleteTask(id: int)
      requires Valid()
      modifies this
      ensures Valid() && nextId == old(nextId) && users == old(users)
      ensures rows == Filter(old(rows), IdIsNot(id))
      ensures forall t :: t in rows <==> t in old(rows) && t.id != id
    {
      FilterIncreasing(rows, IdIsNot(id), IdOf);
      rows := Filter(rows, IdIsNot(id));
    }

    /** `deleteTaskForUser`: removes the row only when the caller owns it;
        otherwise silently does nothing. */
    method DeleteTaskForUser(id: int, userId: string)
      requires Valid()
      modifies this
      ensures Valid() && nextId == old(nextId) && users == old(users)
      ensures rows == Filter(old(rows), NotIdOwnedBy(id, userId))
      ensures forall t :: t in rows <==> t in old(rows) && !(t.id == id && t.userId == userId)
    {
      FilterIncreasing(rows, NotIdOwnedBy(id, userId), IdOf);
      rows := Filter(rows, NotIdOwnedBy(id, userId));
    }

    /** `deleteAllTasksForUser`: removes exactly the owner's rows. */
    method DeleteAllTasksForUser(userId: string)
      requires Valid()
      modifies this
      ensures Valid() && nextId == old(nextId) && users == old(users)
      ensures rows == Filter(old(rows), (t: Task) => t.userId != userId)
      ensures forall t :: t in rows <==> t in old(rows) && t.userId != userId
    {
      FilterIncreasing(rows, (t: Task) => t.userId != userId, IdOf);
      rows := Filter(rows, (t: Task) => t.userId != userId);
    }

    /** `getUserStats`: fails for an unknown user, otherwise counts the
        user's completed tasks, those completed since Sunday 00:00 of the
        current week, and pending tasks due at or before now. */
    method GetUserStats(userId: string, now: int) returns (r: Result<Stats>)
      ensures r.Failure? <==> userId !in users
      ensures r.Failure? ==> r.message == UserNotFound
      ensures r.Success? ==> r.value == StatsOf(rows, userId, now)
      ensures r.Success? ==> r.value.completedThisWeek <= r.value.totalCompleted
    {
      if userId !in users {
        return Failure(UserNotFound);
      }
      var weekStart := new Date(now);
      weekStart.ShiftDate(-weekStart.GetDay());
      weekStart.SetHours(0, 0, 0, 0);
      Decompose(weekStart.ms);
      assert weekStart.ms == WeekStart(now);
      var completedThisWeek := Filter(rows, CompletedSince(userId, weekStart.ms));
      var overdueTasks := Filter(rows, OverdueOf(userId, now));
      var allCompletedTasks := Filter(rows, CompletedOf(userId));
      r := Success(Stats(|allCompletedTasks|, |completedThisWeek|, |overdueTasks|));
      WeeklyAtMostTotal(rows, userId, now);
    }
  }
}
