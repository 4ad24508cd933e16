/** The task routes of the server: the week window of `GET /api/tasks/week`,
    the save loop of `POST /api/voice-to-tasks`, the deadline defaulting of
    `POST /api/tasks`, the task-id guard of the patch, complete and delete
    routes, and the bulk delete loop. Each route's reply is a `Result`: a
    `Failure` carries the JSON `message` of the error reply. The router
    itself, authentication and uploads are not modelled; the insert schema
    is a parameter. */
module Routes {
  import opened Wrappers
  import opened JsValues
  import opened Text
  import opened Time
  import opened Seqs
  import opened Deadline
  import opened Structurer
  import opened Storage

  const InvalidTaskId: string := "Invalid task ID"
  const NotAnArray: string := "taskIds must be an array"
  const CreateFailed: string := "Failed to create task"
  const UpdateFailed: string := "Failed to update task"
  const CompleteFailed: string := "Failed to complete task"
  const Deleted: string := "Task deleted successfully"
  const BulkFailed: string := "Failed to delete tasks"

  // ---------------------------------------------------------------------
  // GET /api/tasks/week

  /** The `week` query parameter: 'last' and 'next' move one week back or
      forward; anything else, or no parameter, is the current week. */
  function WeekOffset(week: Option<Json>): (r: int)
    ensures -1 <= r <= 1
    ensures r == -1 <==> week == Some(Str("last"))
    ensures r == 1 <==> week == Some(Str("next"))
  {
    if week == Some(Str("last")) then -1
    else if week == Some(Str("next")) then 1
    else 0
  }

  /** The Sunday opening the requested week. */
  function WindowSunday(now: int, offset: int): (r: int)
    ensures Weekday(r) == 0
  {
    WeekdayShift(SundayOf(Day(now)), 7 * offset);
    SundayOf(Day(now)) + 7 * offset
  }

  /** Sunday 00:00:00.000 of the requested week. */
  function WindowStart(now: int, offset: int): int {
    DayStart(WindowSunday(now, offset))
  }

  /** The following Saturday at 23:59:59.999. */
  function WindowEnd(now: int, offset: int): int {
    DayEnd(WindowSunday(now, offset) + 6)
  }

  /** Start and end of the week window, built as the route builds them by
      moving copies of `now`. */
  method GetWeekWindow(week: Option<Json>, now: int) returns (startMs: int, endMs: int)
    ensures startMs == WindowStart(now, WeekOffset(week))
    ensures endMs == WindowEnd(now, WeekOffset(week))
  {
    var nowDate := new Date(now);
    var startDate := new Date(now);
    var weekOffset := 0;
    if week == Some(Str("last")) {
      weekOffset := -1;
    } else if week == Some(Str("next")) {
      weekOffset := 1;
    }
    startDate.ShiftDate(-nowDate.GetDay() + weekOffset * 7);
    startDate.SetHours(0, 0, 0, 0);
    var endDate := new Date(startDate.ms);
    endDate.ShiftDate(6);
    endDate.SetHours(23, 59, 59, 999);
    Decompose(startDate.ms);
    Decompose(endDate.ms);
    startMs := startDate.ms;
    endMs := endDate.ms;
  }

  /** The window runs from a Sunday midnight through the last millisecond of
      the following Saturday: exactly seven days. */
  lemma WindowShape(now: int, offset: int)
    ensures Weekday(Day(WindowStart(now, offset))) == 0 && TimeOfDay(WindowStart(now, offset)) == 0
    ensures Weekday(Day(WindowEnd(now, offset))) == 6 && TimeOfDay(WindowEnd(now, offset)) == MsPerDay - 1
    ensures WindowEnd(now, offset) == WindowStart(now, offset) + 7 * MsPerDay - 1
  {
    WeekdayShift(WindowSunday(now, offset), 6);
  }

  /** The current week's window holds `now`, and its start is the week
      start the statistics use. */
  lemma CurrentWindowHoldsNow(now: int)
    ensures WindowStart(now, 0) <= now <= WindowEnd(now, 0)
    ensures WindowStart(now, 0) == WeekStart(now)
  {
    Decompose(now);
  }

  /** Consecutive windows meet without gap or overlap. */
  lemma WindowsAdjacent(now: int, offset: int)
    ensures WindowEnd(now, offset) + 1 == WindowStart(now, offset + 1)
  {
  }

  /** The week route: the window and the owner's tasks due inside it,
      earliest first. */
  method GetWeekTasks(store: TaskTable, userId: string, week: Option<Json>, now: int)
    returns (tasks: seq<Task>, startMs: int, endMs: int)
    ensures startMs == WindowStart(now, WeekOffset(week)) && endMs == WindowEnd(now, WeekOffset(week))
    ensures multiset(tasks) == multiset(Filter(store.rows, DueWithin(userId, startMs, endMs)))
    ensures forall t :: t in tasks <==> t in store.rows && t.userId == userId && t.dueDate.Some? && startMs <= t.dueDate.value <= endMs
    ensures forall i, j :: 0 <= i < j < |tasks| ==> tasks[i].dueDate.value <= tasks[j].dueDate.value
  {
    startMs, endMs := GetWeekWindow(week, now);
    tasks := store.GetTasksByUserIdAndDateRange(userId, startMs, endMs);
  }

  // ---------------------------------------------------------------------
  // POST /api/voice-to-tasks

  /** The object handed to the insert schema for one extracted task:
      the task's own fields, the caller's id and the resolved due date. */
  datatype VoiceCandidate = VoiceCandidate(task: ExtractedTask, userId: string, dueDate: Option<int>)

  /** `taskData.suggestedDeadline ? parseSuggestedDeadline(...) : null`.
      A truthy deadline that is not a string has no `toLowerCase`, so the
      call throws and the item is skipped. */
  function VoiceDue(t: ExtractedTask, now: int): (r: Result<Option<int>>)
    ensures !Present(t.suggestedDeadline) ==> r == Success(None)
    ensures r.Failure? <==> Present(t.suggestedDeadline) && !t.suggestedDeadline.value.Str?
    ensures r.Success? && r.value.Some? ==> exists s :: t.suggestedDeadline == Some(Str(s)) && r.value.value == Resolved(s, now)
  {
    if !Present(t.suggestedDeadline) then Success(None)
    else if t.suggestedDeadline.value.Str? then Success(Some(Resolved(t.suggestedDeadline.value.s, now)))
    else Failure("suggestion.toLowerCase is not a function")
  }

  /** What one extracted task contributes to the batch: its insert record,
      or nothing when its deadline or the schema rejects it. */
  function VoiceItem(t: ExtractedTask, userId: string, now: int, schema: VoiceCandidate -> Option<NewTask>): (r: seq<NewTask>)
    ensures |r| <= 1
  {
    match VoiceDue(t, now)
    case Failure(_) => []
    case Success(due) =>
      match schema(VoiceCandidate(t, userId, due))
      case None => []
      case Some(n) => [n]
  }

  /** The insert records the voice route stores, in extraction order. */
  function VoiceBatch(xs: seq<ExtractedTask>, userId: string, now: int, schema: VoiceCandidate -> Option<NewTask>): (r: seq<NewTask>)
    ensures forall n :: n in r ==> exists k :: 0 <= k < |xs| && n in VoiceItem(xs[k], userId, now, schema)
    decreases |xs|
  {
    if xs == [] then []
    else VoiceBatch(xs[..|xs| - 1], userId, now, schema) + VoiceItem(xs[|xs| - 1], userId, now, schema)
  }

  /** The voice route's save loop: each extracted task is validated and
      stored on its own; one that fails is skipped and the loop goes on. */
  method SaveVoiceTasks(store: TaskTable, userId: string, extracted: seq<ExtractedTask>, now: int,
                        schema: VoiceCandidate -> Option<NewTask>)
    returns (saved: seq<Task>)
    requires store.Valid()
    modifies store
    ensures store.Valid() && store.users == old(store.users)
    ensures store.rows == old(store.rows) + saved
    ensures |saved| == |VoiceBatch(extracted, userId, now, schema)|
    ensures forall k :: 0 <= k < |saved| ==>
      saved[k] == Inserted(VoiceBatch(extracted, userId, now, schema)[k], old(store.nextId) + k, now)
  {
    saved := [];
    var i := 0;
    while i < |extracted|
      invariant 0 <= i <= |extracted|
      invariant store.Valid() && store.users == old(store.users)
      invariant store.rows == old(store.rows) + saved
      invariant store.nextId == old(store.nextId) + |saved|
      invariant |saved| == |VoiceBatch(extracted[..i], userId, now, schema)|
      invariant forall k :: 0 <= k < |saved| ==>
        saved[k] == Inserted(VoiceBatch(extracted[..i], userId, now, schema)[k], old(store.nextId) + k, now)
    {
      var taskData := extracted[i];
      assert extracted[..i + 1][..i] == extracted[..i];
      assert extracted[..i + 1][i] == taskData;
      var skip := false;
      var dueDate: Option<int> := None;
      if Present(taskData.suggestedDeadline) {
        if taskData.suggestedDeadline.value.Str? {
          var d := ParseSuggestedDeadline(taskData.suggestedDeadline.value.s, now);
          dueDate := Some(d);
        } else {
          skip := true;
        }
      }
      if !skip {
        var task := schema(VoiceCandidate(taskData, userId, dueDate));
        if task.Some? {
          var savedTask := store.CreateTask(task.value, now);
          saved := saved + [savedTask];
        }
      }
      i := i + 1;
    }
    assert extracted[..i] == extracted;
  }

  lemma {:induction false} VoiceBatchAppend(xs: seq<ExtractedTask>, ys: seq<ExtractedTask>, userId: string, now: int,
                                            schema: VoiceCandidate -> Option<NewTask>)
    ensures VoiceBatch(xs + ys, userId, now, schema) == VoiceBatch(xs, userId, now, schema) + VoiceBatch(ys, userId, now, schema)
    decreases |ys|
  {
    if ys == [] {
      assert xs + ys == xs;
    } else {
      var last := ys[|ys| - 1];
      assert (xs + ys)[..|xs + ys| - 1] == xs + ys[..|ys| - 1];
      assert (xs + ys)[|xs + ys| - 1] == last;
      VoiceBatchAppend(xs, ys[..|ys| - 1], userId, now, schema);
    }
  }

  /** The route never stores more tasks than were extracted. */
  lemma {:induction false} VoiceBatchBound(xs: seq<ExtractedTask>, userId: string, now: int, schema: VoiceCandidate -> Option<NewTask>)
    ensures |VoiceBatch(xs, userId, now, schema)| <= |xs|
    decreases |xs|
  {
    if xs != [] {
      VoiceBatchBound(xs[..|xs| - 1], userId, now, schema);
    }
  }

  /** A rejected item is skipped without disturbing the items around it. */
  lemma VoiceSkip(xs: seq<ExtractedTask>, bad: ExtractedTask, ys: seq<ExtractedTask>, userId: string, now: int,
                  schema: VoiceCandidate -> Option<NewTask>)
    requires VoiceItem(bad, userId, now, schema) == []
    ensures VoiceBatch(xs + [bad] + ys, userId, now, schema)
         == VoiceBatch(xs, userId, now, schema) + VoiceBatch(ys, userId, now, schema)
  {
    var front := xs + [bad];
    assert front[..|front| - 1] == xs;
    assert VoiceBatch(front, userId, now, schema) == VoiceBatch(xs, userId, now, schema);
    VoiceBatchAppend(front, ys, userId, now, schema);
  }

  /** Three extracted tasks whose second carries a numeric deadline: the
      first and third are stored, in order, and the second is skipped. */
  lemma VoiceScenario(a: ExtractedTask, c: ExtractedTask, userId: string, now: int, schema: VoiceCandidate -> Option<NewTask>)
    requires !Present(a.suggestedDeadline) && !Present(c.suggestedDeadline)
    requires schema(VoiceCandidate(a, userId, None)).Some? && schema(VoiceCandidate(c, userId, None)).Some?
    ensures var b := ExtractedTask(Str("Call the bank"), None, Medium, None, Some(Num(5)));
      VoiceBatch([a, b, c], userId, now, schema)
        == [schema(VoiceCandidate(a, userId, None)).value, schema(VoiceCandidate(c, userId, None)).value]
  {
    var b := ExtractedTask(Str("Call the bank"), None, Medium, None, Some(Num(5)));
    assert VoiceItem(b, userId, now, schema) == [];
    VoiceSkip([a], b, [c], userId, now, schema);
    assert [a] + [b] + [c] == [a, b, c];
    assert VoiceBatch([a], userId, now, schema) == VoiceBatch([], userId, now, schema) + VoiceItem(a, userId, now, schema);
    assert VoiceBatch([c], userId, now, schema) == VoiceBatch([], userId, now, schema) + VoiceItem(c, userId, now, schema);
  }

  // ---------------------------------------------------------------------
  // POST /api/tasks

  /** The due date the created task gets: the phrase is converted only
      when `suggestedDeadline` is truthy and `dueDate` is not; a truthy
      phrase that is not a string throws, which the route reports as a
      failed create. */
  function PostDueDate(body: Json, parsedDue: Option<int>, now: int): (r: Result<Option<int>>)
    requires !body.Null?
    ensures r.Failure? ==> r.message == CreateFailed
    ensures r.Failure? <==> Present(Member(body, "suggestedDeadline")) && !Present(Member(body, "dueDate")) && !Member(body, "suggestedDeadline").value.Str?
    ensures r.Success? && r.value != parsedDue ==>
      exists s :: Member(body, "suggestedDeadline") == Some(Str(s)) && r.value == Some(Resolved(s, now))
    ensures Present(Member(body, "suggestedDeadline")) && Member(body, "suggestedDeadline").value.Str? && !Present(Member(body, "dueDate")) ==>
      r == Success(Some(Resolved(Member(body, "suggestedDeadline").value.s, now)))
    ensures !Present(Member(body, "suggestedDeadline")) ==> r == Success(parsedDue)
  {
    var phrase := Member(body, "suggestedDeadline");
    if Present(phrase) && !Present(Member(body, "dueDate")) then
      if phrase.value.Str? then Success(Some(Resolved(phrase.value.s, now))) else Failure(CreateFailed)
    else Success(parsedDue)
  }

  /** A supplied due date always wins over the phrase. */
  lemma SuppliedDueDateWins(body: Json, parsedDue: Option<int>, now: int)
    requires !body.Null? && Present(Member(body, "dueDate"))
    ensures PostDueDate(body, parsedDue, now) == Success(parsedDue)
  {
  }

  /** With no due date, any non-empty phrase fills it in, whatever else
      the body holds and whatever the schema parsed. */
  lemma PhraseFillsMissingDueDate(body: Json, phrase: string, parsedDue: Option<int>, now: int)
    requires body.Obj? && phrase != ""
    requires "suggestedDeadline" in body.fields && body.fields["suggestedDeadline"] == Str(phrase)
    requires "dueDate" !in body.fields
    ensures PostDueDate(body, parsedDue, now) == Success(Some(Resolved(phrase, now)))
  {
    assert Member(body, "suggestedDeadline") == Some(Str(phrase));
    assert Member(body, "dueDate").None?;
  }

  /** `POST /api/tasks`: parses the body with the insert schema, fills the
      due date from the phrase, and stores the task. */
  method PostTask(store: TaskTable, userId: string, body: Json, now: int,
                  schema: (Json, string) -> Option<NewTask>)
    returns (r: Result<Task>)
    requires store.Valid() && !body.Null?
    modifies store
    ensures store.Valid() && store.users == old(store.users)
    ensures r.Failure? <==> schema(body, userId).None? || PostDueDate(body, schema(body, userId).value.dueDate, now).Failure?
    ensures r.Failure? ==> r.message == CreateFailed && store.rows == old(store.rows)
    ensures r.Success? ==>
      var n := schema(body, userId).value;
      && r.value == Inserted(n.(dueDate := PostDueDate(body, n.dueDate, now).value), old(store.nextId), now)
      && store.rows == old(store.rows) + [r.value]
  {
    var parsed := schema(body, userId);
    if parsed.None? {
      return Failure(CreateFailed);
    }
    var taskData := parsed.value;
    var phrase := Member(body, "suggestedDeadline");
    if Present(phrase) && !Present(Member(body, "dueDate")) {
      if !phrase.value.Str? {
        return Failure(CreateFailed);
      }
      var dueDate := ParseSuggestedDeadline(phrase.value.s, now);
      taskData := taskData.(dueDate := Some(dueDate));
    }
    var task := store.CreateTask(taskData, now);
    r := Success(task);
  }

  // ---------------------------------------------------------------------
  // PATCH /api/tasks/:id, POST /api/tasks/:id/complete, DELETE /api/tasks/:id

  /** `parseInt(req.params.id)` and the `isNaN` check. */
  function TaskIdParam(param: string): (r: Result<int>)
    ensures r.Failure? <==> ParseInt(param).None?
    ensures r.Failure? ==> r.message == InvalidTaskId
    ensures r.Success? ==> Some(r.value) == ParseInt(param)
  {
    match ParseInt(param)
    case None => Failure(InvalidTaskId)
    case Some(n) => Success(n)
  }

  /** Every id the server hands out is accepted back in a path. */
  lemma TaskIdRoundTrip(id: nat)
    ensures TaskIdParam(NatToString(id)) == Success(id)
  {
    ParseIntOfNat(id);
  }

  /** The literal segments of the bulk and delete-all routes are not
      numbers, so a DELETE to them that reaches the `:id` route, which is
      registered first, is answered with 400. */
  lemma LiteralSegmentsRejected()
    ensures TaskIdParam("bulk") == Failure(InvalidTaskId)
    ensures TaskIdParam("all") == Failure(InvalidTaskId)
  {
    assert TrimStart("bulk") == "bulk" by {
      assert !IsSpace("bulk"[0]);
    }
    assert TrimStart("all") == "all" by {
      assert !IsSpace("all"[0]);
    }
    assert SignedPart("bulk") == "bulk";
    assert SignedPart("all") == "all";
    assert !IsDigit("bulk"[0]) && !IsDigit("all"[0]);
  }

  /** `PATCH /api/tasks/:id`: a bad id is refused before anything else;
      a body the partial schema rejects, or a task that is missing or not
      the caller's, is a failed update. */
  method PatchTaskRoute(store: TaskTable, userId: string, param: string, patch: Option<TaskPatch>, now: int)
    returns (r: Result<Task>)
    requires store.Valid()
    modifies store
    ensures store.Valid() && store.users == old(store.users) && store.nextId == old(store.nextId)
    ensures ParseInt(param).None? ==> r == Failure(InvalidTaskId)
    ensures r.Failure? ==> store.rows == old(store.rows)
    ensures r.Failure? && ParseInt(param).Some? ==> r.message == UpdateFailed
    ensures r.Success? ==> patch.Some?
    ensures r.Success? ==> exists k ::
      && 0 <= k < |old(store.rows)|
      && Some(old(store.rows)[k].id) == ParseInt(param) && old(store.rows)[k].userId == userId
      && r.value == ApplyPatch(old(store.rows)[k], patch.value, now)
      && store.rows == old(store.rows)[k := r.value]
  {
    var id := TaskIdParam(param);
    if id.Failure? {
      return Failure(id.message);
    }
    if patch.None? {
      return Failure(UpdateFailed);
    }
    var u := store.UpdateTaskForUser(id.value, userId, patch.value, now);
    if u.Failure? {
      return Failure(UpdateFailed);
    }
    r := Success(u.value);
  }

  /** `POST /api/tasks/:id/complete`. */
  method CompleteTaskRoute(store: TaskTable, userId: string, param: string, now: int)
    returns (r: Result<Task>)
    requires store.Valid()
    modifies store
    ensures store.Valid() && store.users == old(store.users) && store.nextId == old(store.nextId)
    ensures ParseInt(param).None? ==> r == Failure(InvalidTaskId)
    ensures r.Failure? ==> store.rows == old(store.rows)
    ensures r.Failure? && ParseInt(param).Some? ==> r.message == CompleteFailed
    ensures r.Success? ==> r.value.status == Completed && r.value.completedAt == Some(now) && r.value.userId == userId
    ensures r.Success? ==> exists k ::
      && 0 <= k < |old(store.rows)|
      && Some(old(store.rows)[k].id) == ParseInt(param) && old(store.rows)[k].userId == userId
      && r.value == CompletedRow(old(store.rows)[k], now)
      && store.rows == old(store.rows)[k := r.value]
  {
    var id := TaskIdParam(param);
    if id.Failure? {
      return Failure(id.message);
    }
    var c := store.CompleteTask(id.value, userId, now);
    if c.Failure? {
      return Failure(CompleteFailed);
    }
    r := Success(c.value);
  }

  /** `DELETE /api/tasks/:id`: removes the caller's row with that id, if
      any. */
  method DeleteTaskRoute(store: TaskTable, userId: string, param: string)
    returns (r: Result<string>)
    requires store.Valid()
    modifies store
    ensures store.Valid() && store.users == old(store.users) && store.nextId == old(store.nextId)
    ensures r.Failure? <==> ParseInt(param).None?
    ensures r.Failure? ==> r.message == InvalidTaskId && store.rows == old(store.rows)
    ensures r.Success? ==> r.value == Deleted
    ensures r.Success? ==> forall t :: t in store.rows <==> t in old(store.rows) && !(Some(t.id) == ParseInt(param) && t.userId == userId)
  {
    var id := TaskIdParam(param);
    if id.Failure? {
      return Failure(id.message);
    }
    store.DeleteTaskForUser(id.value, userId);
    r := Success(Deleted);
  }

  // ---------------------------------------------------------------------
  // DELETE /api/tasks/bulk

  /** `String(x)`, the text `parseInt` reads: an array joins its elements'
      texts with ",", a `null` element giving "". */
  function JsString(x: Json): (r: string)
    ensures x.Num? ==> ParseInt(r) == Some(x.n)
    ensures x.Str? ==> r == x.s
    ensures x.Arr? && x.items == [] ==> r == ""
    ensures x.Obj? || x.Null? || x.Bool? ==> ParseInt(r).None?
    decreases x
  {
    match x
    case Null => NoLeadingDigit("null"); "null"
    case Bool(b) => NoLeadingDigit("true"); NoLeadingDigit("false"); if b then "true" else "false"
    case Num(n) => ParseIntOfInt(n); IntToString(n)
    case Str(s) => s
    case Arr(items) => Join(seq(|items|, i requires 0 <= i < |items| => if items[i].Null? then "" else JsString(items[i])))
    case Obj(_) => NoLeadingDigit("[object Object]"); "[object Object]"
  }

  /** `parts.join(",")`. */
  function Join(parts: seq<string>): string
    decreases |parts|
  {
    if parts == [] then ""
    else if |parts| == 1 then parts[0]
    else parts[0] + "," + Join(parts[1..])
  }

  /** A text that starts with a character that is neither white space, a
      sign nor a digit reads as `NaN`. */
  lemma NoLeadingDigit(s: string)
    requires |s| > 0 && !IsSpace(s[0]) && !IsDigit(s[0]) && s[0] != '-' && s[0] != '+'
    ensures ParseInt(s).None?
  {
    assert TrimStart(s) == s;
    assert SignedPart(s) == s;
  }

  /** `parseInt(x)` of an array element: a number is itself, a string is
      parsed, `null`, a boolean and an object are `NaN`, and an array is
      read through the text its elements join to. */
  function ElementId(x: Json): (r: Option<int>)
    ensures x.Num? ==> r == Some(x.n)
    ensures x.Str? ==> r == ParseInt(x.s)
    ensures x.Null? || x.Bool? || x.Obj? ==> r.None?
  {
    match x
    case Num(n) => Some(n)
    case Str(s) => ParseInt(s)
    case Arr(_) => ParseInt(JsString(x))
    case _ => None
  }

  /** Each case is what `parseInt` makes of `String(x)`. */
  lemma ElementIdReadsString(x: Json)
    ensures ElementId(x) == ParseInt(JsString(x))
  {
    match x
    case Num(n) => ParseIntOfInt(n);
    case Null => NoLeadingDigit("null");
    case Bool(b) => NoLeadingDigit("true"); NoLeadingDigit("false");
    case Obj(_) => NoLeadingDigit("[object Object]");
    case _ =>
  }

  /** An array holding one number counts as that number. */
  lemma SingletonArrayId(n: int)
    ensures ElementId(Arr([Num(n)])) == Some(n)
  {
    assert JsString(Arr([Num(n)])) == Join([IntToString(n)]);
    ParseIntOfInt(n);
  }

  /** What `parseInt` reads from each element, `None` for `NaN`. */
  function ParsedIds(items: seq<Json>): (r: seq<Option<int>>)
    ensures |r| == |items|
    ensures forall k :: 0 <= k < |items| ==> r[k] == ElementId(items[k])
  {
    seq(|items|, k requires 0 <= k < |items| => ElementId(items[k]))
  }

  predicate IsNaN(id: Option<int>) {
    id.None?
  }

  /** The numeric ids among the parsed elements, in order. */
  function Ids(ps: seq<Option<int>>): seq<int>
    decreases |ps|
  {
    if ps == [] then []
    else
      var last := ps[|ps| - 1];
      Ids(ps[..|ps| - 1]) + (if last.Some? then [last.value] else [])
  }

  /** The rows left after deleting each id in turn. */
  function WithoutIds(rows: seq<Task>, ids: seq<int>): seq<Task>
    decreases |ids|
  {
    if ids == [] then rows
    else Filter(WithoutIds(rows, ids[..|ids| - 1]), IdIsNot(ids[|ids| - 1]))
  }

  /** Deleting a list of ids keeps exactly the rows whose id is not in
      the list; no owner is checked. */
  lemma {:induction false} WithoutIdsMembers(rows: seq<Task>, ids: seq<int>)
    ensures forall t :: t in WithoutIds(rows, ids) <==> t in rows && t.id !in ids
    decreases |ids|
  {
    if ids != [] {
      WithoutIdsMembers(rows, ids[..|ids| - 1]);
      assert ids == ids[..|ids| - 1] + [ids[|ids| - 1]];
      forall t
        ensures t in WithoutIds(rows, ids) <==> t in rows && t.id !in ids
      {
        assert t.id in ids <==> t.id in ids[..|ids| - 1] || t.id == ids[|ids| - 1];
      }
    }
  }

  /** Walking the parsed ids up to the first `NaN`: element i is that
      `NaN` exactly when the walk stops there. */
  lemma StopStep(ps: seq<Option<int>>, i: nat)
    requires i < |ps|
    requires IndexFrom(ps, IsNaN, 0).None? || i <= IndexFrom(ps, IsNaN, 0).value
    ensures ps[i].None? ==> IndexFrom(ps, IsNaN, 0) == Some(i)
    ensures ps[i].Some? ==> IndexFrom(ps, IsNaN, 0).None? || i + 1 <= IndexFrom(ps, IsNaN, 0).value
  {
    if ps[i].None? {
      assert IsNaN(ps[i]);
    } else {
      assert !IsNaN(ps[i]);
    }
  }

  lemma IdsStep(ps: seq<Option<int>>, i: nat)
    requires i < |ps| && ps[i].Some?
    ensures Ids(ps[..i + 1]) == Ids(ps[..i]) + [ps[i].value]
  {
    assert ps[..i + 1][..i] == ps[..i];
  }

  lemma WithoutIdsStep(rows: seq<Task>, ids: seq<int>, id: int)
    ensures WithoutIds(rows, ids + [id]) == Filter(WithoutIds(rows, ids), IdIsNot(id))
  {
    assert (ids + [id])[..|ids|] == ids;
  }

  /** The bulk delete handler: refuses a `taskIds` that is not an array;
      otherwise deletes each id in turn and reports how many ids it was
      given, not how many rows went. The id column is an integer, so the
      delete for an element that reads as `NaN` fails in the database: the
      ids before it stay deleted and the reply is the generic failure. */
  method BulkDelete(store: TaskTable, taskIds: Option<Json>) returns (r: Result<nat>)
    requires store.Valid()
    modifies store
    ensures store.Valid() && store.users == old(store.users) && store.nextId == old(store.nextId)
    ensures !(taskIds.Some? && taskIds.value.Arr?) ==> r == Failure(NotAnArray) && store.rows == old(store.rows)
    ensures taskIds.Some? && taskIds.value.Arr? ==>
      var ps := ParsedIds(taskIds.value.items);
      var stop := IndexFrom(ps, IsNaN, 0);
      && (stop.None? ==> r == Success(|ps|) && store.rows == WithoutIds(old(store.rows), Ids(ps)))
      && (stop.Some? ==> r == Failure(BulkFailed) && store.rows == WithoutIds(old(store.rows), Ids(ps[..stop.value])))
  {
    if !(taskIds.Some? && taskIds.value.Arr?) {
      return Failure(NotAnArray);
    }
    var items := taskIds.value.items;
    ghost var ps := ParsedIds(items);
    ghost var stop := IndexFrom(ps, IsNaN, 0);
    var i := 0;
    while i < |items|
      invariant 0 <= i <= |items|
      invariant store.Valid() && store.users == old(store.users) && store.nextId == old(store.nextId)
      invariant stop.None? || i <= stop.value
      invariant store.rows == WithoutIds(old(store.rows), Ids(ps[..i]))
    {
      var id := ElementId(items[i]);
      StopStep(ps, i);
      if id.None? {
        return Failure(BulkFailed);
      }
      IdsStep(ps, i);
      store.DeleteTask(id.value);
      WithoutIdsStep(old(store.rows), Ids(ps[..i]), id.value);
      i := i + 1;
    }
    assert ps[..i] == ps;
    r := Success(|items|);
  }

  /** The reported count is the number of ids sent, even when none of them
      named a row. */
  lemma BulkCountIsIdsSent(rows: seq<Task>, id: int)
    requires forall t :: t in rows ==> t.id != id
    ensures ParsedIds([Num(id), Num(id)]) == [Some(id), Some(id)]
    ensures WithoutIds(rows, Ids(ParsedIds([Num(id), Num(id)]))) == rows
  {
    var ps := ParsedIds([Num(id), Num(id)]);
    assert ps == [Some(id), Some(id)];
    TwiceIds(id);
    AbsentIdTwice(rows, id);
  }

  /** Two parsed copies of an id give that id twice. */
  lemma TwiceIds(id: int)
    ensures Ids([Some(id), Some(id)]) == [id, id]
  {
    assert Ids([Some(id)]) == [id] by {
      assert [Some(id)][..0] == [];
    }
    assert [Some(id), Some(id)][..1] == [Some(id)];
  }

  /** Deleting an absent id twice keeps every row. */
  lemma AbsentIdTwice(rows: seq<Task>, id: int)
    requires forall t :: t in rows ==> t.id != id
    ensures WithoutIds(rows, [id, id]) == rows
  {
    FilterAll(rows, IdIsNot(id));
    assert [id, id][..1] == [id];
    assert [id][..0] == [];
    assert WithoutIds(rows, [id]) == rows;
  }
}
