/** The candidate tasks the scanner and the voice recorder pages list
    before saving: how a reply becomes candidates, how one candidate is
    edited and put back, and what a candidate sends when it is saved. */
module Drafts {
  import opened Wrappers
  import opened JsValues
  import opened Text
  import opened Storage
  import opened Structurer
  import Routes
  import Deadline

  /** A candidate as the page holds it; `None` is `undefined`. */
  datatype Draft = Draft(
    title: Option<Json>,
    description: Option<Json>,
    priority: Option<Json>,
    estimatedHours: Option<Json>,
    suggestedDeadline: Option<Json>)

  /** The `undefined` slot an array assignment past the end leaves behind. */
  const Hole: Draft := Draft(None, None, None, None, None)

  /** `task[key]` on a reply element, which the server always sends as an
      object. */
  function Get(o: map<string, Json>, key: string): (r: Option<Json>)
    ensures r.Some? <==> key in o
  {
    if key in o then Some(o[key]) else None
  }

  /** The reply mapping of both pages: the title, the hours and the
      deadline phrase pass through, the description is dropped, and a
      falsy priority becomes "medium". */
  function DraftOf(o: map<string, Json>): (d: Draft)
    ensures d.description.None?
    ensures d.title == Get(o, "title") && d.estimatedHours == Get(o, "estimatedHours")
    ensures d.suggestedDeadline == Get(o, "suggestedDeadline")
    ensures Present(d.priority)
    ensures Present(Get(o, "priority")) ==> d.priority == Get(o, "priority")
    ensures !Present(Get(o, "priority")) ==> d.priority == Some(Str("medium"))
  {
    var p := Get(o, "priority");
    Draft(Get(o, "title"), None, if Present(p) then p else Some(Str("medium")), Get(o, "estimatedHours"), Get(o, "suggestedDeadline"))
  }

  /** `data.tasks.map(...)`: one candidate per element, in order. */
  function DraftsOf(items: seq<map<string, Json>>): (r: seq<Draft>)
    ensures |r| == |items|
    ensures forall i :: 0 <= i < |items| ==> r[i] == DraftOf(items[i])
  {
    seq(|items|, i requires 0 <= i < |items| => DraftOf(items[i]))
  }

  /** A candidate drawn from the scan reply keeps every field the
      normaliser produced except the description. */
  lemma ScanDraftKeepsFields(t: ExtractedTask)
    requires ToJson(t).Obj?
    ensures DraftOf(ToJson(t).fields) ==
      Draft(Some(t.title), None, Some(Str(PriorityName(t.priority))),
            if t.estimatedHours.Some? then Some(Num(t.estimatedHours.value)) else None,
            t.suggestedDeadline)
  {
    var o := ToJson(t).fields;
    assert Get(o, "title") == Some(t.title);
    assert Get(o, "priority") == Some(Str(PriorityName(t.priority)));
    assert Get(o, "estimatedHours") == if t.estimatedHours.Some? then Some(Num(t.estimatedHours.value)) else None;
    assert Get(o, "suggestedDeadline") == t.suggestedDeadline;
  }

  /** An instant as a reply carries it. The text format of the ISO string
      is not modelled; the value stands for it. */
  function Instant(ms: int): Json {
    Num(ms)
  }

  function OrNull<T>(o: Option<T>, f: T -> Json): Json {
    if o.Some? then f(o.value) else Null
  }

  /** A stored row as the voice route sends it back: every column, with
      `null` for an empty nullable column. */
  function RowJson(t: Task): map<string, Json> {
    map["id" := Num(t.id), "userId" := Str(t.userId), "title" := Str(t.title),
        "description" := OrNull(t.description, (s: string) => Str(s)),
        "priority" := Str(t.priority), "status" := Str(t.status),
        "estimatedHours" := OrNull(t.estimatedHours, (n: int) => Num(n)),
        "dueDate" := OrNull(t.dueDate, Instant),
        "createdAt" := Instant(t.createdAt),
        "completedAt" := OrNull(t.completedAt, Instant),
        "updatedAt" := Instant(t.updatedAt)]
  }

  /** The voice route replies with stored rows, which have no deadline
      phrase, so a voice candidate never carries one. */
  lemma VoiceDraftHasNoPhrase(t: Task)
    ensures DraftOf(RowJson(t)).suggestedDeadline.None?
    ensures DraftOf(RowJson(t)).title == Some(Str(t.title))
  {
  }

  /** The body `POST /api/tasks` receives for a candidate:
      `JSON.stringify` leaves out the `undefined` members, and a candidate
      has no due date member at all. */
  function DraftJson(d: Draft): (j: Json)
    ensures j.Obj? && j.fields.Keys <= {"title", "description", "priority", "estimatedHours", "suggestedDeadline"}
    ensures Member(j, "dueDate").None?
    ensures Member(j, "title") == d.title && Member(j, "description") == d.description
    ensures Member(j, "priority") == d.priority && Member(j, "estimatedHours") == d.estimatedHours
    ensures Member(j, "suggestedDeadline") == d.suggestedDeadline
  {
    Obj((if d.title.Some? then map["title" := d.title.value] else map[])
      + (if d.description.Some? then map["description" := d.description.value] else map[])
      + (if d.priority.Some? then map["priority" := d.priority.value] else map[])
      + (if d.estimatedHours.Some? then map["estimatedHours" := d.estimatedHours.value] else map[])
      + (if d.suggestedDeadline.Some? then map["suggestedDeadline" := d.suggestedDeadline.value] else map[]))
  }

  /** Saving a scanned candidate turns its phrase into the due date. */
  lemma ScannedPhraseBecomesDueDate(t: ExtractedTask, phrase: string, now: int)
    requires ToJson(t).Obj? && t.suggestedDeadline == Some(Str(phrase)) && phrase != ""
    ensures Routes.PostDueDate(DraftJson(DraftOf(ToJson(t).fields)), None, now) == Success(Some(Deadline.Resolved(phrase, now)))
  {
    ScanDraftKeepsFields(t);
  }

  /** Saving a voice candidate sends neither a due date nor a phrase: the
      copy the server stores loses the due date the first save gave the
      row. */
  lemma VoiceResaveDropsDueDate(t: Task, parsedDue: Option<int>, now: int)
    ensures Routes.PostDueDate(DraftJson(DraftOf(RowJson(t))), parsedDue, now) == Success(parsedDue)
  {
    VoiceDraftHasNoPhrase(t);
  }

  /** `updatedTasks[index] = x` on a copy of the list: in range it replaces
      one element; past the end the array grows, leaving holes. */
  function ReplaceAt(s: seq<Draft>, index: nat, x: Draft): (r: seq<Draft>)
    ensures |r| == if index < |s| then |s| else index + 1
    ensures r[index] == x
    ensures forall j :: 0 <= j < |s| && j != index ==> r[j] == s[j]
    ensures forall j :: |s| <= j < index ==> r[j] == Hole
  {
    if index < |s| then s[index := x] else s + seq(index - |s|, _ => Hole) + [x]
  }

  /** Saving a candidate unchanged leaves the list as it was. */
  lemma ReplaceSame(s: seq<Draft>, index: nat)
    requires index < |s|
    ensures ReplaceAt(s, index, s[index]) == s
  {
    assert forall j :: 0 <= j < |s| ==> ReplaceAt(s, index, s[index])[j] == s[j];
  }

  /** Two saves at the same index: the later one wins. */
  lemma ReplaceTwice(s: seq<Draft>, index: nat, x: Draft, y: Draft)
    ensures ReplaceAt(ReplaceAt(s, index, x), index, y) == ReplaceAt(s, index, y)
  {
    var a := ReplaceAt(ReplaceAt(s, index, x), index, y);
    var b := ReplaceAt(s, index, y);
    assert |a| == |b|;
    forall j | 0 <= j < |a|
      ensures a[j] == b[j]
    {
    }
  }

  /** The hours field of the edit dialog: empty gives `undefined`, any
      other text `parseInt` of it, where `NaN` stands as `null`. */
  function HoursInput(value: string): (r: Option<Json>)
    ensures r.None? <==> value == ""
    ensures r.Some? ==> (r.value.Num? <==> ParseInt(value).Some?)
    ensures r.Some? && r.value.Num? ==> ParseInt(value) == Some(r.value.n)
  {
    if value == "" then None
    else
      var n := ParseInt(value);
      Some(if n.Some? then Num(n.value) else Null)
  }

  /** Typing a whole number gives that number back. */
  lemma HoursRoundTrip(n: int)
    ensures HoursInput(IntToString(n)) == Some(Num(n))
  {
    ParseIntOfInt(n);
  }

  /** The inputs of the edit dialog. */
  datatype DialogField = TitleField | DescriptionField | PriorityField | HoursField | PhraseField

  /** One input of the dialog changed to `value`: the title, description,
      priority and phrase take the text as typed, the hours go through
      `HoursInput`, and every other field of the candidate is kept. */
  function EditField(d: Draft, field: DialogField, value: string): (r: Draft)
    ensures r.title == if field == TitleField then Some(Str(value)) else d.title
    ensures r.description == if field == DescriptionField then Some(Str(value)) else d.description
    ensures r.priority == if field == PriorityField then Some(Str(value)) else d.priority
    ensures r.estimatedHours == if field == HoursField then HoursInput(value) else d.estimatedHours
    ensures r.suggestedDeadline == if field == PhraseField then Some(Str(value)) else d.suggestedDeadline
  {
    match field
    case TitleField => d.(title := Some(Str(value)))
    case DescriptionField => d.(description := Some(Str(value)))
    case PriorityField => d.(priority := Some(Str(value)))
    case HoursField => d.(estimatedHours := HoursInput(value))
    case PhraseField => d.(suggestedDeadline := Some(Str(value)))
  }

  /** A description typed into the dialog reaches the server with the
      candidate, and a phrase typed there becomes its due date. */
  lemma DialogEditsArePosted(d: Draft, description: string, phrase: string, parsedDue: Option<int>, now: int)
    requires phrase != ""
    ensures var e := EditField(EditField(d, DescriptionField, description), PhraseField, phrase);
      && Member(DraftJson(e), "description") == Some(Str(description))
      && Routes.PostDueDate(DraftJson(e), parsedDue, now) == Success(Some(Deadline.Resolved(phrase, now)))
  {
  }

  /** The edit dialog's Save button is disabled for a blank title. */
  function SaveEditDisabled(title: string): (r: bool)
    ensures r <==> Blank(title)
  {
    TrimEmptyIffBlank(title);
    Trim(title) == ""
  }
}
