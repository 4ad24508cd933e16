/** The provider side of the extraction pipeline: the text-extraction and
    transcription calls, the structuring call, and the defensive
    normalisation of the structuring reply into candidate tasks. The
    provider itself is a parameter: a `ChatReply` is what one chat call
    returned. */
module Structurer {
  import opened Wrappers
  import opened JsValues
  import opened Text

  datatype Priority = Low | Medium | High

  function PriorityName(p: Priority): string {
    match p
    case Low => "low"
    case Medium => "medium"
    case High => "high"
  }

  /** A candidate task as the normaliser returns it. Fields the source sets
      to `undefined` are `None`. */
  datatype ExtractedTask = ExtractedTask(
    title: Json,
    description: Option<Json>,
    priority: Priority,
    estimatedHours: Option<int>,
    suggestedDeadline: Option<Json>)

  /** One chat completion: the call failed with a message, or it returned a
      message whose content may be `null`. */
  datatype ChatReply = ChatError(error: string) | ChatContent(content: Option<string>)

  const UntitledTask: string := "Untitled Task"

  /** `["low", "medium", "high"].includes(x)`: strict equality, so only
      those exact strings name a priority. */
  function PriorityOf(x: Option<Json>): (r: Option<Priority>)
    ensures r.Some? <==> x.Some? && x.value.Str? && x.value.s in {"low", "medium", "high"}
    ensures r.Some? ==> x == Some(Str(PriorityName(r.value)))
  {
    if x == Some(Str("low")) then Some(Low)
    else if x == Some(Str("medium")) then Some(Medium)
    else if x == Some(Str("high")) then Some(High)
    else None
  }

  /** `x || undefined`. */
  function OrUndefined(x: Option<Json>): (r: Option<Json>)
    ensures r.Some? <==> Present(x)
    ensures r.Some? ==> r == x
  {
    if Present(x) then x else None
  }

  /** One reply item (not `null`), each field defaulted or dropped on its
      own. */
  function NormaliseItem(item: Json): ExtractedTask
    requires !item.Null?
  {
    var title := Member(item, "title");
    var hours := Member(item, "estimatedHours");
    ExtractedTask(
      if Present(title) then title.value else Str(UntitledTask),
      OrUndefined(Member(item, "description")),
      PriorityOf(Member(item, "priority")).GetOr(Medium),
      if hours.Some? && hours.value.Num? then Some(hours.value.n) else None,
      OrUndefined(Member(item, "suggestedDeadline")))
  }

  /** What every normalised task satisfies: a truthy title, and a
      description and deadline that are either absent or truthy. */
  predicate WellFormed(t: ExtractedTask) {
    Truthy(t.title) && (t.description.None? || Truthy(t.description.value))
    && (t.suggestedDeadline.None? || Truthy(t.suggestedDeadline.value))
  }

  /** The field-by-field rules of the normaliser. */
  lemma NormaliseItemFields(item: Json)
    requires !item.Null?
    ensures var t := NormaliseItem(item);
      && WellFormed(t)
      && (Present(Member(item, "title")) ==> Some(t.title) == Member(item, "title"))
      && (!Present(Member(item, "title")) ==> t.title == Str(UntitledTask))
      && (PriorityOf(Member(item, "priority")).Some? ==> Member(item, "priority") == Some(Str(PriorityName(t.priority))))
      && (PriorityOf(Member(item, "priority")).None? ==> t.priority == Medium)
      && (t.estimatedHours.Some? <==> Member(item, "estimatedHours").Some? && Member(item, "estimatedHours").value.Num?)
      && (t.estimatedHours.Some? ==> Member(item, "estimatedHours") == Some(Num(t.estimatedHours.value)))
      && (t.description.None? <==> !Present(Member(item, "description")))
      && (t.suggestedDeadline.None? <==> !Present(Member(item, "suggestedDeadline")))
  {
  }

  /** The JSON object a normalised task is sent as; `undefined` members are
      omitted. */
  function ToJson(t: ExtractedTask): Json {
    Obj(map["title" := t.title, "priority" := Str(PriorityName(t.priority))]
      + (if t.description.Some? then map["description" := t.description.value] else map[])
      + (if t.estimatedHours.Some? then map["estimatedHours" := Num(t.estimatedHours.value)] else map[])
      + (if t.suggestedDeadline.Some? then map["suggestedDeadline" := t.suggestedDeadline.value] else map[]))
  }

  /** Normalisation is a fixed point on its own output: sending a
      well-formed task as JSON and normalising it again gives it back. */
  lemma NormaliseRoundTrip(t: ExtractedTask)
    requires WellFormed(t)
    ensures NormaliseItem(ToJson(t)) == t
  {
    var j := ToJson(t);
    assert Member(j, "title") == Some(t.title);
    assert Member(j, "priority") == Some(Str(PriorityName(t.priority)));
    assert Member(j, "description") == t.description;
    assert Member(j, "estimatedHours") == if t.estimatedHours.Some? then Some(Num(t.estimatedHours.value)) else None;
    assert Member(j, "suggestedDeadline") == t.suggestedDeadline;
  }

  /** The message a `TypeError` from reading a member of `null` carries. */
  function NullRead(key: string): string {
    "Cannot read properties of null (reading '" + key + "')"
  }

  /** The normaliser exactly as written: `result.tasks` and `task.title` are
      read without a `null` check, so a `null` reply or a `null` item throws
      and the whole batch fails. */
  function NormaliseTasksAsWritten(result: Json): (r: Result<seq<ExtractedTask>>)
    ensures r.Failure? <==> result.Null? || (TaskItems(result).Some? && Null in TaskItems(result).value)
    ensures result.Null? ==> r == Failure(NullRead("tasks"))
    ensures r.Failure? && !result.Null? ==> r == Failure(NullRead("title"))
  {
    if result.Null? then Failure(NullRead("tasks"))
    else
      var tasks := Member(result, "tasks");
      if !Present(tasks) || !tasks.value.Arr? then Success([])
      else
        var items := tasks.value.items;
        if exists i :: 0 <= i < |items| && items[i].Null? then Failure(NullRead("title"))
        else Success(seq(|items|, i requires 0 <= i < |items| => NormaliseItem(items[i])))
  }

  /** A reply item as the corrected normaliser reads it: `null` is read as
      an object with no members. */
  function NormaliseEntry(item: Json): ExtractedTask {
    if item.Null? then NormaliseItem(Obj(map[])) else NormaliseItem(item)
  }

  /** The reply's task list, or `None` when `tasks` is missing or not an
      array. */
  function TaskItems(result: Json): Option<seq<Json>> {
    if result.Null? then None
    else
      var tasks := Member(result, "tasks");
      if Present(tasks) && tasks.value.Arr? then Some(tasks.value.items) else None
  }

  /** The corrected normaliser, one malformed item never spoiling the
      others: a reply that is not an
      object holding a `tasks` array gives no tasks, and every item, `null`
      included, gives exactly one task in its place. */
  function NormaliseTasks(result: Json): (r: seq<ExtractedTask>)
    ensures TaskItems(result).None? ==> r == []
    ensures TaskItems(result).Some? ==> |r| == |TaskItems(result).value|
    ensures TaskItems(result).Some? ==> forall i :: 0 <= i < |r| ==> r[i] == NormaliseEntry(TaskItems(result).value[i])
    ensures forall i :: 0 <= i < |r| ==> WellFormed(r[i])
  {
    match TaskItems(result)
    case None => []
    case Some(items) =>
      var r := seq(|items|, i requires 0 <= i < |items| => NormaliseEntry(items[i]));
      assert forall i :: 0 <= i < |r| ==> WellFormed(r[i]) by {
        forall i | 0 <= i < |r| ensures WellFormed(r[i]) {
          if items[i].Null? { NormaliseItemFields(Obj(map[])); } else { NormaliseItemFields(items[i]); }
        }
      }
      r
  }

  /** Where the source does not throw, the corrected normaliser agrees
      with it. */
  lemma NormaliseAgrees(result: Json)
    requires NormaliseTasksAsWritten(result).Success?
    ensures NormaliseTasksAsWritten(result) == Success(NormaliseTasks(result))
  {
    if TaskItems(result).Some? {
      var items := TaskItems(result).value;
      var r := NormaliseTasks(result);
      assert forall i :: 0 <= i < |items| ==> !items[i].Null?;
      assert NormaliseTasksAsWritten(result).value == r;
    }
  }

  /** A reply with one `null` item among good ones: as written the whole
      batch fails, corrected the good item survives. */
  lemma NullItemSinksBatch()
    ensures var reply := Obj(map["tasks" := Arr([Null, Obj(map["title" := Str("Buy milk")])])]);
      && NormaliseTasksAsWritten(reply) == Failure(NullRead("title"))
      && |NormaliseTasks(reply)| == 2
      && NormaliseTasks(reply)[1].title == Str("Buy milk")
  {
    var reply := Obj(map["tasks" := Arr([Null, Obj(map["title" := Str("Buy milk")])])]);
    var items := [Null, Obj(map["title" := Str("Buy milk")])];
    assert TaskItems(reply) == Some(items);
    assert items[0].Null?;
  }

  /** A `null` reply (the content was the text "null"): as written it
      throws, corrected it gives no tasks like any other reply without a
      task array. */
  lemma NullReplyThrows()
    ensures NormaliseTasksAsWritten(Null).Failure?
    ensures NormaliseTasks(Null) == []
  {
  }

  /** An invalid priority becomes medium and an empty title becomes
      "Untitled Task". */
  lemma DefaultsExample()
    ensures var t := NormaliseItem(Obj(map["title" := Str(""), "priority" := Str("URGENT")]));
      t.priority == Medium && t.title == Str(UntitledTask)
  {
    var item := Obj(map["title" := Str(""), "priority" := Str("URGENT")]);
    assert Member(item, "priority") == Some(Str("URGENT"));
  }

  const StructurePrefix: string := "Failed to structure tasks from text: "

  /** `structureTasksFromText` once the provider has answered: empty
      content is read as "{}", a parse error or a failed call is re-thrown
      with a prefix, and a parsed reply is normalised. `parse` is
      `JSON.parse`. */
  function StructureTasksFromText(reply: ChatReply, parse: string -> Result<Json>): (r: Result<seq<ExtractedTask>>)
    ensures reply.ChatError? ==> r == Failure(StructurePrefix + reply.error)
    ensures r.Failure? ==> StructurePrefix <= r.message
    ensures r.Success? ==> forall i :: 0 <= i < |r.value| ==> WellFormed(r.value[i])
    ensures reply.ChatContent? ==>
      var text := if reply.content.None? || reply.content.value == "" then "{}" else reply.content.value;
      && (parse(text).Success? ==> r == Success(NormaliseTasks(parse(text).value)))
      && (parse(text).Failure? ==> r == Failure(StructurePrefix + parse(text).message))
  {
    match reply
    case ChatError(e) => Failure(StructurePrefix + e)
    case ChatContent(c) =>
      var text := if c.None? || c.value == "" then "{}" else c.value;
      match parse(text)
      case Failure(e) => Failure(StructurePrefix + e)
      case Success(j) => Success(NormaliseTasks(j))
  }

  /** A failed call or an unparsable reply is an error, never an empty
      list; an empty reply is read as "{}" and gives the empty list. */
  lemma StructureOutcomes(reply: ChatReply, parse: string -> Result<Json>)
    ensures reply.ChatError? ==> StructureTasksFromText(reply, parse) == Failure(StructurePrefix + reply.error)
    ensures reply.ChatContent? && (reply.content.None? || reply.content.value == "")
              && parse("{}") == Success(Obj(map[]))
            ==> StructureTasksFromText(reply, parse) == Success([])
    ensures reply.ChatContent? && reply.content.Some? && reply.content.value != ""
              && parse(reply.content.value).Failure?
            ==> StructureTasksFromText(reply, parse).Failure?
  {
  }

  /** `extractTextFromImage`: the content, or "" when it is `null`. */
  function ExtractTextFromImage(reply: ChatReply): (r: Result<string>)
    ensures r.Success? <==> reply.ChatContent?
    ensures reply.ChatContent? && reply.content.Some? ==> r.value == reply.content.value
    ensures reply.ChatContent? && reply.content.None? ==> r.value == ""
  {
    match reply
    case ChatError(e) => Failure("Failed to extract text from image: " + e)
    case ChatContent(c) => Success(c.GetOr(""))
  }

  /** `transcribeAudioToText`: the trimmed content; a missing or blank one
      throws inside the `try` and is re-thrown with the same prefix as a
      failed call. */
  function TranscribeAudioToText(reply: ChatReply): (r: Result<string>)
    ensures r.Success? <==> reply.ChatContent? && reply.content.Some? && !Blank(reply.content.value)
    ensures r.Success? ==> r.value == Trim(reply.content.value) && Trim(r.value) != ""
    ensures r.Failure? ==> "Failed to transcribe audio: " <= r.message
  {
    match reply
    case ChatError(e) => Failure("Failed to transcribe audio: " + e)
    case ChatContent(c) =>
      if c.None? || Trim(c.value) == "" then
        Failure("Failed to transcribe audio: No transcription received from the model")
      else
        TrimEmptyIffBlank(c.value);
        TrimIdempotent(c.value);
        Success(Trim(c.value))
  }

  const NoImageText: string := "No text could be extracted from the image"
  const NoAudioText: string := "No text could be transcribed from the audio"

  /** `processImageToTasks`: OCR, the blank-text guard, then structuring;
      `structurer` is the provider's answer to a structuring request. */
  function ProcessImageToTasks(ocr: ChatReply, structurer: string -> ChatReply, parse: string -> Result<Json>): (r: Result<seq<ExtractedTask>>)
    ensures r.Success? ==> ocr.ChatContent? && !Blank(ocr.content.GetOr(""))
    ensures ocr.ChatContent? && !Blank(ocr.content.GetOr("")) ==> r == StructureTasksFromText(structurer(ocr.content.GetOr("")), parse)
    ensures ocr.ChatContent? && Blank(ocr.content.GetOr("")) ==> r == Failure(NoImageText)
  {
    TrimEmptyIffBlank(if ocr.ChatContent? then ocr.content.GetOr("") else "");
    match ExtractTextFromImage(ocr)
    case Failure(e) => Failure(e)
    case Success(text) =>
      if Trim(text) == "" then Failure(NoImageText)
      else StructureTasksFromText(structurer(text), parse)
  }

  /** `processAudioToTasks`: transcription, the blank-text guard, then
      structuring. */
  function ProcessAudioToTasks(audio: ChatReply, structurer: string -> ChatReply, parse: string -> Result<Json>): (r: Result<seq<ExtractedTask>>)
    ensures r.Success? ==> audio.ChatContent? && audio.content.Some? && !Blank(audio.content.value)
    ensures audio.ChatContent? && audio.content.Some? && !Blank(audio.content.value) ==>
      r == StructureTasksFromText(structurer(Trim(audio.content.value)), parse)
    ensures !(audio.ChatContent? && audio.content.Some? && !Blank(audio.content.value)) ==>
      TranscribeAudioToText(audio).Failure? && r == Failure(TranscribeAudioToText(audio).message)
  {
    match TranscribeAudioToText(audio)
    case Failure(e) => Failure(e)
    case Success(text) =>
      if Trim(text) == "" then Failure(NoAudioText)
      else StructureTasksFromText(structurer(text), parse)
  }

  /** Blank extracted text fails explicitly, and the structuring provider
      is never consulted: the outcome is the same whatever it would say. */
  lemma BlankImageFails(text: string, s1: string -> ChatReply, s2: string -> ChatReply, parse: string -> Result<Json>)
    requires Blank(text)
    ensures ProcessImageToTasks(ChatContent(Some(text)), s1, parse) == Failure(NoImageText)
    ensures ProcessImageToTasks(ChatContent(Some(text)), s1, parse) == ProcessImageToTasks(ChatContent(Some(text)), s2, parse)
  {
    TrimEmptyIffBlank(text);
  }

  /** A `null` image reply is read as "" and fails the same way. */
  lemma NullImageFails(structurer: string -> ChatReply, parse: string -> Result<Json>)
    ensures ProcessImageToTasks(ChatContent(None), structurer, parse) == Failure(NoImageText)
  {
    assert Trim("") == "";
  }

  /** Blank audio fails in transcription, so the pipeline's own guard
      ("No text could be transcribed") can never fire. */
  lemma AudioGuardUnreachable(audio: ChatReply, structurer: string -> ChatReply, parse: string -> Result<Json>)
    ensures ProcessAudioToTasks(audio, structurer, parse) != Failure(NoAudioText)
    ensures audio.ChatContent? && (audio.content.None? || Blank(audio.content.value)) ==>
      ProcessAudioToTasks(audio, structurer, parse) == Failure("Failed to transcribe audio: No transcription received from the model")
  {
    if audio.ChatContent? && audio.content.Some? {
      TrimEmptyIffBlank(audio.content.value);
    }
    match TranscribeAudioToText(audio)
    case Failure(e) =>
      if audio.ChatError? {
        assert e == "Failed to transcribe audio: " + audio.error;
        assert e[0] == 'F' && NoAudioText[0] == 'N';
      }
    case Success(text) =>
      match structurer(text)
      case ChatError(m) =>
        assert StructurePrefix + m != NoAudioText by {
          assert (StructurePrefix + m)[0] == 'F' && NoAudioText[0] == 'N';
        }
      case ChatContent(c) =>
        var t := if c.None? || c.value == "" then "{}" else c.value;
        match parse(t)
        case Failure(m) =>
          assert StructurePrefix + m != NoAudioText by {
            assert (StructurePrefix + m)[0] == 'F' && NoAudioText[0] == 'N';
          }
        case Success(_) =>
  }

  /** A provider failure during extraction surfaces as an error with the
      extraction prefix, never as an empty task list. */
  lemma ImageProviderErrorSurfaces(e: string, structurer: string -> ChatReply, parse: string -> Result<Json>)
    ensures ProcessImageToTasks(ChatError(e), structurer, parse) == Failure("Failed to extract text from image: " + e)
  {
  }
}
