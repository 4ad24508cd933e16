/** The voice recorder page's state machine: idle, recording, then
    processing once the recorder's stop event has sent the audio, and idle
    again when the reply or the error arrives. The microphone, the audio
    chunks and the toasts are not modelled; whether the microphone was
    granted is a parameter. */
module VoiceRecorder {
  import opened Wrappers
  import opened JsValues
  import opened Drafts

  /** The control the page shows. */
  datatype Control = StartButton | StopButton | Spinner

  function ControlOf(isRecording: bool, isProcessing: bool): (r: Control)
    ensures r == StartButton <==> !isRecording && !isProcessing
    ensures r == StopButton <==> isRecording
    ensures r == Spinner <==> !isRecording && isProcessing
  {
    if !isRecording && !isProcessing then StartButton
    else if isRecording then StopButton
    else Spinner
  }

  /** `MediaRecorder.state`. */
  datatype RecorderState = Inactive | Recording

  class VoiceRecorderPage {
    var extractedTasks: seq<Draft>
    var isProcessing: bool
    var isRecording: bool
    /** The recorder in use, by its state; `None` is `null`. */
    var mediaRecorder: Option<RecorderState>
    /** Recorders stopped whose `onstop` handler has not yet run. */
    var queuedStops: nat
    var editingTask: Option<Draft>
    var editingIndex: int

    /** The page shows it is recording exactly while it holds a recorder,
        and that recorder is recording. */
    ghost predicate Valid()
      reads this
    {
      (isRecording <==> mediaRecorder.Some?) && (mediaRecorder.Some? ==> mediaRecorder.value == Recording)
    }

    constructor ()
      ensures Valid() && ControlOf(isRecording, isProcessing) == StartButton
      ensures extractedTasks == [] && queuedStops == 0 && editingTask.None? && editingIndex == -1
    {
      extractedTasks := [];
      isProcessing := false;
      isRecording := false;
      mediaRecorder := None;
      queuedStops := 0;
      editingTask := None;
      editingIndex := -1;
    }

    /** `startRecording`: with the microphone, a recorder is started and
        the page is recording; without it nothing changes. */
    method StartRecording(micGranted: bool)
      requires Valid()
      modifies this
      ensures Valid()
      ensures micGranted ==> isRecording && mediaRecorder == Some(Recording) && ControlOf(isRecording, isProcessing) == StopButton
      ensures !micGranted ==> isRecording == old(isRecording) && mediaRecorder == old(mediaRecorder)
      ensures isProcessing == old(isProcessing) && queuedStops == old(queuedStops)
      ensures extractedTasks == old(extractedTasks) && editingTask == old(editingTask) && editingIndex == old(editingIndex)
    {
      if micGranted {
        var recorder := Recording;
        mediaRecorder := Some(recorder);
        isRecording := true;
      }
    }

    /** `stopRecording`: acts only on a recorder that is recording; it is
        stopped, its stop event is queued, and the page stops recording. */
    method StopRecording()
      requires Valid()
      modifies this
      ensures Valid()
      ensures old(mediaRecorder) == Some(Recording) ==> !isRecording && mediaRecorder.None? && queuedStops == old(queuedStops) + 1
      ensures old(mediaRecorder) != Some(Recording) ==> isRecording == old(isRecording) && mediaRecorder == old(mediaRecorder) && queuedStops == old(queuedStops)
      ensures isProcessing == old(isProcessing)
      ensures extractedTasks == old(extractedTasks) && editingTask == old(editingTask) && editingIndex == old(editingIndex)
    {
      if mediaRecorder.Some? && mediaRecorder.value == Recording {
        queuedStops := queuedStops + 1;
        isRecording := false;
        mediaRecorder := None;
      }
    }

    /** The recorder's `onstop` handler: processing starts and the audio is
        sent. */
    method FireOnStop()
      requires Valid() && queuedStops > 0
      modifies this
      ensures Valid()
      ensures isProcessing && queuedStops == old(queuedStops) - 1
      ensures !old(isRecording) ==> ControlOf(isRecording, isProcessing) == Spinner
      ensures isRecording == old(isRecording) && mediaRecorder == old(mediaRecorder)
      ensures extractedTasks == old(extractedTasks) && editingTask == old(editingTask) && editingIndex == old(editingIndex)
    {
      isProcessing := true;
      queuedStops := queuedStops - 1;
    }

    /** The upload's `onSuccess`: the reply becomes the candidate list and
        processing ends. */
    method OnSuccess(items: seq<map<string, Json>>)
      requires Valid()
      modifies this
      ensures Valid()
      ensures extractedTasks == DraftsOf(items) && !isProcessing
      ensures !old(isRecording) ==> ControlOf(isRecording, isProcessing) == StartButton
      ensures isRecording == old(isRecording) && mediaRecorder == old(mediaRecorder) && queuedStops == old(queuedStops)
      ensures editingTask == old(editingTask) && editingIndex == old(editingIndex)
    {
      extractedTasks := DraftsOf(items);
      isProcessing := false;
    }

    /** The upload's `onError`: processing ends and the list is kept. */
    method OnError()
      requires Valid()
      modifies this
      ensures Valid()
      ensures !isProcessing
      ensures !old(isRecording) ==> ControlOf(isRecording, isProcessing) == StartButton
      ensures isRecording == old(isRecording) && mediaRecorder == old(mediaRecorder) && queuedStops == old(queuedStops)
      ensures extractedTasks == old(extractedTasks) && editingTask == old(editingTask) && editingIndex == old(editingIndex)
    {
      isProcessing := false;
    }

    /** `handleEditTask`. */
    method HandleEditTask(task: Draft, index: int)
      modifies this
      ensures editingTask == Some(task) && editingIndex == index
      ensures extractedTasks == old(extractedTasks) && isProcessing == old(isProcessing) && isRecording == old(isRecording)
      ensures mediaRecorder == old(mediaRecorder) && queuedStops == old(queuedStops)
    {
      editingTask := Some(task);
      editingIndex := index;
    }

    /** An input of the dialog, as on the scanner page: only the edited
        candidate's field changes. */
    method EditDialog(field: DialogField, value: string)
      modifies this
      ensures editingTask == if old(editingTask).Some? then Some(EditField(old(editingTask).value, field, value)) else None
      ensures extractedTasks == old(extractedTasks) && isProcessing == old(isProcessing) && isRecording == old(isRecording)
      ensures mediaRecorder == old(mediaRecorder) && queuedStops == old(queuedStops) && editingIndex == old(editingIndex)
    {
      if editingTask.Some? {
        var prev := editingTask.value;
        editingTask := Some(EditField(prev, field, value));
      }
    }

    /** The dialog's Cancel (and closing it): only the edited candidate is
        dropped; the index and the recording state stay. */
    method CancelEdit()
      modifies this
      ensures editingTask.None?
      ensures extractedTasks == old(extractedTasks) && isProcessing == old(isProcessing) && isRecording == old(isRecording)
      ensures mediaRecorder == old(mediaRecorder) && queuedStops == old(queuedStops) && editingIndex == old(editingIndex)
    {
      editingTask := None;
    }

    /** `handleSaveEdit`: as on the scanner page, only the element at the
        edited index changes, and a negative index or no candidate in the
        dialog leaves everything as it was. */
    method HandleSaveEdit()
      modifies this
      ensures old(editingTask).Some? && old(editingIndex) >= 0 ==>
        && extractedTasks == ReplaceAt(old(extractedTasks), old(editingIndex), old(editingTask).value)
        && editingTask.None? && editingIndex == -1
      ensures !(old(editingTask).Some? && old(editingIndex) >= 0) ==>
        extractedTasks == old(extractedTasks) && editingTask == old(editingTask) && editingIndex == old(editingIndex)
      ensures isProcessing == old(isProcessing) && isRecording == old(isRecording)
      ensures mediaRecorder == old(mediaRecorder) && queuedStops == old(queuedStops)
    {
      if editingTask.Some? && editingIndex >= 0 {
        var updatedTasks := ReplaceAt(extractedTasks, editingIndex, editingTask.value);
        extractedTasks := updatedTasks;
        editingTask := None;
        editingIndex := -1;
      }
    }
  }

  /** One full round from the idle page: start, stop, the stop event, and
      the reply, after which the page is idle again with the reply's
      candidates. */
  method RecordingRound(items: seq<map<string, Json>>) returns (page: VoiceRecorderPage)
    ensures page.Valid() && ControlOf(page.isRecording, page.isProcessing) == StartButton
    ensures page.extractedTasks == DraftsOf(items) && page.queuedStops == 0
  {
    page := new VoiceRecorderPage();
    page.StartRecording(true);
    assert ControlOf(page.isRecording, page.isProcessing) == StopButton;
    page.StopRecording();
    page.FireOnStop();
    assert ControlOf(page.isRecording, page.isProcessing) == Spinner;
    page.OnSuccess(items);
  }

  /** Without the microphone the page stays idle: neither recording nor
      processing. */
  method MicDenied() returns (page: VoiceRecorderPage)
    ensures page.Valid() && !page.isRecording && !page.isProcessing && page.mediaRecorder.None?
  {
    page := new VoiceRecorderPage();
    page.StartRecording(false);
  }
}
