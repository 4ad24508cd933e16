/** The scanner page's state: the candidates from the last scan, the
    processing flag, and the candidate being edited with its index
    (-1 when none). The image preview, the toasts and the navigation are
    not modelled. */
module Scanner {
  import opened Wrappers
  import opened JsValues
  import opened Drafts

  class ScannerPage {
    var extractedTasks: seq<Draft>
    var isProcessing: bool
    var editingTask: Option<Draft>
    var editingIndex: int

    constructor ()
      ensures extractedTasks == [] && !isProcessing && editingTask.None? && editingIndex == -1
    {
      extractedTasks := [];
      isProcessing := false;
      editingTask := None;
      editingIndex := -1;
    }

    /** `handleFileSelect`: with a file chosen, processing starts and the
        scan request is sent. */
    method HandleFileSelect(hasFile: bool) returns (scanSent: bool)
      modifies this
      ensures scanSent == hasFile
      ensures isProcessing == (old(isProcessing) || hasFile)
      ensures extractedTasks == old(extractedTasks) && editingTask == old(editingTask) && editingIndex == old(editingIndex)
    {
      scanSent := false;
      if hasFile {
        isProcessing := true;
        scanSent := true;
      }
    }

    /** The scan's `onSuccess`: the reply becomes the candidate list and
        processing ends. */
    method OnScanSuccess(items: seq<map<string, Json>>)
      modifies this
      ensures extractedTasks == DraftsOf(items) && !isProcessing
      ensures editingTask == old(editingTask) && editingIndex == old(editingIndex)
    {
      var tasks := DraftsOf(items);
      extractedTasks := tasks;
      isProcessing := false;
    }

    /** The scan's `onError`: processing ends and nothing else changes. */
    method OnScanError()
      modifies this
      ensures !isProcessing
      ensures extractedTasks == old(extractedTasks) && editingTask == old(editingTask) && editingIndex == old(editingIndex)
    {
      isProcessing := false;
    }

    /** `handleEditTask`: a copy of the candidate goes into the dialog. */
    method HandleEditTask(task: Draft, index: int)
      modifies this
      ensures editingTask == Some(task) && editingIndex == index
      ensures extractedTasks == old(extractedTasks) && isProcessing == old(isProcessing)
    {
      editingTask := Some(task);
      editingIndex := index;
    }

    /** An input of the dialog: the candidate being edited, if any, takes
        the new value in that field only. */
    method EditDialog(field: DialogField, value: string)
      modifies this
      ensures editingTask == if old(editingTask).Some? then Some(EditField(old(editingTask).value, field, value)) else None
      ensures extractedTasks == old(extractedTasks) && isProcessing == old(isProcessing) && editingIndex == old(editingIndex)
    {
      if editingTask.Some? {
        var prev := editingTask.value;
        editingTask := Some(EditField(prev, field, value));
      }
    }

    /** The dialog's Cancel: only the edited candidate is dropped; the
        index stays. */
    method CancelEdit()
      modifies this
      ensures editingTask.None?
      ensures extractedTasks == old(extractedTasks) && isProcessing == old(isProcessing) && editingIndex == old(editingIndex)
    {
      editingTask := None;
    }

    /** `handleSaveEdit`: with a candidate in the dialog and an index that
        is not negative, the candidate replaces the element at that index
        and the editing state is cleared; otherwise nothing happens. */
    method HandleSaveEdit()
      modifies this
      ensures old(editingTask).Some? && old(editingIndex) >= 0 ==>
        && extractedTasks == ReplaceAt(old(extractedTasks), old(editingIndex), old(editingTask).value)
        && editingTask.None? && editingIndex == -1
      ensures !(old(editingTask).Some? && old(editingIndex) >= 0) ==>
        extractedTasks == old(extractedTasks) && editingTask == old(editingTask) && editingIndex == old(editingIndex)
      ensures isProcessing == old(isProcessing)
    {
      if editingTask.Some? && editingIndex >= 0 {
        var updatedTasks := ReplaceAt(extractedTasks, editingIndex, editingTask.value);
        extractedTasks := updatedTasks;
        editingTask := None;
        editingIndex := -1;
      }
    }

    /** `handleSaveTasks`: the whole list is submitted, and only when it is
        not empty. */
    method HandleSaveTasks() returns (submitted: Option<seq<Draft>>)
      ensures submitted.Some? <==> |extractedTasks| > 0
      ensures submitted.Some? ==> submitted.value == extractedTasks
    {
      submitted := None;
      if |extractedTasks| > 0 {
        submitted := Some(extractedTasks);
      }
    }
  }
}
