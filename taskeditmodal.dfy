/**
 * The edit dialog: it loads the fields of the task it is given, checks that the title is
 * not blank and the due date not empty, and hands the trimmed fields to the parent.
 */
module TaskEditModal {
  import opened Wrappers
  import opened JsText
  import opened Types

  const TitleRequiredMessage := "タイトルは必須です"
  const DueDateRequiredMessage := "期限は必須です"

  /**
   * The two checks of `handleSubmit`, in order: the error message to show, or `None`
   * when the fields may be saved.
   */
  function CheckEdit(title: string, dueDate: string): (r: Option<string>)
    ensures r.None? <==> !AllWhiteSpace(title) && dueDate != ""
    ensures AllWhiteSpace(title) ==> r == Some(TitleRequiredMessage)
    ensures !AllWhiteSpace(title) && dueDate == "" ==> r == Some(DueDateRequiredMessage)
  {
    if Trim(title) == [] then Some(TitleRequiredMessage)
    else if dueDate == "" then Some(DueDateRequiredMessage)
    else None
  }

  /** What the dialog hands to `onSave`: the task's id and the edited fields. */
  datatype EditSave = EditSave(taskId: int, draft: TaskDraft)

  /** The draft saved for the fields: title and description trimmed, the rest as typed. */
  function SavedDraft(title: string, category: string, description: string, dueDate: string): (d: TaskDraft)
    requires CheckEdit(title, dueDate).None?
    ensures d.title == Trim(title) && d.description == Trim(description)
    ensures d.title != [] && !IsWhiteSpace(d.title[0]) && !IsWhiteSpace(d.title[|d.title| - 1])
    ensures |d.title| <= |title| && |d.description| <= |description|
    ensures d.category == category && d.dueDate == dueDate != ""
  {
    var t := Trim(title);
    assert t != [] && |t| <= |title|;
    TaskDraft(t, category, Trim(description), dueDate)
  }

  /** Opening the dialog again on a saved draft and saving once more changes nothing. */
  lemma {:induction false} SavingAgainKeepsTheDraft(title: string, category: string, description: string, dueDate: string)
    requires CheckEdit(title, dueDate).None?
    ensures var d := SavedDraft(title, category, description, dueDate);
      CheckEdit(d.title, d.dueDate).None?
      && SavedDraft(d.title, d.category, d.description, d.dueDate) == d
  {
    var d := SavedDraft(title, category, description, dueDate);
    TrimIsIdempotent(title);
    TrimIsIdempotent(description);
    assert !AllWhiteSpace(d.title) by {
      assert !IsWhiteSpace(d.title[0]);
    }
  }

  /**
   * The dialog's fields, the task it edits, and the calls made to the parent so far:
   * the saves in order and the number of `onClose` calls.
   */
  class EditDialog {
    var title: string
    var category: string
    var description: string
    var dueDate: string
    var error: string
    var task: Option<Task>
    var saves: seq<EditSave>
    var closes: nat

    /** Empty fields, category "other", no task. */
    constructor()
      ensures title == "" && category == "other" && description == "" && dueDate == "" && error == ""
      ensures task == None && saves == [] && closes == 0
    {
      title := "";
      category := "other";
      description := "";
      dueDate := "";
      error := "";
      task := None;
      saves := [];
      closes := 0;
    }

    /**
     * The effect run when the `task` prop changes: a task fills the fields (a missing
     * description becomes empty) and clears the error; no task leaves the fields alone.
     */
    method LoadTask(t: Option<Task>)
      modifies this
      ensures task == t && saves == old(saves) && closes == old(closes)
      ensures t.Some? ==>
        title == t.value.title && category == t.value.category && dueDate == t.value.dueDate
        && description == (if t.value.description.Some? then t.value.description.value else "")
        && error == ""
      ensures t.None? ==>
        title == old(title) && category == old(category) && description == old(description)
        && dueDate == old(dueDate) && error == old(error)
    {
      task := t;
      if t.Some? {
        title := t.value.title;
        category := t.value.category;
        description := if t.value.description.Some? then t.value.description.value else "";
        dueDate := t.value.dueDate;
        error := "";
      }
    }

    /** Typing a title replaces it and clears the error. */
    method EditTitle(value: string)
      modifies this
      ensures title == value && error == ""
      ensures category == old(category) && description == old(description) && dueDate == old(dueDate)
      ensures task == old(task) && saves == old(saves) && closes == old(closes)
    {
      title := value;
      error := "";
    }

    /** Picking a due date replaces it and clears the error. */
    method EditDueDate(value: string)
      modifies this
      ensures dueDate == value && error == ""
      ensures title == old(title) && category == old(category) && description == old(description)
      ensures task == old(task) && saves == old(saves) && closes == old(closes)
    {
      dueDate := value;
      error := "";
    }

    /** Choosing a category replaces it; the error stays. */
    method EditCategory(value: string)
      modifies this
      ensures category == value
      ensures title == old(title) && description == old(description) && dueDate == old(dueDate)
      ensures error == old(error) && task == old(task) && saves == old(saves) && closes == old(closes)
    {
      category := value;
    }

    /** Typing a description replaces it; the error stays. */
    method EditDescription(value: string)
      modifies this
      ensures description == value
      ensures title == old(title) && category == old(category) && dueDate == old(dueDate)
      ensures error == old(error) && task == old(task) && saves == old(saves) && closes == old(closes)
    {
      description := value;
    }

    /**
     * `handleSubmit`: a failed check shows its message; with no task nothing happens;
     * otherwise the trimmed draft is saved, the error cleared and the dialog closed.
     * The fields themselves are never changed.
     */
    method HandleSubmit()
      modifies this
      ensures title == old(title) && category == old(category) && description == old(description)
      ensures dueDate == old(dueDate) && task == old(task)
      ensures CheckEdit(old(title), old(dueDate)).Some? ==>
        error == CheckEdit(old(title), old(dueDate)).value && saves == old(saves) && closes == old(closes)
      ensures CheckEdit(old(title), old(dueDate)).None? && old(task).None? ==>
        error == old(error) && saves == old(saves) && closes == old(closes)
      ensures CheckEdit(old(title), old(dueDate)).None? && old(task).Some? ==>
        saves == old(saves) + [EditSave(old(task).value.id, SavedDraft(old(title), old(category), old(description), old(dueDate)))]
        && error == "" && closes == old(closes) + 1
    {
      var check := CheckEdit(title, dueDate);
      if check.Some? {
        error := check.value;
        return;
      }
      if task.None? {
        return;
      }
      saves := saves + [EditSave(task.value.id, SavedDraft(title, category, description, dueDate))];
      error := "";
      closes := closes + 1;
    }

    /** `handleClose`: clears the error and closes the dialog; the fields stay. */
    method HandleClose()
      modifies this
      ensures error == "" && closes == old(closes) + 1
      ensures title == old(title) && category == old(category) && description == old(description)
      ensures dueDate == old(dueDate) && task == old(task) && saves == old(saves)
    {
      error := "";
      closes := closes + 1;
    }
  }
}
