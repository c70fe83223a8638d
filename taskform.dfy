/**
 * The form that adds a task: title and due date must be non-empty, as typed; after an
 * accepted submission the fields return to their initial values.
 */
module TaskForm {
  import opened Wrappers
  import opened JsText
  import opened Types
  import opened TaskEditModal

  const RequiredFieldsMessage := "タイトルと期限は必須です"

  /** `!title || !dueDate` fails: both fields must be non-empty strings. */
  predicate FormAccepts(title: string, dueDate: string) {
    title != "" && dueDate != ""
  }

  /**
   * The form is more lenient than the edit dialog: every pair the dialog accepts, the
   * form accepts, and a title made only of white space is accepted by the form but
   * refused by the dialog.
   */
  lemma {:induction false} FormIsLaxerThanEditDialog(title: string, dueDate: string)
    ensures CheckEdit(title, dueDate).None? ==> FormAccepts(title, dueDate)
    ensures FormAccepts(title, dueDate) && CheckEdit(title, dueDate).Some? <==>
      title != "" && AllWhiteSpace(title) && dueDate != ""
  {
    if title == "" {
      assert AllWhiteSpace(title);
    }
  }

  lemma {:induction false} BlankTitleExample()
    ensures FormAccepts(" ", "2025-09-01")
    ensures CheckEdit(" ", "2025-09-01") == Some(TitleRequiredMessage)
  {
    assert IsWhiteSpace(" "[0]);
    assert AllWhiteSpace(" ");
  }

  /** The form's fields and what it has reported so far: the alerts shown and the drafts added. */
  class FormState {
    var title: string
    var category: string
    var description: string
    var dueDate: string
    var alerts: seq<string>
    var added: seq<TaskDraft>

    /** The fields start empty, with category "other". */
    constructor()
      ensures title == "" && category == "other" && description == "" && dueDate == ""
      ensures alerts == [] && added == []
    {
      title := "";
      category := "other";
      description := "";
      dueDate := "";
      alerts := [];
      added := [];
    }

    /** The `onChange` handlers: each field takes what was typed or chosen. */
    method Edit(newTitle: string, newCategory: string, newDescription: string, newDueDate: string)
      modifies this
      ensures title == newTitle && category == newCategory
      ensures description == newDescription && dueDate == newDueDate
      ensures alerts == old(alerts) && added == old(added)
    {
      title, category, description, dueDate := newTitle, newCategory, newDescription, newDueDate;
    }

    /**
     * `handleSubmit`: a missing title or due date raises the alert and keeps the fields;
     * otherwise the fields are handed over untrimmed and the form resets.
     */
    method HandleSubmit()
      modifies this
      ensures !FormAccepts(old(title), old(dueDate)) ==>
        alerts == old(alerts) + [RequiredFieldsMessage] && added == old(added)
        && title == old(title) && category == old(category)
        && description == old(description) && dueDate == old(dueDate)
      ensures FormAccepts(old(title), old(dueDate)) ==>
        added == old(added) + [TaskDraft(old(title), old(category), old(description), old(dueDate))]
        && alerts == old(alerts)
        && title == "" && category == "other" && description == "" && dueDate == ""
    {
      if !FormAccepts(title, dueDate) {
        alerts := alerts + [RequiredFieldsMessage];
        return;
      }
      added := added + [TaskDraft(title, category, description, dueDate)];
      title, category, description, dueDate := "", "other", "", "";
    }
  }
}
