/** The records the study tracker stores: tasks, the data recorded when one is completed, and the goal. */
module Types {
  import opened Wrappers
  import opened JsText

  /** What the user records when completing a task: minutes spent, difficulty and focus. */
  datatype CompletionData = CompletionData(time: int, difficulty: string, focus: string)

  /**
   * A study task. `dueDate` is a `YYYY-MM-DD` key; the optional members of the record
   * are `Option`s.
   */
  datatype Task = Task(
    id: int,
    title: string,
    category: string,
    description: Option<string>,
    dueDate: string,
    completed: bool,
    createdAt: string,
    completedAt: Option<string>,
    completionData: Option<CompletionData>)

  /** The user's target score and exam date; `examDate` is `None` when not set. */
  datatype Goal = Goal(targetScore: JsNumber, examDate: Option<string>)

  /** The fields a form hands over when a task is added or edited. */
  datatype TaskDraft = TaskDraft(title: string, category: string, description: string, dueDate: string)
}
