/**
 * The header: the remaining-task counter and the two goal inputs. Each input builds a
 * whole new goal from the value typed and the goal currently shown.
 */
module Header {
  import opened Wrappers
  import opened JsText
  import opened Types
  import opened Statistics

  /** The "remaining" counter: `totalTasks - completedTasks`, shown as it is, without clamping. */
  function RemainingTasks(completedTasks: int, totalTasks: int): (r: int)
    ensures r + completedTasks == totalTasks
  {
    totalTasks - completedTasks
  }

  /** Fed with the page's counts, the counter shows the number of incomplete tasks. */
  lemma {:induction false} RemainingTasksAreIncomplete(tasks: seq<Task>)
    ensures RemainingTasks(|CompletedTasks(tasks)|, |tasks|) == |IncompleteTasks(tasks)| >= 0
  {
  }

  /** The exam date a goal keeps: `goals?.examDate || null`. */
  function KeptExamDate(goals: Option<Goal>): (d: Option<string>)
    ensures d.Some? <==> goals.Some? && goals.value.examDate.Some? && goals.value.examDate.value != ""
    ensures d.Some? ==> d == goals.value.examDate
  {
    if goals.Some? && goals.value.examDate.Some? && goals.value.examDate.value != "" then goals.value.examDate
    else None
  }

  /** The score a goal keeps: `goals?.targetScore || 0`. */
  function KeptScore(goals: Option<Goal>): (n: JsNumber)
    ensures n.Num?
    ensures goals.Some? && goals.value.targetScore.Truthy() ==> n == goals.value.targetScore
    ensures !(goals.Some? && goals.value.targetScore.Truthy()) ==> n == Num(0)
  {
    if goals.Some? && goals.value.targetScore.Truthy() then goals.value.targetScore else Num(0)
  }

  /** `handleTargetScoreChange`: `Number(value)` as the score, the exam date kept. */
  function TargetScoreChange(goals: Option<Goal>, value: string): (g: Goal)
    ensures g.examDate == KeptExamDate(goals)
    ensures AllWhiteSpace(value) ==> g.targetScore == Num(0)
  {
    Goal(StringToNumber(value), KeptExamDate(goals))
  }

  /** A score typed as decimal digits is stored as the number they denote. */
  lemma {:induction false} TypedScoreIsItsValue(goals: Option<Goal>, value: string)
    requires AllDecimalDigits(value) && value != []
    ensures TargetScoreChange(goals, value).targetScore == Num(ValueInRadix(value, 10))
  {
    StringToNumberOfDigits(value);
  }

  /** `handleExamDateChange`: the value as the exam date (`None` when emptied), the score kept. */
  function ExamDateChange(goals: Option<Goal>, value: string): (g: Goal)
    ensures g.examDate.Some? <==> value != ""
    ensures g.examDate.Some? ==> g.examDate.value == value
    ensures g.targetScore == KeptScore(goals)
  {
    Goal(KeptScore(goals), if value == "" then None else Some(value))
  }

  /** Changing the date, then the score, records both as entered. */
  lemma {:induction false} DateThenScoreKeepsBoth(goals: Option<Goal>, date: string, score: string)
    ensures TargetScoreChange(Some(ExamDateChange(goals, date)), score)
      == Goal(StringToNumber(score), if date == "" then None else Some(date))
  {
  }

  /** Changing the score, then the date, records both; a zero or NaN score becomes 0. */
  lemma {:induction false} ScoreThenDateKeepsBoth(goals: Option<Goal>, score: string, date: string)
    ensures var n := StringToNumber(score);
      ExamDateChange(Some(TargetScoreChange(goals, score)), date)
        == Goal(if n.Truthy() then n else Num(0), if date == "" then None else Some(date))
  {
  }

  /** An exam date change does not depend on the previous exam date; a score change does not depend on the previous score. */
  lemma {:induction false} ChangesForgetTheirOwnField(goals: Option<Goal>, date: string, score: string)
    ensures forall e :: ExamDateChange(Some(Goal(KeptScore(goals), e)), date) == ExamDateChange(goals, date)
    ensures forall n :: TargetScoreChange(Some(Goal(n, KeptExamDate(goals))), score) == TargetScoreChange(goals, score)
  {
  }

  lemma {:induction false} GoalExamples()
    ensures TargetScoreChange(None, "") == Goal(Num(0), None)
    ensures ExamDateChange(Some(Goal(NaN, Some("2025-12-31"))), "") == Goal(Num(0), None)
    ensures RemainingTasks(3, 2) == -1
  {
    assert AllWhiteSpace("");
  }

  /** A typed score replaces the old one; an empty exam date is not kept. */
  lemma {:induction false} TypedScoreExample()
    ensures TargetScoreChange(Some(Goal(Num(700), Some(""))), "800") == Goal(Num(800), None)
  {
    assert NatToString(8) == "8";
    assert NatToString(80) == "80";
    assert NatToString(800) == "800";
    ValueOfNatToString(800);
    TypedScoreIsItsValue(Some(Goal(Num(700), Some(""))), NatToString(800));
  }
}
