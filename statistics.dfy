/**
 * The four aggregations of the dashboard: completion percentage, days left to the exam,
 * tasks needed per day and total study time. Floating-point rounding is replaced by exact
 * integer arithmetic: percentages are whole numbers, per-day rates are integer tenths.
 */
module Statistics {
  import opened Wrappers
  import opened Seqs
  import opened Dates
  import opened Types

  /** `tasks.filter(task => task.completed)`. */
  function CompletedTasks(tasks: seq<Task>): (r: seq<Task>)
    ensures forall i :: 0 <= i < |r| ==> r[i].completed
  {
    Filter(tasks, (t: Task) => t.completed)
  }

  /** `tasks.filter(task => !task.completed)`. */
  function IncompleteTasks(tasks: seq<Task>): (r: seq<Task>)
    ensures forall i :: 0 <= i < |r| ==> !r[i].completed
    ensures |CompletedTasks(tasks)| + |r| == |tasks|
  {
    FilterSplits(tasks, (t: Task) => t.completed, (t: Task) => !t.completed);
    Filter(tasks, (t: Task) => !t.completed)
  }

  /** Multiplying by a positive factor keeps strict order, in both directions. */
  lemma {:induction false} ScaleOrder(a: int, b: int, e: int)
    requires e > 0
    ensures e * a < e * b <==> a < b
  {
    if a < b {
      assert e * b - e * a == e * (b - a);
    } else {
      assert e * a - e * b == e * (a - b);
    }
  }

  /**
   * `x / d` rounded to the nearest integer with halves rounded up, for x >= 0 and d > 0:
   * the `q` with q - 1/2 <= x/d < q + 1/2.
   */
  function RoundHalfUp(x: nat, d: int): (q: nat)
    requires d > 0
    ensures 2 * d * q <= 2 * x + d < 2 * d * (q + 1)
    ensures q == 0 <==> 2 * x < d
  {
    var q := (2 * x + d) / (2 * d);
    DivisionBounds(2 * x + d, 2 * d);
    assert 2 * d * (q + 1) == 2 * d * q + 2 * d;
    ScaleOrder(q, 1, 2 * d);
    q
  }

  /** Euclidean division by a positive divisor: the quotient times the divisor is within one divisor below. */
  lemma {:induction false} DivisionBounds(n: int, m: int)
    requires m > 0
    ensures m * (n / m) <= n < m * (n / m) + m
    ensures n >= 0 ==> n / m >= 0
  {
  }

  /** Rounding `x / d` gives exactly `k` when x/d lies within half of `k`, in particular when x == k * d. */
  lemma {:induction false} RoundHalfUpIs(x: nat, d: int, k: nat)
    requires d > 0
    requires 2 * d * k <= 2 * x + d < 2 * d * k + 2 * d
    ensures RoundHalfUp(x, d) == k
  {
    var q := RoundHalfUp(x, d);
    assert 2 * d * (q + 1) == 2 * d * q + 2 * d;
    assert 2 * d * (k + 1) == 2 * d * k + 2 * d;
    ScaleOrder(q, k + 1, 2 * d);
    ScaleOrder(k, q + 1, 2 * d);
  }

  /** The rounded quotient never exceeds a whole-number bound of the exact one. */
  lemma {:induction false} RoundHalfUpAtMost(x: nat, d: int, k: nat)
    requires d > 0 && x <= k * d
    ensures RoundHalfUp(x, d) <= k
  {
    var q := RoundHalfUp(x, d);
    assert 2 * d * q < 2 * d * (k + 1) by {
      assert 2 * d * (k + 1) == 2 * (k * d) + 2 * d;
    }
    ScaleOrder(q, k + 1, 2 * d);
  }

  /**
   * The completion percentage: 0 for no tasks, otherwise 100 * completed / total rounded
   * half up to a whole number, that is the `p` with p - 1/2 <= 100c/n < p + 1/2.
   */
  function CalculateProgress(tasks: seq<Task>): (p: int)
    ensures |tasks| == 0 ==> p == 0
    ensures |tasks| > 0 ==>
      var c, n := |CompletedTasks(tasks)|, |tasks|;
      2 * n * p <= 200 * c + n < 2 * n * (p + 1)
    ensures 0 <= p <= 100
  {
    if |tasks| == 0 then 0
    else
      var c, n := |CompletedTasks(tasks)|, |tasks|;
      RoundHalfUpAtMost(100 * c, n, 100);
      RoundHalfUp(100 * c, n)
  }

  /** When every task is completed the percentage is 100. */
  lemma {:induction false} ProgressWhenAllCompleted(tasks: seq<Task>)
    requires |tasks| > 0
    requires forall i :: 0 <= i < |tasks| ==> tasks[i].completed
    ensures CalculateProgress(tasks) == 100
  {
    FilterKeepsAll(tasks, (t: Task) => t.completed);
    var n := |tasks|;
    RoundHalfUpIs(100 * n, n, 100);
  }

  /** When no task is completed the percentage is 0. */
  lemma {:induction false} ProgressWhenNoneCompleted(tasks: seq<Task>)
    requires forall i :: 0 <= i < |tasks| ==> !tasks[i].completed
    ensures CalculateProgress(tasks) == 0
  {
    FilterKeepsNone(tasks, (t: Task) => t.completed);
  }

  /** A task whose only relevant field is its completion flag. */
  function SampleTask(id: int, completed: bool): Task {
    Task(id, "task", "other", None, "2025-08-13", completed, "2025-08-01", None, None)
  }

  /** One task in three done is 33%, two in three is 67% (a half rounds up). */
  lemma {:induction false} ProgressExamples()
    ensures CalculateProgress([SampleTask(1, true), SampleTask(2, false), SampleTask(3, false)]) == 33
    ensures CalculateProgress([SampleTask(1, true), SampleTask(2, true), SampleTask(3, false)]) == 67
    ensures CalculateProgress([SampleTask(1, true), SampleTask(2, false)]) == 50
  {
    var a := [SampleTask(1, true), SampleTask(2, false), SampleTask(3, false)];
    assert CompletedTasks(a) == [SampleTask(1, true)];
    var b := [SampleTask(1, true), SampleTask(2, true), SampleTask(3, false)];
    assert CompletedTasks(b) == [SampleTask(1, true), SampleTask(2, true)];
    var c := [SampleTask(1, true), SampleTask(2, false)];
    assert CompletedTasks(c) == [SampleTask(1, true)];
  }

  /** `Math.ceil(x / d)` for integers and a positive divisor. */
  function CeilDiv(x: int, d: int): (q: int)
    requires d > 0
    ensures (q - 1) * d < x <= q * d
  {
    -((-x) / d)
  }

  /**
   * Days left until the exam, counted from the instant `nowMs` (milliseconds since the epoch):
   * 0 for an empty or unparsable date, otherwise the time difference divided by one day,
   * rounded up and clamped at 0. Dates are read as midnight UTC.
   */
  function CalculateDaysLeft(examDate: string, nowMs: int): (days: int)
    ensures days >= 0
    ensures examDate == "" || ParseDateKey(examDate).None? ==> days == 0
    ensures ParseDateKey(examDate).Some? ==>
      var diff := TimeValue(ParseDateKey(examDate).value) - nowMs;
      (days == 0 <==> diff <= 0) &&
      (days > 0 ==> (days - 1) * MsPerDay < diff <= days * MsPerDay)
  {
    if examDate == "" then 0
    else
      match ParseDateKey(examDate)
      case None => 0
      case Some(exam) =>
        var diffDays := CeilDiv(TimeValue(exam) - nowMs, MsPerDay);
        if diffDays > 0 then diffDays else 0
  }

  /** From 13 August 2025 it is 140 days to 31 December 2025. */
  lemma {:induction false} DaysLeftExample()
    ensures CalculateDaysLeft("2025-12-31", TimeValue(CivilDate(2025, 8, 13))) == 140
  {
    KeyOfDate(CivilDate(2025, 12, 31), "2025-12-31");
    assert DayNumber(CivilDate(2025, 12, 31)) - DayNumber(CivilDate(2025, 8, 13)) == 140;
    assert TimeValue(CivilDate(2025, 12, 31)) - TimeValue(CivilDate(2025, 8, 13)) == 140 * MsPerDay;
    assert CeilDiv(140 * MsPerDay, MsPerDay) == 140;
  }

  /** An exam date already past leaves 0 days, as does an exam date not set. */
  lemma {:induction false} PastExamExample()
    ensures CalculateDaysLeft("2025-08-01", TimeValue(CivilDate(2025, 8, 13))) == 0
    ensures CalculateDaysLeft("", TimeValue(CivilDate(2025, 8, 13))) == 0
  {
    KeyOfDate(CivilDate(2025, 8, 1), "2025-08-01");
    assert DayNumber(CivilDate(2025, 8, 1)) - DayNumber(CivilDate(2025, 8, 13)) == -12;
    assert TimeValue(CivilDate(2025, 8, 1)) - TimeValue(CivilDate(2025, 8, 13)) == -12 * MsPerDay;
  }

  /** A literal key of a valid date with a four-digit year parses to that date. */
  lemma {:induction false} KeyOfDate(d: CivilDate, key: string)
    requires ValidDate(d) && 1000 <= d.year <= 9999 && DateKey(d) == key
    ensures ParseDateKey(key) == Some(d)
  {
    ParseDateKeyOfDateKey(d);
  }

  /** The absolute value. */
  function Abs(x: int): (a: nat)
    ensures a == x || a == -x
  {
    if x < 0 then -x else x
  }

  /**
   * `x / d` rounded to the nearest integer with halves rounded away from zero, for x >= 0
   * and d != 0: the rounded magnitude carries the sign of `d`.
   */
  function RoundHalfAway(x: nat, d: int): (r: int)
    requires d != 0
    ensures var a, m := Abs(d), Abs(r); 2 * a * m <= 2 * x + a < 2 * a * (m + 1)
    ensures d > 0 ==> r >= 0
    ensures d < 0 ==> r <= 0
    ensures r == 0 <==> 2 * x < Abs(d)
  {
    var q: int := RoundHalfUp(x, Abs(d));
    if d > 0 then q else -q
  }

  /**
   * Tasks needed per day, in tenths: 0 when `daysLeft` is 0, otherwise
   * incomplete / daysLeft rounded to one decimal with ties away from zero.
   */
  function RequiredTasksPerDay(tasks: seq<Task>, daysLeft: int): (tenths: int)
    ensures daysLeft == 0 ==> tenths == 0
    ensures daysLeft != 0 ==>
      var k, a, m := |IncompleteTasks(tasks)|, Abs(daysLeft), Abs(tenths);
      2 * a * m <= 20 * k + a < 2 * a * (m + 1)
    ensures daysLeft > 0 ==> tenths >= 0
    ensures daysLeft < 0 ==> tenths <= 0
    ensures tenths == 0 <==> daysLeft == 0 || 20 * |IncompleteTasks(tasks)| < Abs(daysLeft)
  {
    if daysLeft == 0 then 0
    else RoundHalfAway(10 * |IncompleteTasks(tasks)|, daysLeft)
  }

  /** Four open tasks over ten days is 0.4 a day; no open tasks needs nothing. */
  lemma {:induction false} RequiredTasksExamples()
    ensures RequiredTasksPerDay([SampleTask(1, false), SampleTask(2, false), SampleTask(3, false), SampleTask(4, false)], 10) == 4
    ensures RequiredTasksPerDay([SampleTask(1, true)], 5) == 0
  {
    var a := [SampleTask(1, false), SampleTask(2, false), SampleTask(3, false), SampleTask(4, false)];
    assert IncompleteTasks(a) == a;
    RoundHalfUpIs(40, 10, 4);
    assert IncompleteTasks([SampleTask(1, true)]) == [];
  }

  /** The minutes a task contributes: `completionData?.time || 0`. */
  function StudyTime(t: Task): (m: int)
    ensures t.completionData.None? ==> m == 0
    ensures t.completionData.Some? ==> m == t.completionData.value.time
  {
    match t.completionData
    case None => 0
    case Some(data) => data.time
  }

  /**
   * The running total of `reduce`, taken from the left: every task counts, whether it is
   * marked completed or not.
   */
  function TotalStudyTime(tasks: seq<Task>): (total: int)
    ensures (forall i :: 0 <= i < |tasks| ==> StudyTime(tasks[i]) >= 0) ==> total >= 0
    ensures (forall i :: 0 <= i < |tasks| ==> tasks[i].completionData.None?) ==> total == 0
  {
    if tasks == [] then 0
    else TotalStudyTime(tasks[..|tasks| - 1]) + StudyTime(tasks[|tasks| - 1])
  }

  /** The total over two lists joined is the sum of their totals. */
  lemma {:induction false} TotalStudyTimeAppend(a: seq<Task>, b: seq<Task>)
    ensures TotalStudyTime(a + b) == TotalStudyTime(a) + TotalStudyTime(b)
    decreases |b|
  {
    if b == [] {
      assert a + b == a;
    } else {
      var b' := b[..|b| - 1];
      assert (a + b)[..|a + b| - 1] == a + b';
      assert (a + b)[|a + b| - 1] == b[|b| - 1];
      TotalStudyTimeAppend(a, b');
    }
  }

  /** A task with 30 minutes and one without completion data total 30 minutes. */
  lemma {:induction false} TotalStudyTimeExample()
    ensures TotalStudyTime([
      Task(1, "a", "reading", None, "2025-08-13", true, "2025-08-01", Some("2025-08-13"), Some(CompletionData(30, "normal", "normal"))),
      SampleTask(2, true)]) == 30
  {
    var t1 := Task(1, "a", "reading", None, "2025-08-13", true, "2025-08-01", Some("2025-08-13"), Some(CompletionData(30, "normal", "normal")));
    assert [t1, SampleTask(2, true)][..1] == [t1];
    assert [t1][..0] == [];
  }
}
