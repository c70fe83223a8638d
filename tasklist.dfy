/**
 * The task list: tasks sorted by due date, the overdue test against today's date key,
 * the category badge lookups, and the list's completion-dialog state. Calls to the
 * parent's callbacks are recorded in order.
 */
module TaskList {
  import opened Wrappers
  import opened JsText
  import opened Dates
  import opened Types
  import opened Seqs

  /**
   * What `new Date(task.dueDate).getTime()` gives: the day of a valid key, or an invalid
   * date (NaN).
   */
  datatype DueKey = Day(n: int) | Undated

  function DueKeyOf(t: Task): (k: DueKey)
    ensures k.Day? <==> ParseDateKey(t.dueDate).Some?
  {
    match ParseDateKey(t.dueDate)
    case Some(d) => Day(DayNumber(d))
    case None => Undated
  }

  /**
   * The order of the sort comparator: an earlier day first. JavaScript compares an
   * invalid date as equal to every date; here such tasks go after all dated ones.
   */
  predicate DueNoLater(a: DueKey, b: DueKey) {
    b.Undated? || (a.Day? && a.n <= b.n)
  }

  predicate SortedByDue(s: seq<Task>) {
    forall i, j :: 0 <= i < j < |s| ==> DueNoLater(DueKeyOf(s[i]), DueKeyOf(s[j]))
  }

  /** Every task of `s` is due no later than `k`. */
  predicate AllDueNoLater(s: seq<Task>, k: DueKey) {
    forall i :: 0 <= i < |s| ==> DueNoLater(DueKeyOf(s[i]), k)
  }

  /** A sequence holding the tasks of `b` and `t` is due no later than `k` when they are. */
  lemma {:induction false} AllDueNoLaterOfPermutation(a: seq<Task>, b: seq<Task>, t: Task, k: DueKey)
    requires multiset(a) == multiset(b) + multiset{t}
    requires AllDueNoLater(b, k) && DueNoLater(DueKeyOf(t), k)
    ensures AllDueNoLater(a, k)
  {
    forall i | 0 <= i < |a|
      ensures DueNoLater(DueKeyOf(a[i]), k)
    {
      assert a[i] in multiset(a);
      if a[i] != t {
        assert a[i] in multiset(b);
        var j :| 0 <= j < |b| && b[j] == a[i];
      }
    }
  }

  /**
   * Inserts `t` into the sorted `s` after every task due no later than it, so that tasks
   * due the same day keep their input order.
   */
  function InsertByDue(s: seq<Task>, t: Task): (r: seq<Task>)
    requires SortedByDue(s)
    ensures multiset(r) == multiset(s) + multiset{t}
    ensures SortedByDue(r)
  {
    if s == [] then [t]
    else
      var init, last := s[..|s| - 1], s[|s| - 1];
      assert s == init + [last];
      if DueNoLater(DueKeyOf(last), DueKeyOf(t)) then
        s + [t]
      else
        var r := InsertByDue(init, t);
        AllDueNoLaterOfPermutation(r, init, t, DueKeyOf(last));
        r + [last]
  }

  /**
   * `sortedTasks`: a sorted copy of the tasks, earliest due date first; the input is
   * left as it is.
   */
  function SortByDue(tasks: seq<Task>): (r: seq<Task>)
    ensures multiset(r) == multiset(tasks)
    ensures SortedByDue(r)
  {
    if tasks == [] then []
    else
      var init := tasks[..|tasks| - 1];
      assert tasks == init + [tasks[|tasks| - 1]];
      InsertByDue(SortByDue(init), tasks[|tasks| - 1])
  }

  /** The sorted list holds as many tasks as the input. */
  lemma {:induction false} SortByDueKeepsLength(tasks: seq<Task>)
    ensures |SortByDue(tasks)| == |tasks|
  {
    assert |multiset(SortByDue(tasks))| == |multiset(tasks)|;
  }

  /** A list already in due-date order comes back unchanged: ties keep their order. */
  lemma {:induction false} SortByDueKeepsSortedInput(tasks: seq<Task>)
    requires SortedByDue(tasks)
    ensures SortByDue(tasks) == tasks
  {
    if tasks != [] {
      var init := tasks[..|tasks| - 1];
      assert SortedByDue(init);
      SortByDueKeepsSortedInput(init);
      if init != [] {
        assert DueNoLater(DueKeyOf(init[|init| - 1]), DueKeyOf(tasks[|tasks| - 1]));
      }
      assert tasks == init + [tasks[|tasks| - 1]];
    }
  }

  /** The test that keeps the tasks with due key `k`. */
  function DueIs(k: DueKey): Task -> bool {
    (t: Task) => DueKeyOf(t) == k
  }

  /** Inserting `t` puts it after every task of `s` with the same due key. */
  lemma {:induction false} InsertByDueKeepsTies(s: seq<Task>, t: Task, k: DueKey)
    requires SortedByDue(s)
    ensures Filter(InsertByDue(s, t), DueIs(k)) == Filter(s, DueIs(k)) + Filter([t], DueIs(k))
  {
    var p := DueIs(k);
    if s == [] {
      assert Filter(s, p) == [];
    } else {
      var init, last := s[..|s| - 1], s[|s| - 1];
      SplitLast(s);
      if DueNoLater(DueKeyOf(last), DueKeyOf(t)) {
        FilterAppend(s, [t], p);
      } else {
        assert SortedByDue(init);
        InsertByDueKeepsTies(init, t, k);
        // `last` is due strictly after `t`, so at most one of them has key `k`.
        assert DueKeyOf(last) != DueKeyOf(t);
        FilterMovesPast(InsertByDue(init, t), init, t, last, p);
      }
    }
  }

  /**
   * The sort is stable, as `Array.prototype.sort` is: the tasks due on any one day, and
   * the undated ones, come out in their input order.
   */
  lemma {:induction false} SortByDueIsStable(tasks: seq<Task>, k: DueKey)
    ensures Filter(SortByDue(tasks), DueIs(k)) == Filter(tasks, DueIs(k))
  {
    if tasks != [] {
      var init, last := tasks[..|tasks| - 1], tasks[|tasks| - 1];
      assert tasks == init + [last];
      SortByDueIsStable(init, k);
      InsertByDueKeepsTies(SortByDue(init), last, k);
      FilterAppend(init, [last], DueIs(k));
    }
  }

  /** A due date that `new Date` reads as a day with a four-digit year. */
  predicate WellDated(t: Task) {
    ParseDateKey(t.dueDate).Some? && ParseDateKey(t.dueDate).value.year >= 1000
  }

  /** `task.dueDate < today`: JavaScript's string comparison of the two keys. */
  predicate IsOverdue(t: Task, today: string) {
    StringLess(t.dueDate, today)
  }

  /** For well-formed keys the string comparison is exactly "due on an earlier day". */
  lemma {:induction false} OverdueMeansEarlierDay(t: Task, today: string)
    requires WellDated(t)
    requires ParseDateKey(today).Some? && ParseDateKey(today).value.year >= 1000
    ensures IsOverdue(t, today) <==> DayNumber(ParseDateKey(t.dueDate).value) < DayNumber(ParseDateKey(today).value)
  {
    KeyLessIsEarlierDay(t.dueDate, today);
  }

  /** In the sorted list the well-dated keys ascend as strings too. */
  lemma {:induction false} SortedKeysAscend(r: seq<Task>, i: int, j: int)
    requires SortedByDue(r) && 0 <= i < j < |r|
    requires WellDated(r[i]) && WellDated(r[j])
    ensures !StringLess(r[j].dueDate, r[i].dueDate)
  {
    KeyLessIsEarlierDay(r[j].dueDate, r[i].dueDate);
    assert DueNoLater(DueKeyOf(r[i]), DueKeyOf(r[j]));
  }

  /** Among well-dated tasks, the overdue ones are listed before all others. */
  lemma {:induction false} OverdueTasksComeFirst(tasks: seq<Task>, today: string, i: int, j: int)
    requires ParseDateKey(today).Some? && ParseDateKey(today).value.year >= 1000
    requires var r := SortByDue(tasks); 0 <= i < j < |r| && WellDated(r[i]) && WellDated(r[j]) && IsOverdue(r[j], today)
    ensures IsOverdue(SortByDue(tasks)[i], today)
  {
    var r := SortByDue(tasks);
    assert DueNoLater(DueKeyOf(r[i]), DueKeyOf(r[j]));
    OverdueMeansEarlierDay(r[i], today);
    OverdueMeansEarlierDay(r[j], today);
  }

  /** The badge classes of the categories. */
  const CategoryColors: map<string, string> := map[
    "listening" := "bg-blue-100 text-blue-700",
    "reading" := "bg-purple-100 text-purple-700",
    "vocabulary" := "bg-green-100 text-green-700",
    "grammar" := "bg-orange-100 text-orange-700",
    "other" := "bg-black-100 text-black-700"]

  /** The display names of the categories. */
  const CategoryNames: map<string, string> := map[
    "listening" := "リスニング",
    "reading" := "リーディング",
    "vocabulary" := "単語",
    "grammar" := "文法",
    "other" := "その他"]

  /** `getCategoryColor`: `colors[category] || colors.other`. */
  function GetCategoryColor(category: string): (c: string)
    ensures category in CategoryColors ==> c == CategoryColors[category]
    ensures category !in CategoryColors ==> c == CategoryColors["other"]
    ensures c in CategoryColors.Values
  {
    if category in CategoryColors && CategoryColors[category] != "" then CategoryColors[category]
    else CategoryColors["other"]
  }

  /** `getCategoryName`: `names[category] || category`. */
  function GetCategoryName(category: string): (n: string)
    ensures category in CategoryNames ==> n == CategoryNames[category] && n != category
    ensures category !in CategoryNames ==> n == category
  {
    if category in CategoryNames && CategoryNames[category] != "" then CategoryNames[category]
    else category
  }

  lemma {:induction false} CategoryExamples()
    ensures GetCategoryName("mock-test") == "mock-test"
    ensures GetCategoryColor("mock-test") == "bg-black-100 text-black-700"
    ensures GetCategoryName("reading") == "リーディング"
  {
  }

  /** A call the list makes to its parent. */
  datatype ParentCall =
    | CompleteTask(taskId: int, data: CompletionData)
    | DeleteTask(taskId: int)

  /**
   * The list's state: today's key (captured once), the task whose completion dialog is
   * open, whether the dialog shows, and the calls made to the parent so far.
   */
  class ListState {
    const today: string
    var currentTaskId: Option<int>
    var showCompletionModal: bool
    var calls: seq<ParentCall>

    constructor(today: string)
      ensures this.today == today
      ensures currentTaskId == None && !showCompletionModal && calls == []
    {
      this.today := today;
      currentTaskId := None;
      showCompletionModal := false;
      calls := [];
    }

    /** `handleCompleteTask`: remembers the task and opens the dialog. */
    method HandleCompleteTask(taskId: int)
      modifies this
      ensures currentTaskId == Some(taskId) && showCompletionModal
      ensures calls == old(calls)
    {
      currentTaskId := Some(taskId);
      showCompletionModal := true;
    }

    /**
     * `handleCompletionSubmit`: with a remembered task, reports its completion, closes
     * the dialog and forgets the task; without one, does nothing.
     */
    method HandleCompletionSubmit(data: CompletionData)
      modifies this
      ensures old(currentTaskId).Some? ==>
        calls == old(calls) + [CompleteTask(old(currentTaskId).value, data)]
        && !showCompletionModal && currentTaskId == None
      ensures old(currentTaskId).None? ==>
        calls == old(calls) && showCompletionModal == old(showCompletionModal) && currentTaskId == None
    {
      if currentTaskId.Some? {
        calls := calls + [CompleteTask(currentTaskId.value, data)];
        showCompletionModal := false;
        currentTaskId := None;
      }
    }

    /** The dialog's `onClose`: hides it and keeps the remembered task. */
    method CloseCompletionModal()
      modifies this
      ensures !showCompletionModal
      ensures currentTaskId == old(currentTaskId) && calls == old(calls)
    {
      showCompletionModal := false;
    }

    /** The delete button: asks the parent to delete the task at once, with no confirmation. */
    method HandleDelete(taskId: int)
      modifies this
      ensures calls == old(calls) + [DeleteTask(taskId)]
      ensures currentTaskId == old(currentTaskId) && showCompletionModal == old(showCompletionModal)
    {
      calls := calls + [DeleteTask(taskId)];
    }
  }
}
