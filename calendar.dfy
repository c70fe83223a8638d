/**
 * The month calendar: arithmetic on the displayed month, the tasks due on a day, the
 * four-way classification of a day, the layout of the days in week rows, and the
 * component state (displayed month and selected day). Months are 1-based here, as in
 * the `Dates` module; local time is taken to be UTC.
 */
module Calendar {
  import opened Wrappers
  import opened Seqs
  import opened JsText
  import opened Dates
  import opened Types

  /**
   * `getDaysInMonth`: `new Date(year, month + 1, 0).getDate()`, day 0 of the next
   * month, which is the last day of the displayed one. The constructor counts a year
   * from 0 to 99 as 1900 plus that year, so those months have the lengths of 1900-1999.
   */
  function GetDaysInMonth(date: CivilDate): (n: int)
    requires 1 <= date.month <= 12
    ensures 28 <= n <= 31
    ensures var y := FullYear(date.year);
      ValidDate(CivilDate(y, date.month, n)) && !ValidDate(CivilDate(y, date.month, n + 1))
    ensures DayNumber(CivilDate(FullYear(date.year), date.month, n)) + 1 == DayNumber(NextMonthStart(date.year, date.month))
    ensures date.month == 2 ==> (n == 29 <==> IsLeapYear(FullYear(date.year)))
  {
    MonthLength(FullYear(date.year), date.month);
    DaysInMonth(FullYear(date.year), date.month)
  }

  /**
   * `getFirstDayOfMonth`: the weekday (0 = Sunday) of `new Date(year, month, 1)`, the
   * first of the displayed month, with years 0 to 99 counted as 1900 to 1999.
   */
  function GetFirstDayOfMonth(date: CivilDate): (w: int)
    requires 1 <= date.month <= 12
    ensures 0 <= w <= 6
    ensures w == Weekday(CivilDate(FullYear(date.year), date.month, 1))
  {
    Weekday(CivilDate(FullYear(date.year), date.month, 1))
  }

  /**
   * The month `nextMonth` displays starts on the weekday after the last day of this
   * one, and its first weekday is computed so unless its year is one from 0 to 99.
   */
  lemma {:induction false} FirstDayOfNextMonth(date: CivilDate)
    requires 1 <= date.month <= 12
    ensures var next := NextMonthStart(date.year, date.month);
      Weekday(next) == (GetFirstDayOfMonth(date) + GetDaysInMonth(date)) % 7
    ensures var next := NextMonthStart(date.year, date.month);
      next.year < 0 || next.year > 99 ==> GetFirstDayOfMonth(next) == (GetFirstDayOfMonth(date) + GetDaysInMonth(date)) % 7
  {
    var y := FullYear(date.year);
    MonthLength(y, date.month);
    WeekdayAdvances(DayNumber(CivilDate(y, date.month, 1)), DayNumber(NextMonthStart(date.year, date.month)),
      DaysInMonth(y, date.month));
  }

  /** A day `n` days later falls `n` weekdays later. */
  lemma {:induction false} WeekdayAdvances(a: int, b: int, n: int)
    requires b == a + n
    ensures (b + 1) % 7 == ((a + 1) % 7 + n) % 7
  {
  }

  /** August 2025 starts on a Friday and has 31 days; February 2024 has 29, February 2025 28. */
  lemma {:induction false} MonthExamples()
    ensures GetFirstDayOfMonth(CivilDate(2025, 8, 13)) == 5
    ensures GetDaysInMonth(CivilDate(2025, 8, 13)) == 31
    ensures GetDaysInMonth(CivilDate(2024, 2, 1)) == 29
    ensures GetDaysInMonth(CivilDate(2025, 2, 1)) == 28
  {
  }

  /** `formatMonth`: the month number, `月`, a space and the year. */
  function FormatMonth(date: CivilDate): (r: string) {
    IntToString(date.month) + "月 " + IntToString(date.year)
  }

  /** `parseInt` of the heading reads the month number back. */
  lemma {:induction false} FormatMonthReadsBack(date: CivilDate)
    requires 1 <= date.month <= 12
    ensures ParseInt(FormatMonth(date)) == Some(date.month)
  {
    var rest := "月 " + IntToString(date.year);
    assert FormatMonth(date) == IntToString(date.month) + rest;
    ParseIntReadsLeadingNumeral(date.month, rest);
  }

  /** Different months have different headings. */
  lemma {:induction false} FormatMonthInjective(a: CivilDate, b: CivilDate)
    requires 1 <= a.month <= 12 && 1 <= b.month <= 12
    requires FormatMonth(a) == FormatMonth(b)
    ensures a.year == b.year && a.month == b.month
  {
    FormatMonthReadsBack(a);
    FormatMonthReadsBack(b);
    var prefix := IntToString(a.month) + "月 ";
    var s := FormatMonth(a);
    assert s == prefix + IntToString(a.year) && s == prefix + IntToString(b.year);
    assert IntToString(a.year) == s[|prefix|..] == IntToString(b.year);
    ParseIntReadsLeadingNumeral(a.year, []);
    ParseIntReadsLeadingNumeral(b.year, []);
    assert IntToString(a.year) + [] == IntToString(a.year);
    assert IntToString(b.year) + [] == IntToString(b.year);
  }

  lemma {:induction false} FormatMonthExample()
    ensures FormatMonth(CivilDate(2025, 8, 13)) == "8月 2025"
    ensures FormatMonth(CivilDate(2025, 12, 1)) == "12月 2025"
  {
    assert NatToString(202) == "202";
    assert NatToString(12) == "12";
  }

  /**
   * `prevMonth`'s `new Date(y, m - 1, 1)` with the 1-based month `m`: the first of the
   * month before (`FullYear(y)`, `m`), rolling January back to December.
   */
  function PrevMonthStart(y: int, m: int): (d: CivilDate)
    requires 1 <= m <= 12
    ensures ValidDate(d) && d.day == 1
    ensures 12 * d.year + d.month == 12 * FullYear(y) + m - 1
    ensures y < 0 || y > 99 ==> 12 * d.year + d.month == 12 * y + m - 1
  {
    var full := FullYear(y);
    if m == 1 then CivilDate(full - 1, 12, 1) else CivilDate(full, m - 1, 1)
  }

  /** The years the Date constructor keeps as they are. */
  predicate KeptYear(y: int) {
    y < 0 || y > 99
  }

  /**
   * Going forward a month and back again, or back and forward, returns to the first of
   * the month exactly when neither the start nor the month stepped to has a year from
   * 0 to 99.
   */
  lemma {:induction false} MonthNavigationRoundTrip(y: int, m: int)
    requires 1 <= m <= 12
    ensures var n := NextMonthStart(y, m);
      PrevMonthStart(n.year, n.month) == CivilDate(y, m, 1) <==> KeptYear(y) && KeptYear(n.year)
    ensures var p := PrevMonthStart(y, m);
      NextMonthStart(p.year, p.month) == CivilDate(y, m, 1) <==> KeptYear(y) && KeptYear(p.year)
  {
    var n := NextMonthStart(y, m);
    var p := PrevMonthStart(y, m);
    if !KeptYear(y) {
      assert FullYear(y) >= 1900;
      assert PrevMonthStart(n.year, n.month).year >= 1899;
      assert NextMonthStart(p.year, p.month).year >= 1899;
    }
  }

  /**
   * Around year 100: `prevMonth` from January of year 100 shows December of year 99,
   * and from there `nextMonth` jumps to January 2000 and `prevMonth` to November 1999;
   * December of year 99 is laid out as December 1999.
   */
  lemma {:induction false} TwoDigitYearNavigation()
    ensures PrevMonthStart(100, 1) == CivilDate(99, 12, 1)
    ensures NextMonthStart(99, 12) == CivilDate(2000, 1, 1)
    ensures PrevMonthStart(99, 12) == CivilDate(1999, 11, 1)
    ensures GetFirstDayOfMonth(CivilDate(99, 12, 1)) == GetFirstDayOfMonth(CivilDate(1999, 12, 1)) == 3
    ensures GetDaysInMonth(CivilDate(0, 2, 1)) == 28
  {
  }

  /** The test that keeps the tasks due on the day `key`. */
  function DueOn(key: string): Task -> bool {
    (t: Task) => t.dueDate == key
  }

  /**
   * `getTasksForDate`: the tasks whose due date equals the normalised key, in input
   * order. The key is parsed as a date and printed again as `YYYY-MM-DD`.
   */
  function GetTasksForDate(tasks: seq<Task>, date: string): (r: seq<Task>)
    ensures forall i :: 0 <= i < |r| ==> r[i].dueDate == NormalizeDateKey(date)
  {
    Filter(tasks, DueOn(NormalizeDateKey(date)))
  }

  /**
   * The tasks for a date are exactly the tasks due on it, in input order; for a valid
   * key with a four-digit year the key is compared as it is.
   */
  lemma {:induction false} TasksForDateAreTheTasksDue(tasks: seq<Task>, date: string)
    ensures IsSubsequence(GetTasksForDate(tasks, date), tasks)
    ensures forall i :: 0 <= i < |tasks| && tasks[i].dueDate == NormalizeDateKey(date) ==> tasks[i] in GetTasksForDate(tasks, date)
    ensures ParseDateKey(date).Some? && ParseDateKey(date).value.year >= 1000 ==>
      forall t :: t in GetTasksForDate(tasks, date) <==> t in tasks && t.dueDate == date
  {
    var p := DueOn(NormalizeDateKey(date));
    FilterIsSubsequence(tasks, p);
    FilterMembers(tasks, p);
    forall i | 0 <= i < |tasks| && tasks[i].dueDate == NormalizeDateKey(date)
      ensures tasks[i] in GetTasksForDate(tasks, date)
    {
      FilterKeeps(tasks, p, i);
    }
    if ParseDateKey(date).Some? && ParseDateKey(date).value.year >= 1000 {
      NormalizeValidKey(date);
    }
  }

  /** The four looks of a day cell. */
  datatype DayState =
    | Mixed    // some task still open and some completed: half blue, half green
    | Pending  // only open tasks: blue
    | Done     // only completed tasks: green
    | Empty    // no task

  /** `tasksForDate.some(task => task.completed)` */
  predicate AnyCompleted(ts: seq<Task>) {
    exists i :: 0 <= i < |ts| && ts[i].completed
  }

  /** `tasksForDate.some(task => !task.completed)` */
  predicate AnyIncomplete(ts: seq<Task>) {
    exists i :: 0 <= i < |ts| && !ts[i].completed
  }

  /** The background class chosen for a day with the tasks `ts`. */
  function ClassifyDay(ts: seq<Task>): (s: DayState)
    ensures s.Mixed? <==> AnyIncomplete(ts) && AnyCompleted(ts)
    ensures s.Pending? <==> AnyIncomplete(ts) && !AnyCompleted(ts)
    ensures s.Done? <==> !AnyIncomplete(ts) && AnyCompleted(ts)
    ensures s.Empty? <==> |ts| == 0
  {
    ClickableIffHasTasks(ts);
    if AnyIncomplete(ts) && AnyCompleted(ts) then Mixed
    else if AnyIncomplete(ts) then Pending
    else if AnyCompleted(ts) then Done
    else Empty
  }

  /** The click handler selects the day when it has an open or a completed task. */
  predicate Clickable(ts: seq<Task>) {
    AnyIncomplete(ts) || AnyCompleted(ts)
  }

  /** A day is clickable exactly when it has a task, that is, when its cell is not empty. */
  lemma {:induction false} ClickableIffHasTasks(ts: seq<Task>)
    ensures Clickable(ts) <==> |ts| > 0
  {
    if |ts| > 0 {
      assert ts[0].completed ==> AnyCompleted(ts);
      assert !ts[0].completed ==> AnyIncomplete(ts);
    }
  }

  /** A cell of the month grid: a blank before the first day, or a day. */
  datatype Cell =
    | Blank
    | DayCell(day: int, dateString: string, state: DayState, clickable: bool)

  /**
   * The day `new Date(year, month, day)` denotes for day `day` of the displayed month;
   * `getFullYear()` of it is the year in full.
   */
  function DisplayedDay(display: CivilDate, day: int): CivilDate {
    CivilDate(FullYear(display.year), display.month, day)
  }

  /**
   * The cell of day `day` of the displayed month: its key, its look chosen from the
   * tasks due on the key, and clickable exactly when some task is due. For a day of the
   * month with a four-digit year, those tasks are exactly the tasks due on that key.
   */
  function CellFor(tasks: seq<Task>, display: CivilDate, day: int): (c: Cell)
    ensures c.DayCell? && c.day == day
    ensures c.dateString == DateKey(DisplayedDay(display, day))
    ensures c.state == ClassifyDay(GetTasksForDate(tasks, c.dateString))
    ensures c.clickable <==> |GetTasksForDate(tasks, c.dateString)| > 0
    ensures ValidDate(DisplayedDay(display, day)) && 1000 <= FullYear(display.year) <= 9999 ==>
      ParseDateKey(c.dateString) == Some(DisplayedDay(display, day))
      && forall t :: t in GetTasksForDate(tasks, c.dateString) <==> t in tasks && t.dueDate == c.dateString
  {
    var date := DisplayedDay(display, day);
    var dateString := DateKey(date);
    var ts := GetTasksForDate(tasks, dateString);
    ClickableIffHasTasks(ts);
    if ValidDate(date) && 1000 <= date.year <= 9999 then
      ParseDateKeyOfDateKey(date);
      TasksForDateAreTheTasksDue(tasks, dateString);
      DayCell(day, dateString, ClassifyDay(ts), Clickable(ts))
    else
      DayCell(day, dateString, ClassifyDay(ts), Clickable(ts))
  }

  /** The cell builder `renderCalendar` applies to each day of the displayed month. */
  function MonthCell(tasks: seq<Task>, display: CivilDate): int -> Cell {
    day => CellFor(tasks, display, day)
  }

  /** The cells of days 1 to `n`. */
  function DayCells<T>(cellOf: int -> T, n: nat): (cs: seq<T>)
    ensures |cs| == n
  {
    if n == 0 then [] else DayCells(cellOf, n - 1) + [cellOf(n)]
  }

  /** `k` copies of `blank`. */
  function Blanks<T>(blank: T, k: nat): (cs: seq<T>)
    ensures |cs| == k && forall i :: 0 <= i < k ==> cs[i] == blank
  {
    if k == 0 then [] else Blanks(blank, k - 1) + [blank]
  }

  /** `firstDay` blanks followed by the cells of days 1 to `n`. */
  function Layout<T>(blank: T, cellOf: int -> T, firstDay: nat, n: nat): seq<T> {
    Blanks(blank, firstDay) + DayCells(cellOf, n)
  }

  /** Laying out one more day appends its cell. */
  lemma {:induction false} LayoutStep<T>(blank: T, cellOf: int -> T, firstDay: nat, n: nat)
    requires n >= 1
    ensures Layout(blank, cellOf, firstDay, n) == Layout(blank, cellOf, firstDay, n - 1) + [cellOf(n)]
  {
    assert DayCells(cellOf, n) == DayCells(cellOf, n - 1) + [cellOf(n)];
  }

  /** Day `d` of the first `n` sits at position `d - 1` of their cells. */
  lemma {:induction false} DayCellAt<T>(cellOf: int -> T, n: nat, d: int)
    requires 1 <= d <= n
    ensures DayCells(cellOf, n)[d - 1] == cellOf(d)
  {
    if d < n {
      DayCellAt(cellOf, n - 1, d);
    }
  }

  /**
   * The laid-out cells are `firstDay` blanks and then days 1 to `n`, each exactly once
   * and in order.
   */
  lemma {:induction false} LayoutHoldsEachDayOnce<T>(blank: T, cellOf: int -> T, firstDay: nat, n: nat)
    ensures var cs := Layout(blank, cellOf, firstDay, n);
      |cs| == firstDay + n
      && (forall i :: 0 <= i < firstDay ==> cs[i] == blank)
      && (forall d :: 1 <= d <= n ==> cs[firstDay + d - 1] == cellOf(d))
  {
    forall d | 1 <= d <= n
      ensures Layout(blank, cellOf, firstDay, n)[firstDay + d - 1] == cellOf(d)
    {
      DayCellAt(cellOf, n, d);
    }
  }

  /** The cells of the rows, row after row. */
  function Flatten<T>(rows: seq<seq<T>>): (r: seq<T>) {
    if rows == [] then [] else Flatten(rows[..|rows| - 1]) + rows[|rows| - 1]
  }

  lemma {:induction false} FlattenAppend<T>(rows: seq<seq<T>>, row: seq<T>)
    ensures Flatten(rows + [row]) == Flatten(rows) + row
  {
    assert (rows + [row])[..|rows|] == rows;
  }

  /**
   * `renderCalendar` without the header row of weekday names: the cells of the displayed
   * month in week rows of seven, every row but the last full.
   */
  method RenderCalendar(tasks: seq<Task>, display: CivilDate) returns (rows: seq<seq<Cell>>)
    requires 1 <= display.month <= 12
    ensures Flatten(rows) == Layout(Blank, MonthCell(tasks, display), GetFirstDayOfMonth(display), GetDaysInMonth(display))
    ensures forall i :: 0 <= i < |rows| ==> 1 <= |rows[i]| <= 7
    ensures forall i :: 0 <= i < |rows| - 1 ==> |rows[i]| == 7
  {
    var days := GetDaysInMonth(display);
    var firstDay := GetFirstDayOfMonth(display);
    rows := LayOutWeeks(Blank, MonthCell(tasks, display), firstDay, days);
  }

  /**
   * The week-row loop of `renderCalendar`: blanks up to the first weekday, then the cell
   * of each day; a row is closed when `(day + firstDay) % 7 == 0` and the last, partial
   * row is added only when it is not empty.
   */
  method LayOutWeeks<T>(blank: T, cellOf: int -> T, firstDay: nat, days: nat) returns (rows: seq<seq<T>>)
    requires firstDay < 7
    ensures Flatten(rows) == Layout(blank, cellOf, firstDay, days)
    ensures forall i :: 0 <= i < |rows| ==> 1 <= |rows[i]| <= 7
    ensures forall i :: 0 <= i < |rows| - 1 ==> |rows[i]| == 7
  {
    rows := [];
    var week: seq<T> := [];
    for i := 0 to firstDay
      invariant week == Blanks(blank, i)
    {
      week := week + [blank];
    }
    assert Flatten(rows) + week == Layout(blank, cellOf, firstDay, 0);
    for day := 1 to days + 1
      invariant Flatten(rows) + week == Layout(blank, cellOf, firstDay, day - 1)
      invariant |week| == (firstDay + day - 1) % 7
      invariant forall i :: 0 <= i < |rows| ==> |rows[i]| == 7
    {
      var cell := cellOf(day);
      LayoutStep(blank, cellOf, firstDay, day);
      AppendCell(Flatten(rows), week, Layout(blank, cellOf, firstDay, day - 1), cell);
      week := week + [cell];
      if (day + firstDay) % 7 == 0 {
        FlattenAppend(rows, week);
        rows := rows + [week];
        week := [];
      }
    }
    if |week| > 0 {
      FlattenAppend(rows, week);
      rows := rows + [week];
    }
  }

  lemma {:induction false} AppendCell<T>(closed: seq<T>, week: seq<T>, done: seq<T>, cell: T)
    requires closed + week == done
    ensures closed + (week + [cell]) == done + [cell]
  {
  }

  /**
   * The calendar component's state: the tasks it is given, the displayed month and the
   * day whose task list is open.
   */
  class CalendarView {
    const tasks: seq<Task>
    var displayDate: CivilDate
    var selectedDate: Option<string>

    predicate Valid()
      reads this
    {
      ValidDate(displayDate)
    }

    /** The calendar opens on the month of `currentDate` with no day selected. */
    constructor(tasks: seq<Task>, currentDate: CivilDate)
      requires ValidDate(currentDate)
      ensures Valid()
      ensures this.tasks == tasks && displayDate == currentDate && selectedDate == None
    {
      this.tasks := tasks;
      displayDate := currentDate;
      selectedDate := None;
    }

    /** `nextMonth`: the first of the following month. */
    method NextMonth()
      requires Valid()
      modifies this
      ensures Valid()
      ensures displayDate == NextMonthStart(old(displayDate).year, old(displayDate).month)
      ensures selectedDate == old(selectedDate)
    {
      displayDate := NextMonthStart(displayDate.year, displayDate.month);
    }

    /** `prevMonth`: the first of the preceding month. */
    method PrevMonth()
      requires Valid()
      modifies this
      ensures Valid()
      ensures displayDate == PrevMonthStart(old(displayDate).year, old(displayDate).month)
      ensures selectedDate == old(selectedDate)
    {
      displayDate := PrevMonthStart(displayDate.year, displayDate.month);
    }

    /** A click on day `day` of the displayed month selects it when it has tasks, and does nothing otherwise. */
    method ClickDay(day: int)
      requires Valid() && 1 <= day <= GetDaysInMonth(displayDate)
      modifies this
      ensures Valid() && displayDate == old(displayDate)
      ensures var key := DateKey(DisplayedDay(displayDate, day));
        selectedDate == if |GetTasksForDate(tasks, key)| > 0 then Some(key) else old(selectedDate)
    {
      var cell := CellFor(tasks, displayDate, day);
      ClickableIffHasTasks(GetTasksForDate(tasks, cell.dateString));
      if cell.clickable {
        selectedDate := Some(cell.dateString);
      }
    }

    /** The task list's close button clears the selection. */
    method CloseModal()
      modifies this
      ensures selectedDate == None && displayDate == old(displayDate)
    {
      selectedDate := None;
    }

    /** The tasks listed for the selected day, or none when no day is selected. */
    function ShownTasks(): (r: Option<seq<Task>>)
      reads this
      ensures r.Some? <==> selectedDate.Some?
      ensures r.Some? ==> forall i :: 0 <= i < |r.value| ==> r.value[i].dueDate == NormalizeDateKey(selectedDate.value)
    {
      match selectedDate
      case None => None
      case Some(date) => Some(GetTasksForDate(tasks, date))
    }
  }
}
