/**
 * Calendar dates as the application handles them: the proleptic Gregorian calendar
 * of JavaScript's `Date`, day numbers, and the zero-padded `YYYY-MM-DD` key (the
 * extended calendar-date format of section 4.1.2.2 of ISO 8601:2004) that task due
 * dates, calendar cells and exam dates are stored and compared as. Months are 1-based
 * here; JavaScript's `getMonth()` is this month minus one.
 */
module Dates {
  import opened Wrappers
  import opened JsText

  datatype CivilDate = CivilDate(year: int, month: int, day: int)

  /** Gregorian leap years: every fourth year, except centuries not divisible by 400. */
  predicate IsLeapYear(y: int) {
    y % 4 == 0 && (y % 100 != 0 || y % 400 == 0)
  }

  function DaysInMonth(y: int, m: int): (n: int)
    requires 1 <= m <= 12
    ensures 28 <= n <= 31
    ensures m == 2 ==> (n == 29 <==> IsLeapYear(y))
    ensures m != 2 ==> (n == 30 <==> m in {4, 6, 9, 11})
  {
    if m == 2 then (if IsLeapYear(y) then 29 else 28)
    else if m == 4 || m == 6 || m == 9 || m == 11 then 30
    else 31
  }

  predicate ValidDate(d: CivilDate) {
    1 <= d.month <= 12 && 1 <= d.day <= DaysInMonth(d.year, d.month)
  }

  /** Days from 0001-01-01 to January 1st of year `y` (negative before year 1). */
  function DaysBeforeYear(y: int): int {
    var p := y - 1;
    365 * p + p / 4 - p / 100 + p / 400
  }

  /** Days from January 1st to the first of month `m` of year `y`. */
  function DaysBeforeMonth(y: int, m: int): int
    requires 1 <= m <= 12
  {
    var common := [0, 31, 59, 90, 120, 151, 181, 212, 243, 273, 304, 334][m - 1];
    if m > 2 && IsLeapYear(y) then common + 1 else common
  }

  /** The number of the day counted from 0001-01-01, which is day 0. */
  function DayNumber(d: CivilDate): int
    requires 1 <= d.month <= 12
  {
    DaysBeforeYear(d.year) + DaysBeforeMonth(d.year, d.month) + d.day - 1
  }

  /** The day number of 1970-01-01, the origin of JavaScript time values. */
  const UnixEpochDay := 719162

  const MsPerDay := 86400000

  /** The time value of `new Date("YYYY-MM-DD")`: midnight UTC of that day, in milliseconds. */
  function TimeValue(d: CivilDate): int
    requires 1 <= d.month <= 12
  {
    (DayNumber(d) - UnixEpochDay) * MsPerDay
  }

  /** `getDay()`: 0 for Sunday through 6 for Saturday; 0001-01-01 was a Monday. */
  function Weekday(d: CivilDate): (w: int)
    requires 1 <= d.month <= 12
    ensures 0 <= w <= 6
  {
    (DayNumber(d) + 1) % 7
  }

  lemma {:induction false} EpochIsThursday()
    ensures DayNumber(CivilDate(1970, 1, 1)) == UnixEpochDay
    ensures Weekday(CivilDate(1970, 1, 1)) == 4
  {
  }

  /** A year has 366 days exactly when it is a leap year. */
  lemma {:induction false} YearLength(y: int)
    ensures DaysBeforeYear(y + 1) - DaysBeforeYear(y) == if IsLeapYear(y) then 366 else 365
  {
    QuotientStep(y, 4);
    QuotientStep(y, 100);
    QuotientStep(y, 400);
  }

  /** Stepping from `y - 1` to `y` raises the quotient by `k` exactly when `k` divides `y`. */
  lemma {:induction false} QuotientStep(y: int, k: int)
    requires k == 4 || k == 100 || k == 400
    ensures y / k - (y - 1) / k == if y % k == 0 then 1 else 0
  {
    if k == 4 {
    } else if k == 100 {
    } else {
    }
  }

  /** The first day of the month after (`y`, `m`) in the calendar, rolling December over to January. */
  function FollowingMonth(y: int, m: int): (d: CivilDate)
    requires 1 <= m <= 12
    ensures ValidDate(d) && d.day == 1
    ensures 12 * d.year + d.month == 12 * y + m + 1
  {
    if m == 12 then CivilDate(y + 1, 1, 1) else CivilDate(y, m + 1, 1)
  }

  /**
   * The year that `new Date(year, monthIndex, day)` counts in: a year from 0 to 99 is
   * taken as 1900 plus that year (the Date constructor, section 21.4.2.1 of ECMA-262);
   * every other year is kept.
   */
  function FullYear(y: int): (r: int)
    ensures r < 0 || r > 99
    ensures r == y <==> y < 0 || y > 99
    ensures r % 100 == y % 100
  {
    if 0 <= y <= 99 then 1900 + y else y
  }

  /**
   * `nextMonth`'s `new Date(y, m + 1, 1)` with the 1-based month `m`: the first of the
   * month after (`FullYear(y)`, `m`). From December of year 99 it lands in January 2000.
   */
  function NextMonthStart(y: int, m: int): (d: CivilDate)
    requires 1 <= m <= 12
    ensures ValidDate(d) && d.day == 1
    ensures 12 * d.year + d.month == 12 * FullYear(y) + m + 1
    ensures y < 0 || y > 99 ==> 12 * d.year + d.month == 12 * y + m + 1
  {
    FollowingMonth(FullYear(y), m)
  }

  /**
   * Day 0 of the next month is the last day of this one: the first of the next month
   * comes `DaysInMonth(y, m)` days after the first of this month.
   */
  lemma {:induction false} MonthLength(y: int, m: int)
    requires 1 <= m <= 12
    ensures DayNumber(FollowingMonth(y, m)) == DayNumber(CivilDate(y, m, 1)) + DaysInMonth(y, m)
  {
    if m == 12 {
      YearLength(y);
    }
  }

  /** `String(n).padStart(2, '0')`. */
  function Pad2(n: int): string {
    PadStart(IntToString(n), 2, '0')
  }

  /**
   * The date key `${year}-${pad2(month)}-${pad2(day)}` that both the calendar cells and
   * the normalisation of due dates build. The year is not padded, as in JavaScript.
   */
  function DateKey(d: CivilDate): string {
    IntToString(d.year) + "-" + Pad2(d.month) + "-" + Pad2(d.day)
  }

  function DigitAt(s: string, i: nat): int
    requires i < |s|
  {
    s[i] as int - '0' as int
  }

  /** Ten characters shaped `DDDD-DD-DD` with decimal digits in place of each `D`. */
  predicate KeyShaped(s: string) {
    |s| == 10 && s[4] == '-' && s[7] == '-'
    && IsDecimalDigit(s[0]) && IsDecimalDigit(s[1]) && IsDecimalDigit(s[2]) && IsDecimalDigit(s[3])
    && IsDecimalDigit(s[5]) && IsDecimalDigit(s[6]) && IsDecimalDigit(s[8]) && IsDecimalDigit(s[9])
  }

  /**
   * `new Date(s)` for a date-only string: `YYYY-MM-DD` naming an existing day denotes
   * that day; every other string is an invalid date (`None`).
   */
  function ParseDateKey(s: string): (r: Option<CivilDate>)
    ensures r.Some? ==> ValidDate(r.value) && 0 <= r.value.year <= 9999 && KeyShaped(s)
  {
    if !KeyShaped(s) then None
    else
      var year := 1000 * DigitAt(s, 0) + 100 * DigitAt(s, 1) + 10 * DigitAt(s, 2) + DigitAt(s, 3);
      var month := 10 * DigitAt(s, 5) + DigitAt(s, 6);
      var day := 10 * DigitAt(s, 8) + DigitAt(s, 9);
      if 1 <= month <= 12 && 1 <= day <= DaysInMonth(year, month)
      then Some(CivilDate(year, month, day))
      else None
  }

  /**
   * What `getTasksForDate` compares due dates with: the key is parsed and rebuilt from
   * the parsed day; an invalid date prints its fields as `NaN`.
   */
  function NormalizeDateKey(s: string): (r: string)
    ensures ParseDateKey(s).None? ==> r == "NaN-NaN-NaN"
  {
    match ParseDateKey(s)
    case Some(d) => DateKey(d)
    case None => "NaN-NaN-NaN"
  }

  /** A four-digit year prints as its four digits. */
  lemma {:induction false} FourDigitYear(y: int)
    requires 1000 <= y <= 9999
    ensures IntToString(y) == [DigitChar(y / 1000), DigitChar(y / 100 % 10), DigitChar(y / 10 % 10), DigitChar(y % 10)]
  {
    assert NatToString(y / 1000) == [DigitChar(y / 1000)];
    assert y / 10 / 10 / 10 == y / 1000 && y / 10 / 10 % 10 == y / 100 % 10;
    assert NatToString(y / 10 / 10) == [DigitChar(y / 1000), DigitChar(y / 100 % 10)];
    assert NatToString(y / 10) == [DigitChar(y / 1000), DigitChar(y / 100 % 10), DigitChar(y / 10 % 10)];
  }

  lemma {:induction false} DigitCharOfDigitAt(s: string, i: nat)
    requires i < |s| && IsDecimalDigit(s[i])
    ensures 0 <= DigitAt(s, i) <= 9 && DigitChar(DigitAt(s, i)) == s[i]
  {
  }

  lemma {:induction false} FourDigitArithmetic(a: int, b: int, c: int, e: int)
    requires 0 <= a <= 9 && 0 <= b <= 9 && 0 <= c <= 9 && 0 <= e <= 9
    ensures var y := 1000 * a + 100 * b + 10 * c + e;
      y / 1000 == a && y / 100 % 10 == b && y / 10 % 10 == c && y % 10 == e
  {
    var y := 1000 * a + 100 * b + 10 * c + e;
    assert y / 100 == 10 * a + b;
    assert (10 * a + b) % 10 == b;
    assert y / 10 == 100 * a + 10 * b + c;
    assert (100 * a + 10 * b + c) % 10 == c;
  }

  /** A number below 100 pads to its two digits. */
  lemma {:induction false} TwoDigits(n: int)
    requires 0 <= n < 100
    ensures Pad2(n) == [DigitChar(n / 10), DigitChar(n % 10)]
  {
    if n >= 10 {
      assert NatToString(n / 10) == [DigitChar(n / 10)];
    } else {
      assert IntToString(n) == [DigitChar(n)];
    }
  }

  /** Fields of widths four, two and two joined by dashes fill the ten places of a key. */
  lemma {:induction false} KeyPlaces(y: string, m: string, d: string)
    requires |y| == 4 && |m| == 2 && |d| == 2
    ensures y + "-" + m + "-" + d == [y[0], y[1], y[2], y[3], '-', m[0], m[1], '-', d[0], d[1]]
  {
  }

  /** A key holds the year, month and day digits at fixed positions. */
  lemma {:induction false} KeyDigits(d: CivilDate)
    requires ValidDate(d) && 1000 <= d.year <= 9999
    ensures DateKey(d) == [DigitChar(d.year / 1000), DigitChar(d.year / 100 % 10), DigitChar(d.year / 10 % 10), DigitChar(d.year % 10), '-',
                           DigitChar(d.month / 10), DigitChar(d.month % 10), '-', DigitChar(d.day / 10), DigitChar(d.day % 10)]
  {
    FourDigitYear(d.year);
    TwoDigits(d.month);
    TwoDigits(d.day);
    KeyPlaces(IntToString(d.year), Pad2(d.month), Pad2(d.day));
  }

  /** A key-shaped string is the display of its own digits. */
  lemma {:induction false} ShapedKeyDigits(s: string)
    requires KeyShaped(s)
    ensures s == [DigitChar(DigitAt(s, 0)), DigitChar(DigitAt(s, 1)), DigitChar(DigitAt(s, 2)), DigitChar(DigitAt(s, 3)), '-',
                  DigitChar(DigitAt(s, 5)), DigitChar(DigitAt(s, 6)), '-', DigitChar(DigitAt(s, 8)), DigitChar(DigitAt(s, 9))]
  {
    DigitCharOfDigitAt(s, 0);
    DigitCharOfDigitAt(s, 1);
    DigitCharOfDigitAt(s, 2);
    DigitCharOfDigitAt(s, 3);
    DigitCharOfDigitAt(s, 5);
    DigitCharOfDigitAt(s, 6);
    DigitCharOfDigitAt(s, 8);
    DigitCharOfDigitAt(s, 9);
  }

  /** The tens and units of a two-digit number are its digits. */
  lemma {:induction false} TwoDigitArithmetic(p: int, q: int)
    requires 0 <= p <= 9 && 0 <= q <= 9
    ensures (10 * p + q) / 10 == p && (10 * p + q) % 10 == q
  {
  }

  /** Printing a date with a four-digit year and parsing the key gives the date back. */
  lemma {:induction false} ParseDateKeyOfDateKey(d: CivilDate)
    requires ValidDate(d) && 1000 <= d.year <= 9999
    ensures ParseDateKey(DateKey(d)) == Some(d)
  {
    var y, m, dd := d.year, d.month, d.day;
    var a, b, c, e := y / 1000, y / 100 % 10, y / 10 % 10, y % 10;
    var m1, m0, d1, d0 := m / 10, m % 10, dd / 10, dd % 10;
    assert 0 <= a < 10 && 0 <= m1 < 10 && 0 <= d1 < 10;
    var key := [DigitChar(a), DigitChar(b), DigitChar(c), DigitChar(e), '-', DigitChar(m1), DigitChar(m0), '-', DigitChar(d1), DigitChar(d0)];
    assert DateKey(d) == key by {
      KeyDigits(d);
    }
    assert CivilDate(1000 * a + 100 * b + 10 * c + e, 10 * m1 + m0, 10 * d1 + d0) == d by {
      FourDigitSplit(y);
      TwoDigitSplit(m);
      TwoDigitSplit(dd);
    }
    ParseDisplayedKey(a, b, c, e, m1, m0, d1, d0);
  }

  /** Parsing a key written out digit by digit reads the numbers those digits denote. */
  lemma {:induction false} ParseDisplayedKey(a: int, b: int, c: int, e: int, m1: int, m0: int, d1: int, d0: int)
    requires 0 <= a < 10 && 0 <= b < 10 && 0 <= c < 10 && 0 <= e < 10
    requires 0 <= m1 < 10 && 0 <= m0 < 10 && 0 <= d1 < 10 && 0 <= d0 < 10
    ensures var s := [DigitChar(a), DigitChar(b), DigitChar(c), DigitChar(e), '-', DigitChar(m1), DigitChar(m0), '-', DigitChar(d1), DigitChar(d0)];
      var year, month, day := 1000 * a + 100 * b + 10 * c + e, 10 * m1 + m0, 10 * d1 + d0;
      ParseDateKey(s) == if 1 <= month <= 12 && 1 <= day <= DaysInMonth(year, month) then Some(CivilDate(year, month, day)) else None
  {
    DisplayedKey(a, b, c, e, m1, m0, d1, d0);
  }

  /** A number below 100 is ten times its tens digit plus its units digit. */
  lemma {:induction false} TwoDigitSplit(n: int)
    requires 0 <= n < 100
    ensures 0 <= n / 10 < 10 && 10 * (n / 10) + n % 10 == n
  {
  }

  /** A key written out digit by digit is key-shaped and holds those digits. */
  lemma {:induction false} DisplayedKey(a: int, b: int, c: int, e: int, m1: int, m0: int, d1: int, d0: int)
    requires 0 <= a < 10 && 0 <= b < 10 && 0 <= c < 10 && 0 <= e < 10
    requires 0 <= m1 < 10 && 0 <= m0 < 10 && 0 <= d1 < 10 && 0 <= d0 < 10
    ensures var s := [DigitChar(a), DigitChar(b), DigitChar(c), DigitChar(e), '-', DigitChar(m1), DigitChar(m0), '-', DigitChar(d1), DigitChar(d0)];
      KeyShaped(s) && DigitAt(s, 0) == a && DigitAt(s, 1) == b && DigitAt(s, 2) == c && DigitAt(s, 3) == e
      && DigitAt(s, 5) == m1 && DigitAt(s, 6) == m0 && DigitAt(s, 8) == d1 && DigitAt(s, 9) == d0
  {
  }

  /** A number below 10000 is the sum of its four decimal digits times their place values. */
  lemma {:induction false} FourDigitSplit(y: int)
    requires 0 <= y <= 9999
    ensures 1000 * (y / 1000) + 100 * (y / 100 % 10) + 10 * (y / 10 % 10) + y % 10 == y
  {
    assert y / 100 == 10 * (y / 1000) + y / 100 % 10;
    assert y / 10 == 10 * (y / 100) + y / 10 % 10;
  }

  /** Parsing a key and printing the date gives the key back, for four-digit years from 1000. */
  lemma {:induction false} DateKeyOfParseDateKey(s: string)
    requires ParseDateKey(s).Some? && ParseDateKey(s).value.year >= 1000
    ensures DateKey(ParseDateKey(s).value) == s
  {
    var d := ParseDateKey(s).value;
    var a, b, c, e := DigitAt(s, 0), DigitAt(s, 1), DigitAt(s, 2), DigitAt(s, 3);
    var m1, m0, d1, d0 := DigitAt(s, 5), DigitAt(s, 6), DigitAt(s, 8), DigitAt(s, 9);
    assert d == CivilDate(1000 * a + 100 * b + 10 * c + e, 10 * m1 + m0, 10 * d1 + d0);
    var key := [DigitChar(a), DigitChar(b), DigitChar(c), DigitChar(e), '-', DigitChar(m1), DigitChar(m0), '-', DigitChar(d1), DigitChar(d0)];
    assert s == key by {
      ShapedKeyDigits(s);
    }
    assert d.year / 1000 == a && d.year / 100 % 10 == b && d.year / 10 % 10 == c && d.year % 10 == e by {
      FourDigitArithmetic(a, b, c, e);
    }
    assert d.month / 10 == m1 && d.month % 10 == m0 && d.day / 10 == d1 && d.day % 10 == d0 by {
      TwoDigitArithmetic(m1, m0);
      TwoDigitArithmetic(d1, d0);
    }
    KeyDigits(d);
  }

  /** Normalisation leaves every valid key with a year from 1000 to 9999 unchanged. */
  lemma {:induction false} NormalizeValidKey(s: string)
    requires ParseDateKey(s).Some? && ParseDateKey(s).value.year >= 1000
    ensures NormalizeDateKey(s) == s
  {
    DateKeyOfParseDateKey(s);
  }

  /** Calendar order: an earlier year, or the same year and an earlier month, or the same month and an earlier day. */
  predicate DateBefore(a: CivilDate, b: CivilDate) {
    a.year < b.year
    || (a.year == b.year && a.month < b.month)
    || (a.year == b.year && a.month == b.month && a.day < b.day)
  }

  /** Each year starts at least 365 days after the previous one. */
  lemma {:induction false} YearsAdvance(y1: int, y2: int)
    requires y1 <= y2
    ensures DaysBeforeYear(y1) + 365 * (y2 - y1) <= DaysBeforeYear(y2)
    decreases y2 - y1
  {
    if y1 < y2 {
      YearsAdvance(y1, y2 - 1);
      YearLength(y2 - 1);
    }
  }

  /** Each month starts after the whole of every earlier month of the same year. */
  lemma {:induction false} MonthsAdvance(y: int, m1: int, m2: int)
    requires 1 <= m1 < m2 <= 12
    ensures DaysBeforeMonth(y, m1) + DaysInMonth(y, m1) <= DaysBeforeMonth(y, m2)
    decreases m2 - m1
  {
    if m1 + 1 < m2 {
      MonthsAdvance(y, m1 + 1, m2);
    }
  }

  /** A valid date falls inside its own year. */
  lemma {:induction false} DayNumberWithinYear(d: CivilDate)
    requires ValidDate(d)
    ensures DaysBeforeYear(d.year) <= DayNumber(d) < DaysBeforeYear(d.year + 1)
  {
    YearLength(d.year);
    if d.month < 12 {
      MonthsAdvance(d.year, d.month, 12);
    }
  }

  /** Day numbers of valid dates increase exactly in calendar order. */
  lemma {:induction false} DayNumberOrder(a: CivilDate, b: CivilDate)
    requires ValidDate(a) && ValidDate(b)
    ensures DayNumber(a) < DayNumber(b) <==> DateBefore(a, b)
    ensures DayNumber(a) == DayNumber(b) <==> a == b
  {
    DayNumberWithinYear(a);
    DayNumberWithinYear(b);
    if a.year < b.year {
      YearsAdvance(a.year + 1, b.year);
    } else if b.year < a.year {
      YearsAdvance(b.year + 1, a.year);
    } else if a.month < b.month {
      MonthsAdvance(a.year, a.month, b.month);
    } else if b.month < a.month {
      MonthsAdvance(a.year, b.month, a.month);
    }
  }

  /** The year part of a key: four digits whose value is the year. */
  lemma {:induction false} YearDigits(y: int)
    requires 1000 <= y <= 9999
    ensures |IntToString(y)| == 4 && AllDecimalDigits(IntToString(y))
    ensures forall i :: 0 <= i < 4 ==> IsRadixDigit(IntToString(y)[i], 10)
    ensures ValueInRadix(IntToString(y), 10) == y
  {
    FourDigitYear(y);
    ValueOfNatToString(y);
  }

  /** The month and day parts of a key: two digits whose value is the number. */
  lemma {:induction false} PaddedDigits(n: int)
    requires 0 <= n < 100
    ensures |Pad2(n)| == 2 && AllDecimalDigits(Pad2(n))
    ensures forall i :: 0 <= i < 2 ==> IsRadixDigit(Pad2(n)[i], 10)
    ensures ValueInRadix(Pad2(n), 10) == n
  {
    TwoDigits(n);
    var s := Pad2(n);
    assert s[..1] == [DigitChar(n / 10)];
    assert s[..1][..0] == [];
    assert ValueInRadix(s[..1], 10) == n / 10;
  }

  /** Four-digit years print to numerals of one width, ordered as the years are. */
  lemma {:induction false} YearFieldOrder(a: int, b: int)
    requires 1000 <= a <= 9999 && 1000 <= b <= 9999
    ensures |IntToString(a)| == |IntToString(b)|
    ensures StringLess(IntToString(a), IntToString(b)) <==> a < b
    ensures IntToString(a) == IntToString(b) <==> a == b
  {
    YearDigits(a);
    YearDigits(b);
    DigitStringLess(IntToString(a), IntToString(b));
  }

  /** Padded months and days are two characters wide, ordered as the numbers are. */
  lemma {:induction false} PaddedFieldOrder(a: int, b: int)
    requires 0 <= a < 100 && 0 <= b < 100
    ensures |Pad2(a)| == |Pad2(b)|
    ensures StringLess(Pad2(a), Pad2(b)) <==> a < b
    ensures Pad2(a) == Pad2(b) <==> a == b
  {
    PaddedDigits(a);
    PaddedDigits(b);
    DigitStringLess(Pad2(a), Pad2(b));
  }

  /** Keys whose year and month fields have equal widths compare field by field. */
  lemma {:induction false} KeyFieldsOrder(ya: string, ma: string, da: string, yb: string, mb: string, db: string)
    requires |ya| == |yb| && |ma| == |mb|
    ensures StringLess(ya + "-" + ma + "-" + da, yb + "-" + mb + "-" + db) <==>
      StringLess(ya, yb) || (ya == yb && StringLess(ma, mb)) || (ya == yb && ma == mb && StringLess(da, db))
  {
    assert ya + "-" + ma + "-" + da == ya + ("-" + (ma + ("-" + da)));
    assert yb + "-" + mb + "-" + db == yb + ("-" + (mb + ("-" + db)));
    StringLessConcat(ya, "-" + (ma + ("-" + da)), yb, "-" + (mb + ("-" + db)));
    StringLessConcat("-", ma + ("-" + da), "-", mb + ("-" + db));
    StringLessConcat(ma, "-" + da, mb, "-" + db);
    StringLessConcat("-", da, "-", db);
    StringLessIrreflexive(ya);
    StringLessIrreflexive(ma);
  }

  /** Comparing keys as strings compares the dates they print, for years from 1000 to 9999. */
  lemma {:induction false} DateKeyOrder(a: CivilDate, b: CivilDate)
    requires ValidDate(a) && ValidDate(b)
    requires 1000 <= a.year <= 9999 && 1000 <= b.year <= 9999
    ensures StringLess(DateKey(a), DateKey(b)) <==> DateBefore(a, b)
  {
    YearFieldOrder(a.year, b.year);
    PaddedFieldOrder(a.month, b.month);
    PaddedFieldOrder(a.day, b.day);
    KeyFieldsOrder(IntToString(a.year), Pad2(a.month), Pad2(a.day), IntToString(b.year), Pad2(b.month), Pad2(b.day));
  }

  /**
   * For valid keys with years from 1000 to 9999, JavaScript's `<` on the key strings
   * is exactly "an earlier day".
   */
  lemma {:induction false} KeyLessIsEarlierDay(s: string, t: string)
    requires ParseDateKey(s).Some? && ParseDateKey(s).value.year >= 1000
    requires ParseDateKey(t).Some? && ParseDateKey(t).value.year >= 1000
    ensures StringLess(s, t) <==> DayNumber(ParseDateKey(s).value) < DayNumber(ParseDateKey(t).value)
  {
    DateKeyOfParseDateKey(s);
    DateKeyOfParseDateKey(t);
    DateKeyOrder(ParseDateKey(s).value, ParseDateKey(t).value);
    DayNumberOrder(ParseDateKey(s).value, ParseDateKey(t).value);
  }
}
