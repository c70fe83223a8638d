# TOEIC study manager: the rules of the dashboard, in Dafny

The study manager is a single-page web application. Users keep a list of study tasks
(title, category, due date), mark each one completed with the minutes spent, set a
target score and an exam date, and see a month calendar and short encouraging
messages. This project models the rule-bearing core of that application and proves its
properties:

- **Encouragement engine** (`Encouragement`):
  - the message corpus;
  - the classification of the user's situation into context tags;
  - the part of the day;
  - the three-stage filter that draws a message while avoiding recently shown ones;
  - the bounded most-recently-shown history kept in browser storage.
- **Statistics** (`Statistics`): completion percentage, days left to the exam, tasks
  needed per day and total study time. Floating-point rounding is replaced by exact
  integer arithmetic.
- **Calendar** (`Calendar`, on top of `Dates`):
  - days in a month and the first weekday;
  - month navigation and the month heading;
  - the `YYYY-MM-DD` date key (the extended calendar-date format of section 4.1.2.2 of
    ISO 8601:2004);
  - the tasks due on a day and the four-way classification of a day;
  - the loop that lays days out in week rows;
  - the displayed-month and selected-day state.
- **Task list** (`TaskList`): the due-date sort, the overdue test, the category badge
  lookups and the state of its completion dialog.
- **Dialogs and forms** (`CompletionModal`, `TaskEditModal`, `TaskForm`): the
  validators and the field updates of their submit handlers.
- **Header** (`Header`): the two goal inputs and the remaining-task counter.
- **JavaScript built-ins** (`JsText`): the ones whose behaviour the rules depend on:
  - `String(n)`, `padStart` and `trim`;
  - `parseInt` (section 19.2.5 of ECMA-262);
  - `Number(s)` for decimal integers;
  - `<` on strings.
- **Generic modules**: `Seqs` holds filtering, sub-sequences and duplicate-freedom.
  `Types` holds the stored records and `Wrappers` the `Option` type.

Components whose handlers update fields are classes:

| class | fields |
|---|---|
| `Calendar.CalendarView` | the displayed month and the selected day |
| `TaskList.ListState` | the remembered task and whether the dialog shows |
| `CompletionModal.ModalState` | the completion dialog's fields |
| `TaskEditModal.EditDialog` | the edit dialog's fields |
| `TaskForm.FormState` | the add form's fields |
| `Encouragement.MessageHistoryManager` | the storage entry |

Calls a component makes to its parent (`onComplete`, `onSave`, `onClose`, `onAddTask`,
`onDeleteTask`, `alert`) are recorded in sequence fields, so the contracts state which
calls are made and with what. The statistics, the header and the calendar's month
arithmetic are pure functions. The week-layout loop of `renderCalendar` and the tag
collection of `getCurrentContext` are methods with loops or step-by-step updates,
each proved against a specification function.

Modelling choices:

- **Clock and randomness.** These become parameters:
  - `Math.random()` is a real `u` with `0 <= u < 1`, and the index drawn is
    `floor(u * n)` as in the source;
  - the hour of the day is `hour`;
  - the current instant is `nowMs`, in milliseconds since the epoch;
  - today's key is the `today` constant of `TaskList.ListState`.
- **Browser storage.** The storage entry is `Absent`, `Corrupt` (anything that
  `JSON.parse` rejects) or `Ids(list)`. A storage that throws on writes has
  `writable == false`. Its failures are swallowed as in the source.
- **Dates.** Only the exact `YYYY-MM-DD` form of an existing day parses. It denotes
  midnight UTC. Local time is taken to be UTC. `new Date(year, month, day)` counts a
  year from 0 to 99 as 1900 plus that year, and the calendar's month arithmetic does
  the same (`Dates.FullYear`).
- **Numbers.** Numbers are unbounded integers.
  - Percentages are whole numbers rounded half up.
  - Tasks per day are integer tenths, rounded half away from zero.
  - `Number(s)` yields `Num(n)` or `NaN`.

## Model

| member | source | states |
|---|---|---|
| JsText.Trim | src/components/TaskEditModal.tsx:38-53 | `trim()` never lengthens a string; the result is empty exactly when the input is all white space; otherwise it starts and ends with a non-white-space character |
| JsText.TrimIsInfix | src/components/TaskEditModal.tsx:51-53 | the trimmed string is the infix of the input between its leading white space and a trailing part, and both removed parts are all white space |
| JsText.TrimIsIdempotent | src/components/TaskEditModal.tsx:51-53 | trimming a trimmed string changes nothing |
| JsText.TrimmedEmptyMeansBlank | src/components/TaskEditModal.tsx:38 | removing leading, then trailing white space leaves nothing exactly when the string is all white space |
| JsText.NoLeadingWhiteSpace | src/components/CompletionModal.tsx:18 | a string that does not start with white space has nothing for `parseInt` to skip |
| JsText.NoTrailingWhiteSpace | src/components/TaskEditModal.tsx:51 | a string that does not end with white space loses nothing at its end |
| JsText.LeadingWhiteSpace | src/components/CompletionModal.tsx:18 | the count of leading white space: that prefix is all white space and the next character is not |
| JsText.TrailingWhiteSpace | src/components/TaskEditModal.tsx:51 | the count of trailing white space: that suffix is all white space and the character before it is not |
| JsText.NatToString | src/components/Calendar.tsx:72 | `String(n)` of a natural number: at least one decimal digit, no leading zero, a single digit exactly below 10 |
| JsText.IntToString | src/components/Calendar.tsx:25 | `String(n)` of an integer: the digits of its magnitude, preceded by `-` when negative |
| JsText.PadStart | src/components/Calendar.tsx:71-72 | `padStart`: a string already wide enough is unchanged; otherwise the result has exactly the width, ends with the string, and is filled before it |
| JsText.DigitValue | src/components/CompletionModal.tsx:18 | the value of a radix digit: -1 exactly for non-alphanumerics, 0-9 exactly for decimal digits |
| JsText.DigitPrefixLength | src/components/CompletionModal.tsx:18 | the longest run of radix digits at the start: all digits, followed by a non-digit or the end |
| JsText.ParseUnsigned | src/components/CompletionModal.tsx:18 | the unsigned part of `parseInt` gives NaN exactly when no digit follows (after a `0x` prefix, no hexadecimal digit) |
| JsText.ParseInt | src/components/CompletionModal.tsx:18 | `parseInt` of an empty or blank string is NaN |
| JsText.ValueOfNatToString | src/components/Calendar.tsx:72 | reading the printed numeral of `n` back in radix 10 gives `n` |
| JsText.DigitPrefixOfNumeral | src/components/CompletionModal.tsx:18 | a run of digits followed by a non-digit is read entirely |
| JsText.ParseUnsignedReadsNumeral | src/components/CompletionModal.tsx:18 | the unsigned reader reads back a printed natural number followed by a non-digit |
| JsText.ParseIntReadsLeadingNumeral | src/components/CompletionModal.tsx:18 | `parseInt(String(n) + rest) == n` when `rest` does not continue the numeral, so `parseInt` inverts `String` and ignores trailing text |
| JsText.ParseIntOfSignedNumeral | src/components/CompletionModal.tsx:18 | `parseInt` of an optional `-` and a decimal numeral is the numeral's value, negated after the sign |
| JsText.SignedNumeral | src/components/Calendar.tsx:25 | the printed integer is its sign followed by the printed magnitude |
| JsText.SignedDecimal | src/components/Header.tsx:16 | a non-empty run of decimal digits is a number, not NaN |
| JsText.StringToNumber | src/components/Header.tsx:16 | `Number(s)` of an empty or blank string is 0, and a string of decimal digits never gives NaN |
| JsText.DigitsNeedNoTrim | src/components/Header.tsx:16 | a string of decimal digits trims to itself |
| JsText.StringToNumberOfDigits | src/components/Header.tsx:16 | `Number(s)` of a string of decimal digits is the value those digits denote |
| JsText.DecimalDigitsAreRadixDigits | src/components/Header.tsx:16 | decimal digits are digits of radix 10 |
| JsText.StringLessIrreflexive | src/components/TaskList.tsx:60 | no string is `<` itself |
| JsText.StringLessTransitive | src/components/TaskList.tsx:60 | `<` on strings is transitive |
| JsText.StringLessTotal | src/components/TaskList.tsx:60 | of two different strings one is `<` the other |
| JsText.StringLessConcat | src/components/TaskList.tsx:60 | strings whose first parts have equal length compare by their first parts, or by the rest when those are equal |
| JsText.DigitStringLess | src/components/TaskList.tsx:60 | for decimal numerals of equal length, string `<` is numeric `<` and string equality is numeric equality |
| JsText.PlaceValueOrder | src/components/TaskList.tsx:60 | appending one digit to two numbers orders them lexicographically by (number, digit) |
| Dates.DaysInMonth | src/components/Calendar.tsx:16-18 | 28 to 31 days; February has 29 exactly in Gregorian leap years; of the other months exactly April, June, September and November have 30 |
| Dates.Weekday | src/components/Calendar.tsx:20-22 | `getDay()` lies in 0..6 |
| Dates.EpochIsThursday | src/components/Calendar.tsx:21 | 1970-01-01, the origin of JavaScript time values, is day `UnixEpochDay` and a Thursday |
| Dates.YearLength | src/components/Calendar.tsx:17 | a year has 366 days exactly when it is a leap year, else 365 |
| Dates.QuotientStep | src/components/Calendar.tsx:17 | the leap-rule quotient by 4, 100 or 400 steps up by one exactly at multiples |
| Dates.FollowingMonth | src/components/Calendar.tsx:17 | a valid first of the month, exactly one calendar month on, December rolling to January of the next year |
| Dates.FullYear | src/components/Calendar.tsx:16-34 | the year the Date constructor counts in: never one from 0 to 99, the same as the given year exactly when that is not one from 0 to 99, and with the same last two digits |
| Dates.NextMonthStart | src/components/Calendar.tsx:28-30 | `new Date(y, m + 1, 1)`: a valid first of the month, one month after month `m` of `FullYear(y)`, so exactly one month on for a year outside 0 to 99 (from December of year 99 it is January 2000) |
| Dates.MonthLength | src/components/Calendar.tsx:17 | the first of the next month is `DaysInMonth` days after the first of this one, so day 0 of the next month is the last day of this one |
| Dates.ParseDateKey | src/utils/statistics.ts:18 | `new Date(key)` gives a valid date with a year of 0-9999, and only for a string shaped `DDDD-DD-DD` |
| Dates.NormalizeDateKey | src/components/Calendar.tsx:38-42 | an invalid date prints as `NaN-NaN-NaN` |
| Dates.ParseDateKeyOfDateKey | src/components/Calendar.tsx:69-74 | the key a cell prints for a date with a four-digit year parses back to that date |
| Dates.DateKeyOfParseDateKey | src/components/Calendar.tsx:38-42 | printing a parsed key (year from 1000) gives the key back |
| Dates.NormalizeValidKey | src/components/Calendar.tsx:38-44 | normalisation leaves a valid key with a four-digit year unchanged |
| Dates.ParseDisplayedKey | src/components/Calendar.tsx:38-42 | a key written digit by digit parses to the date of those digits exactly when that date exists |
| Dates.DisplayedKey | src/components/Calendar.tsx:38-42 | a key written digit by digit is key-shaped and holds those digits |
| Dates.ShapedKeyDigits | src/components/Calendar.tsx:38-42 | a key-shaped string is the display of its own digits |
| Dates.KeyDigits | src/components/Calendar.tsx:70-73 | a printed key holds the four year digits, then the two month digits and the two day digits, at fixed places |
| Dates.KeyPlaces | src/components/Calendar.tsx:73 | fields of widths 4, 2 and 2 joined by dashes fill the ten places of a key |
| Dates.FourDigitYear | src/components/Calendar.tsx:70 | a four-digit year prints as its four digits |
| Dates.TwoDigits | src/components/Calendar.tsx:71-72 | a padded number below 100 prints as its tens and units digits |
| Dates.YearDigits | src/components/Calendar.tsx:70 | a four-digit year prints as four decimal digits whose value is the year |
| Dates.PaddedDigits | src/components/Calendar.tsx:71-72 | a padded month or day is two decimal digits whose value is the number |
| Dates.DayNumberWithinYear | src/components/TaskList.tsx:19 | a valid date's day number lies within its year |
| Dates.YearsAdvance | src/components/TaskList.tsx:19 | each later year starts at least 365 days further on |
| Dates.MonthsAdvance | src/components/TaskList.tsx:19 | each later month of a year starts after the whole of every earlier month |
| Dates.DayNumberOrder | src/components/TaskList.tsx:18-20 | day numbers of valid dates increase exactly in calendar order, and are equal exactly for equal dates |
| Dates.YearFieldOrder | src/components/TaskList.tsx:60 | printed four-digit years have one width and compare as strings as the years compare |
| Dates.PaddedFieldOrder | src/components/TaskList.tsx:60 | padded months and days have one width and compare as strings as the numbers compare |
| Dates.KeyFieldsOrder | src/components/TaskList.tsx:60 | keys whose year and month fields have equal widths compare field by field |
| Dates.DateKeyOrder | src/components/TaskList.tsx:60 | for four-digit years, `<` on the keys is exactly calendar order of the dates |
| Dates.KeyLessIsEarlierDay | src/components/TaskList.tsx:60 | for valid keys with four-digit years, `<` on the key strings is exactly "an earlier day" |
| Statistics.CompletedTasks | src/utils/statistics.ts:8 | every task kept is completed |
| Statistics.IncompleteTasks | src/utils/statistics.ts:30 | every task kept is incomplete, and completed plus incomplete count every task |
| Statistics.RoundHalfUp | src/utils/statistics.ts:9 | `Math.round(x/d)`: the `q` with `q - 1/2 <= x/d < q + 1/2`; zero exactly when `x/d < 1/2` |
| Statistics.RoundHalfUpIs | src/utils/statistics.ts:9 | rounding gives `k` whenever `x/d` lies within half of `k` |
| Statistics.RoundHalfUpAtMost | src/utils/statistics.ts:9 | rounding never exceeds a whole-number bound of `x/d` |
| Statistics.DivisionBounds | src/utils/statistics.ts:9 | the integer quotient lies within one divisor below the dividend |
| Statistics.ScaleOrder | src/utils/statistics.ts:9 | multiplying by a positive factor keeps strict order both ways |
| Statistics.CalculateProgress | src/utils/statistics.ts:6-10 | 0 for no tasks; otherwise `100 * completed / total` rounded half up; always in 0..100 |
| Statistics.ProgressWhenAllCompleted | src/utils/statistics.ts:8-9 | every task completed gives 100 |
| Statistics.ProgressWhenNoneCompleted | src/utils/statistics.ts:8-9 | no task completed gives 0 |
| Statistics.ProgressExamples | src/utils/statistics.ts:6-10 | 1 of 3 gives 33, 2 of 3 gives 67, 1 of 2 gives 50 |
| Statistics.CeilDiv | src/utils/statistics.ts:20 | `Math.ceil(x/d)`: the `q` with `(q-1)d < x <= qd` |
| Statistics.CalculateDaysLeft | src/utils/statistics.ts:15-23 | never negative; 0 for an empty or invalid date; otherwise 0 exactly when the exam is not later than now, and else the difference in days rounded up |
| Statistics.DaysLeftExample | src/utils/statistics.ts:18-22 | from 2025-08-13 to 2025-12-31 is 140 days |
| Statistics.PastExamExample | src/utils/statistics.ts:16-22 | a past exam date and an empty one both give 0 |
| Statistics.KeyOfDate | src/utils/statistics.ts:18 | a literal key of a valid date with a four-digit year parses to that date |
| Statistics.Abs | src/utils/statistics.ts:31 | the magnitude of a number |
| Statistics.RoundHalfAway | src/utils/statistics.ts:31 | `toFixed` rounding of `x/d`: the magnitude is rounded half up and the result carries the sign of `d` |
| Statistics.RequiredTasksPerDay | src/utils/statistics.ts:28-32 | 0 when no days are left; otherwise incomplete tasks per day in tenths, rounded to the nearest tenth with ties away from zero, with the sign of `daysLeft`; 0 exactly when no days are left or the rate is below 0.05 |
| Statistics.RequiredTasksExamples | src/utils/statistics.ts:28-32 | 4 open tasks over 10 days is 0.4; no open task is 0 |
| Statistics.StudyTime | src/utils/statistics.ts:39 | a task contributes its recorded minutes, or 0 without completion data |
| Statistics.TotalStudyTime | src/utils/statistics.ts:37-41 | non-negative when every contribution is; 0 when no task has completion data; completed flags are not consulted |
| Statistics.TotalStudyTimeAppend | src/utils/statistics.ts:37-41 | the total is additive over concatenation |
| Statistics.TotalStudyTimeExample | src/utils/statistics.ts:37-41 | a 30-minute task and one without data total 30 |
| Encouragement.CorpusIdsAreDistinct | src/utils/encouragementMessages.ts:7-161 | the corpus ids are pairwise distinct |
| Encouragement.EveryTagHasAMessage | src/utils/encouragementMessages.ts:7-161 | every tag except `first_task` is aimed at by some message |
| Encouragement.NoMessageForFirstTask | src/utils/encouragementMessages.ts:7-161 | no message is aimed at `first_task` |
| Encouragement.Rank | src/utils/encouragementMessages.ts:176-201 | the step that adds a tag; step 0 exactly for the part-of-day tags |
| Encouragement.GetCurrentContext | src/utils/encouragementMessages.ts:166-204 | the tags are exactly: the part of day if given (first); `high_progress` iff rate >= 80; `low_progress` iff rate <= 30; `first_task` iff completed == 1; `streak` iff completed >= 3; `near_goal` iff a goal and rate >= 90. They come in that order, without duplicates, at most 4; the exclusive pairs never co-occur, and `near_goal` implies `high_progress` |
| Encouragement.ContextsForClassifies | src/utils/encouragementMessages.ts:174-203 | the specification list classifies the situation, starts with the part of day, has no duplicates and at most 4 tags |
| Encouragement.ContextsForOrder | src/utils/encouragementMessages.ts:174-203 | the specification list is in addition order and starts with the part of day |
| Encouragement.ContextsForMembers | src/utils/encouragementMessages.ts:174-203 | the specification list holds each tag exactly under its condition |
| Encouragement.ClassificationIsUnique | src/utils/encouragementMessages.ts:174-203 | two tag lists that both classify a situation are equal |
| Encouragement.RankedSameMembersAreEqual | src/utils/encouragementMessages.ts:174-203 | two tag lists in addition order with the same members are equal |
| Encouragement.TimePart | src/utils/encouragementMessages.ts:177-179 | at most one tag, a part of day |
| Encouragement.ProgressPart | src/utils/encouragementMessages.ts:182-186 | at most one progress tag |
| Encouragement.FirstTaskPart | src/utils/encouragementMessages.ts:189-191 | at most one `first_task` tag |
| Encouragement.StreakPart | src/utils/encouragementMessages.ts:194-196 | at most one `streak` tag |
| Encouragement.NearGoalPart | src/utils/encouragementMessages.ts:199-201 | at most one `near_goal` tag |
| Encouragement.TimeOfDayOf | src/utils/encouragementMessages.ts:209-219 | morning exactly for hours 6-11, afternoon exactly for 12-17, evening exactly for the rest |
| Encouragement.ContextPool | src/utils/encouragementMessages.ts:229-247 | stage 1 holds exactly the non-excluded messages that fit the tags (no tags, a generic message, or a shared tag) |
| Encouragement.GenericPool | src/utils/encouragementMessages.ts:250-254 | stage 2 holds exactly the non-excluded generic messages |
| Encouragement.AllowedPool | src/utils/encouragementMessages.ts:257-261 | stage 3 holds exactly the non-excluded messages, and is empty exactly when every message is excluded |
| Encouragement.CandidatePool | src/utils/encouragementMessages.ts:249-261 | the first non-empty stage: stage 1 whenever it is non-empty, otherwise stage 3 (all non-excluded messages), since stage 2 is then empty; empty exactly when everything is excluded |
| Encouragement.GenericStageNeverDecides | src/utils/encouragementMessages.ts:236-254 | stage 2 is empty whenever stage 1 is |
| Encouragement.PickIndex | src/utils/encouragementMessages.ts:269 | `Math.floor(u * n)` is an index below `n`, with `i <= u*n < i+1` |
| Encouragement.PickIndexOnInterval | src/utils/encouragementMessages.ts:269 | the index is `i` exactly on the interval of `i` |
| Encouragement.Draw | src/utils/encouragementMessages.ts:264-270 | a non-empty pool yields one of its members, an empty one the fallback |
| Encouragement.DrawOnInterval | src/utils/encouragementMessages.ts:269-270 | the element drawn on the interval of `i` is the `i`-th |
| Encouragement.RandomEncouragementMessage | src/utils/encouragementMessages.ts:224-271 | the message is a corpus member; not excluded unless every id is; the first message when every id is excluded; fits the tags whenever stage 1 is non-empty |
| Encouragement.CandidateDrawnOnItsInterval | src/utils/encouragementMessages.ts:269-270 | candidate `i` of `n` is returned when `u` lies in `[i/n, (i+1)/n)` |
| Encouragement.ScaledFraction | src/utils/encouragementMessages.ts:269 | `i/n` is a valid random value that scales back to `i` |
| Encouragement.ExcludedIdsAreSkipped | src/utils/encouragementMessages.ts:229-233 | with the first five ids excluded and no tags, none of them is returned |
| Encouragement.Take | src/utils/encouragementMessages.ts:293 | `slice(0, n)`: a prefix of at most `n` elements, the whole list when it is short enough |
| Encouragement.MoveToFront | src/utils/encouragementMessages.ts:291-293 | the new history starts with `id`, has at most 10 entries, holds `id` nowhere else, keeps the other entries in their old order, has no duplicates when the old one had none, has `min(1 + others, 10)` entries, keeps every other entry preceded by fewer than nine others, and (without duplicates) keeps only the newest others |
| Encouragement.MoveToFrontHead | src/utils/encouragementMessages.ts:292-293 | the new history starts with `id` and holds it nowhere else |
| Encouragement.MoveToFrontKeepsOrder | src/utils/encouragementMessages.ts:292 | the entries after the head are old entries in their old order |
| Encouragement.MoveToFrontNoDuplicates | src/utils/encouragementMessages.ts:292-293 | a duplicate-free history stays duplicate-free |
| Encouragement.MoveToFrontKeepsRecent | src/utils/encouragementMessages.ts:292-293 | the nine most recent other entries survive: every other entry preceded by fewer than nine other entries |
| Encouragement.MoveToFrontKeepsNewest | src/utils/encouragementMessages.ts:292-293 | in a duplicate-free history, when an other entry survives, every more recent other entry survives too |
| Encouragement.MoveToFrontIsIdempotent | src/utils/encouragementMessages.ts:289-295 | showing the same message twice in a row leaves the history as after once |
| Encouragement.HistoryExamples | src/utils/encouragementMessages.ts:289-295 | showing 1, 2 gives [2, 1]; then 1 again gives [1, 2] |
| Encouragement.MessageHistoryManager.constructor | src/utils/encouragementMessages.ts:276-278 | the history starts from the given storage entry |
| Encouragement.MessageHistoryManager.RecentIds | src/utils/encouragementMessages.ts:280-287 | the stored list, or `[]` when the entry is absent or unreadable |
| Encouragement.MessageHistoryManager.AddToHistory | src/utils/encouragementMessages.ts:289-299 | the entry becomes the moved-to-front list (id first, at most 10); a failed write leaves it unchanged |
| Encouragement.MessageHistoryManager.ClearHistory | src/utils/encouragementMessages.ts:301-307 | the entry is removed and the history reads empty; a failed removal leaves it unchanged |
| Encouragement.GetEncouragementMessage | src/utils/encouragementMessages.ts:313-327 | the message is a corpus member drawn for the tags of the situation at `hour`, avoiding the stored history; the history then holds its id at the front |
| Seqs.Filter | src/utils/statistics.ts:8 | `filter` is no longer than its input, and every element kept passes the test |
| Seqs.FilterIsSubsequence | src/components/Calendar.tsx:44 | the filtered list is a sub-sequence of the input, in input order |
| Seqs.FilterMembers | src/components/Calendar.tsx:44 | every element kept is an input element passing the test |
| Seqs.FilterKeeps | src/components/Calendar.tsx:44 | every input element passing the test is kept |
| Seqs.FilterKeepsAll | src/utils/statistics.ts:8 | when every element passes, the filter is the identity |
| Seqs.FilterKeepsNone | src/utils/statistics.ts:8 | when no element passes, the filter is empty |
| Seqs.FilterAppend | src/utils/statistics.ts:8 | filtering distributes over concatenation |
| Seqs.FilterSplits | src/utils/statistics.ts:30 | a test and its negation split the list's length |
| Seqs.SubsequenceKeepsNoDuplicates | src/utils/encouragementMessages.ts:292 | a sub-sequence of a duplicate-free list is duplicate-free |
| Seqs.PrefixOfSubsequence | src/utils/encouragementMessages.ts:293 | a prefix of a sub-sequence is a sub-sequence |
| Calendar.GetDaysInMonth | src/components/Calendar.tsx:16-18 | 28-31; in the month of `FullYear(year)` that day exists and the next does not, and the month `nextMonth` shows starts the day after; February has 29 exactly when `FullYear(year)` is a leap year |
| Calendar.GetFirstDayOfMonth | src/components/Calendar.tsx:20-22 | a weekday in 0..6: that of the first of the month in `FullYear(year)` |
| Calendar.FirstDayOfNextMonth | src/components/Calendar.tsx:16-22 | the month `nextMonth` shows starts `days` weekdays after this one, and `getFirstDayOfMonth` gives that weekday unless its year is one from 0 to 99 |
| Calendar.MonthExamples | src/components/Calendar.tsx:16-22 | August 2025 starts on a Friday with 31 days; February has 29 days in 2024 and 28 in 2025 |
| Calendar.FormatMonthReadsBack | src/components/Calendar.tsx:24-26 | `parseInt` of the heading is the month number |
| Calendar.FormatMonthInjective | src/components/Calendar.tsx:24-26 | different months have different headings |
| Calendar.FormatMonthExample | src/components/Calendar.tsx:24-26 | August 2025 is headed "8月 2025" |
| Calendar.PrevMonthStart | src/components/Calendar.tsx:32-34 | `new Date(y, m - 1, 1)`: a valid first of the month, one month before month `m` of `FullYear(y)`, so exactly one month back for a year outside 0 to 99, January rolling to December of the previous year |
| Calendar.MonthNavigationRoundTrip | src/components/Calendar.tsx:28-34 | next then previous, or previous then next, returns to the first of the month exactly when neither the start nor the month stepped to has a year from 0 to 99 |
| Calendar.TwoDigitYearNavigation | src/components/Calendar.tsx:16-34 | from January of year 100 `prevMonth` shows December of year 99; from there `nextMonth` shows January 2000 and `prevMonth` November 1999; that December starts on the weekday of December 1999, and February of year 0 has 28 days |
| Calendar.GetTasksForDate | src/components/Calendar.tsx:36-44 | every task returned is due on the normalised key |
| Calendar.TasksForDateAreTheTasksDue | src/components/Calendar.tsx:36-44 | the result is a sub-sequence of the tasks holding every task due on the normalised key; for a valid four-digit-year key, exactly the tasks whose due date equals it |
| Calendar.ClassifyDay | src/components/Calendar.tsx:76-87 | mixed iff open and completed tasks; pending iff only open ones; done iff only completed ones; empty iff no task |
| Calendar.ClickableIffHasTasks | src/components/Calendar.tsx:97-101 | a day can be clicked exactly when it has a task |
| Calendar.CellFor | src/components/Calendar.tsx:68-105 | the cell of day `day` carries the key of that day in `FullYear(year)`; its look is the classification of the tasks for that key; it is clickable exactly when some task is due; for an existing day with a four-digit year the key parses back to that day and the tasks are exactly those due on it |
| Calendar.DayCells | src/components/Calendar.tsx:68 | one cell per day |
| Calendar.Blanks | src/components/Calendar.tsx:63-65 | `firstDay` blank cells |
| Calendar.LayoutStep | src/components/Calendar.tsx:89-105 | laying out one more day appends its cell |
| Calendar.DayCellAt | src/components/Calendar.tsx:68 | day `d` is at position `d - 1` of the day cells |
| Calendar.LayoutHoldsEachDayOnce | src/components/Calendar.tsx:61-115 | the layout is `firstDay` blanks, then days 1..n each exactly once and in order |
| Calendar.FlattenAppend | src/components/Calendar.tsx:107-124 | pushing a row appends its cells |
| Calendar.LayOutWeeks | src/components/Calendar.tsx:61-124 | the rows, read in order, are exactly the layout; every row has 1 to 7 cells and every row but the last has 7 |
| Calendar.RenderCalendar | src/components/Calendar.tsx:45-127 | the week rows of the displayed month are its blanks and day cells, every row but the last full |
| Calendar.CalendarView.constructor | src/components/Calendar.tsx:13-14 | opens on the given date with no day selected |
| Calendar.CalendarView.NextMonth | src/components/Calendar.tsx:28-30 | shows the first of the next month; the selection stays |
| Calendar.CalendarView.PrevMonth | src/components/Calendar.tsx:32-34 | shows the first of the previous month; the selection stays |
| Calendar.CalendarView.ClickDay | src/components/Calendar.tsx:97-101 | a click selects the day's key exactly when the day has tasks, and otherwise changes nothing |
| Calendar.CalendarView.CloseModal | src/components/Calendar.tsx:139-144 | closing the day's task list clears the selection |
| Calendar.CalendarView.ShownTasks | src/components/Calendar.tsx:139-141 | a list is shown exactly when a day is selected, and holds only tasks due that day |
| TaskList.DueKeyOf | src/components/TaskList.tsx:19 | a task has a day exactly when its due date parses |
| TaskList.InsertByDue | src/components/TaskList.tsx:18-20 | inserting into a sorted list keeps it sorted and adds exactly that task |
| TaskList.AllDueNoLaterOfPermutation | src/components/TaskList.tsx:18-20 | a bound on due days carries over to a rearrangement of the same tasks |
| TaskList.SortByDue | src/components/TaskList.tsx:18-20 | the sorted copy is a permutation of the tasks in ascending due day, invalid dates last |
| TaskList.SortByDueKeepsLength | src/components/TaskList.tsx:18-20 | the sorted copy has as many tasks as the input |
| TaskList.SortByDueKeepsSortedInput | src/components/TaskList.tsx:18-20 | a list already in order comes back unchanged |
| TaskList.InsertByDueKeepsTies | src/components/TaskList.tsx:18-20 | the inserted task comes after every task with the same due key |
| TaskList.SortByDueIsStable | src/components/TaskList.tsx:18-20 | the sort is stable: for every due day, and for the undated tasks, the tasks with that key come out in input order |
| TaskList.OverdueMeansEarlierDay | src/components/TaskList.tsx:60 | for valid four-digit-year keys, `dueDate < today` exactly when the task is due on an earlier day |
| TaskList.SortedKeysAscend | src/components/TaskList.tsx:18-20 | in the sorted list, well-dated keys ascend as strings |
| TaskList.OverdueTasksComeFirst | src/components/TaskList.tsx:59-60 | among well-dated tasks, overdue tasks precede all others in the sorted list |
| TaskList.GetCategoryColor | src/components/TaskList.tsx:35-44 | the colour of a known category, the `other` colour for unknown ones, always one of the table's colours |
| TaskList.GetCategoryName | src/components/TaskList.tsx:46-55 | the display name of a known category, the raw string for an unknown one |
| TaskList.CategoryExamples | src/components/TaskList.tsx:35-55 | `mock-test` is named `mock-test` and coloured as `other`; `reading` is named リーディング |
| TaskList.ListState.constructor | src/components/TaskList.tsx:13-15 | no remembered task, dialog hidden, today fixed once |
| TaskList.ListState.HandleCompleteTask | src/components/TaskList.tsx:22-25 | remembers the task and opens the dialog |
| TaskList.ListState.HandleCompletionSubmit | src/components/TaskList.tsx:27-33 | with a remembered task, reports its completion once, hides the dialog and forgets the task; without one, calls nothing |
| TaskList.ListState.CloseCompletionModal | src/components/TaskList.tsx:103 | hides the dialog and keeps the remembered task |
| TaskList.ListState.HandleDelete | src/components/TaskList.tsx:78-80 | asks the parent to delete the task at once, with no confirmation |
| CompletionModal.CheckTime | src/components/CompletionModal.tsx:18-19 | accepted exactly when `parseInt(time)` is a number other than 0, with that number as the minutes |
| CompletionModal.AcceptsPrintedMinutes | src/components/CompletionModal.tsx:18-19 | any non-zero integer typed, possibly negative and followed by non-digits, is accepted as itself |
| CompletionModal.RejectsBlank | src/components/CompletionModal.tsx:18-22 | an empty or blank field is rejected |
| CompletionModal.RejectsNonNumeric | src/components/CompletionModal.tsx:18-22 | a field starting with anything but white space, a sign or a digit is rejected |
| CompletionModal.RejectedTimeExamples | src/components/CompletionModal.tsx:18-22 | "", "abc" and "0" are rejected |
| CompletionModal.AcceptedTimeExample | src/components/CompletionModal.tsx:18-29 | "30" is accepted as 30 |
| CompletionModal.TrailingTextExample | src/components/CompletionModal.tsx:18-19 | "30abc" is accepted as 30 |
| CompletionModal.NegativeTimeExample | src/components/CompletionModal.tsx:18-19 | "-5" is accepted as -5 |
| CompletionModal.ModalState.constructor | src/components/CompletionModal.tsx:12-15 | empty minutes, difficulty and focus "normal", no error |
| CompletionModal.ModalState.EditTime | src/components/CompletionModal.tsx:51-54 | typing the minutes replaces them and clears the error |
| CompletionModal.ModalState.EditDifficulty | src/components/CompletionModal.tsx:73 | choosing a difficulty replaces it and leaves the rest |
| CompletionModal.ModalState.EditFocus | src/components/CompletionModal.tsx:89 | choosing a focus level replaces it and leaves the rest |
| CompletionModal.ModalState.HandleComplete | src/components/CompletionModal.tsx:17-35 | rejected: the error message is set and nothing else changes or is reported; accepted: the error clears, `{time, difficulty, focus}` is reported once, and the fields reset to "", "normal", "normal" |
| TaskEditModal.CheckEdit | src/components/TaskEditModal.tsx:38-46 | saving is allowed exactly when the title is not blank and the due date not empty; a blank title reports the title message first, else an empty date the date message |
| TaskEditModal.SavedDraft | src/components/TaskEditModal.tsx:50-55 | title and description are the `trim()` of what was typed, so the saved title is non-empty, starts and ends with non-white space and is no longer than typed; category and due date are passed as typed |
| TaskEditModal.SavingAgainKeepsTheDraft | src/components/TaskEditModal.tsx:50-55 | a saved draft passes the checks again and saves to itself |
| TaskEditModal.EditDialog.constructor | src/components/TaskEditModal.tsx:19-23 | empty fields, category "other", no error, no task |
| TaskEditModal.EditDialog.LoadTask | src/components/TaskEditModal.tsx:25-33 | a task's title, category and due date are copied, a missing description becomes "", the error clears; no task changes no field |
| TaskEditModal.EditDialog.EditTitle | src/components/TaskEditModal.tsx:107-110 | typing a title replaces it and clears the error |
| TaskEditModal.EditDialog.EditCategory | src/components/TaskEditModal.tsx:124 | choosing a category replaces it; the error stays |
| TaskEditModal.EditDialog.EditDueDate | src/components/TaskEditModal.tsx:143-146 | picking a due date replaces it and clears the error |
| TaskEditModal.EditDialog.EditDescription | src/components/TaskEditModal.tsx:159 | typing a description replaces it; the error stays |
| TaskEditModal.EditDialog.HandleSubmit | src/components/TaskEditModal.tsx:35-59 | a failed check sets its message and saves nothing; with no task nothing happens; otherwise the task's id and the trimmed draft are saved once, the error clears and the dialog closes; the fields never change |
| TaskEditModal.EditDialog.HandleClose | src/components/TaskEditModal.tsx:61-64 | clears the error and closes without saving |
| TaskForm.FormIsLaxerThanEditDialog | src/components/TaskForm.tsx:22 | the form accepts everything the edit dialog accepts, and additionally exactly the non-empty blank titles with a due date |
| TaskForm.BlankTitleExample | src/components/TaskForm.tsx:22 | the title " " passes the form and fails the edit dialog |
| TaskForm.FormState.constructor | src/components/TaskForm.tsx:15-18 | empty fields with category "other" |
| TaskForm.FormState.Edit | src/components/TaskForm.tsx:47-77 | each field takes the value typed; nothing is reported |
| TaskForm.FormState.HandleSubmit | src/components/TaskForm.tsx:20-39 | an empty title or due date raises the alert and keeps the fields; otherwise the fields are handed over untrimmed and reset to "", "other", "", "" |
| Header.RemainingTasks | src/components/Header.tsx:45 | the counter plus the completed count is the total; no clamping |
| Header.RemainingTasksAreIncomplete | src/components/Header.tsx:45 | fed with the page's counts, the counter is the number of incomplete tasks |
| Header.KeptExamDate | src/components/Header.tsx:17 | `goals?.examDate \|\| null`: the exam date survives exactly when it is set and non-empty |
| Header.KeptScore | src/components/Header.tsx:24 | `goals?.targetScore \|\| 0`: a non-zero, non-NaN score survives, anything else becomes 0 |
| Header.TargetScoreChange | src/components/Header.tsx:14-20 | the exam date is kept as above; a blank input gives score 0 |
| Header.TypedScoreIsItsValue | src/components/Header.tsx:16 | a score typed as digits is stored as their value |
| Header.ExamDateChange | src/components/Header.tsx:22-28 | the exam date is the input, or none when empty; the score is kept as above |
| Header.DateThenScoreKeepsBoth | src/components/Header.tsx:14-28 | a date change followed by a score change records both as entered |
| Header.ScoreThenDateKeepsBoth | src/components/Header.tsx:14-28 | a score change followed by a date change records both, a zero or NaN score becoming 0 |
| Header.ChangesForgetTheirOwnField | src/components/Header.tsx:14-28 | a date change does not depend on the previous date, nor a score change on the previous score |
| Header.GoalExamples | src/components/Header.tsx:14-45 | an empty score input gives 0; an emptied date gives none with a NaN score becoming 0; 3 completed of 2 shows -1 remaining |
| Header.TypedScoreExample | src/components/Header.tsx:14-20 | typing "800" stores 800, and an empty stored exam date becomes none |

## Left out

- Rendering, styling, the modal components without logic (`TaskModal`, `DeleteConfirmModal`, the toast and banner), timers, the weekday header row of the calendar and the `isOpen` guards are not modelled: they display state and decide nothing.
- Data persistence in the cloud database, authentication and the page components that orchestrate them are foreign asynchronous calls and are not modelled. The page passes `completionRate`, `totalTasks` and `completedTasks` to the engine. These can disagree, so the engine's contracts assume no relation between them.
- `calculateCategoryStats` is imported by the page but is not defined in `src/utils/statistics.ts`; it is not part of this model.
- JSON text in browser storage is not modelled. An entry that `JSON.parse` rejects is `Corrupt`. A stored JSON value that parses but is not an array of strings is not represented.
- The history manager's static methods over one global storage entry become an object whose field is that entry.
- The corpus text itself (length, Japanese characters, tone) is data, not logic. Only the ids and tags of the messages are reasoned about.
- The corpus's `MessageContext` and `EncouragementMessage` types are imported from the types module but are not declared in `src/types/index.ts`. They are reconstructed from the corpus and `getCurrentContext`.
- The `CompletionData` interface in `src/types/index.ts:22-26` (`studyTime`, numeric levels) is unused by the components. The model follows `Task.completionData` (`time`, `difficulty`, `focus`).
- Floating point is not modelled:
  - `Math.round`, `Math.ceil` and `toFixed(1)` are exact integer arithmetic on the rational quotient;
  - tie cases where the binary value of a decimal differs (such as `toFixed` of 0.15) are not reproduced;
  - `toFixed` yields integer tenths, not a float.
- Statistics.CalculateDaysLeft: `new Date(examDate)` is modelled only for the exact `YYYY-MM-DD` form of an existing day. Other strings JavaScript accepts, such as full timestamps, are treated as invalid dates (0 days).
- Statistics.RoundHalfUp: the percentage divides `completed * 100` by the total exactly. The float product `(c / n) * 100` of the source can land on the other side of a .5 tie.
- Calendar.CalendarView.NextMonth: a JavaScript time value is limited to 8.64e15 ms either side of 1970 (about year 275760). Beyond it the source's date becomes invalid and the heading reads "NaN月 NaN", while the model keeps counting months.
- Calendar.CalendarView.PrevMonth: the same limit applies going back (before about year -271821); the model keeps counting months there too.
- Calendar.GetTasksForDate: local time is taken to be UTC. In a time zone behind UTC, the source reads a key as the previous local day.
- Dates.ParseDateKey: the years 0 to 999 parse, but print back without padding (`String(year)`), so the round-trip lemmas require years from 1000 to 9999.
- TaskList.SortByDue: the source comparator returns NaN for an invalid due date, which JavaScript's sort treats as "equal", an inconsistent order. The model places such tasks after all dated ones, keeping input order among ties (SortByDueIsStable).
- TaskList.ListState.constructor: `today` is the UTC date captured once. It is given to the constructor instead of read from the clock.
- TaskList.GetCategoryName: the category tables are plain objects, so keys such as `toString` or `__proto__` would hit inherited properties. The model treats only the five declared keys as known. The identical `getCategoryName` of the edit dialog (`src/components/TaskEditModal.tsx:66-75`) is this same function.
- JsText.StringLess: JavaScript compares strings by UTF-16 code units, and the model compares code points. The two orders differ only for characters outside the Basic Multilingual Plane, which date keys never contain.
- JsText.StringToNumber: `Number(s)` is modelled for optionally signed decimal integers only. Decimal fractions, exponents, `Infinity` and hexadecimal, octal or binary literals are NaN in the model. `-0` is 0.
- JsText.ParseInt: integers are unbounded. The source's `-0` for "-0" is not modelled; it is falsy where it is used, as the model's 0 is. Nor is its loss of precision above 2^53 or its `Infinity` for very long digit strings: for such minutes `CompletionModal.CheckTime` accepts the exact integer, while the source records the rounded double (or `Infinity`).
- JsText.IntToString: exponent notation for magnitudes of 10^21 and above is not modelled.
- Encouragement.GetEncouragementMessage: the clock's hour and `Math.random()` are the parameters `hour` and `u`.
- TaskForm.FormState.Edit: the four `onChange` handlers are one method that sets all four fields. Changing one field passes the others unchanged.
