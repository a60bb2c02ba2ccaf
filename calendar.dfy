/**
 * The date arithmetic behind the repeat-interval options of the event form
 * (src/components/EventForm.tsx:21-28 and the values read at lines 77-83).
 *
 * The source obtains month lengths and weekdays from JavaScript's `Date`.
 * Here the calendar is the proleptic Gregorian one that `Date` implements,
 * counted in days from 0001-01-01: `DaysBeforeYear` is the closed-form count of
 * leap years, `DaysBeforeMonth` adds up month lengths, and `Weekday` is the day
 * count modulo 7. The lemmas tie the three together, so that the month length
 * agrees with what the `Date` constructor computes for "day 0 of the next month".
 */
module Calendar {

  /** A year, a 1-based month and a day of the month, as `getFullYear()`,
      `getMonth() + 1` and `getDate()` return them. */
  datatype CalendarDate = CalendarDate(year: int, month: int, day: int)

  predicate IsLeapYear(year: int)
  {
    year % 4 == 0 && (year % 100 != 0 || year % 400 == 0)
  }

  function YearLength(year: int): int
  {
    if IsLeapYear(year) then 366 else 365
  }

  /** The number of days of month `month` (1 = January) of `year`. */
  function LastDayOfMonth(year: int, month: int): (r: int)
    requires 1 <= month <= 12
    ensures 28 <= r <= 31
  {
    if month == 2 then (if IsLeapYear(year) then 29 else 28)
    else if month == 4 || month == 6 || month == 9 || month == 11 then 30
    else 31
  }

  /** A real calendar day: the month exists and the day lies within it. */
  predicate ValidDate(d: CalendarDate)
  {
    1 <= d.month <= 12 && 1 <= d.day <= LastDayOfMonth(d.year, d.month)
  }

  /** Days from 0001-01-01 to the first of January of `year` (negative before year 1). */
  function DaysBeforeYear(year: int): int
  {
    var p := year - 1;
    365 * p + p / 4 - p / 100 + p / 400
  }

  /** Days from the first of January of `year` to the first of `month`; month 13
      stands for the first of January of the following year. */
  function DaysBeforeMonth(year: int, month: int): int
    requires 1 <= month <= 13
    decreases month
  {
    if month == 1 then 0 else DaysBeforeMonth(year, month - 1) + LastDayOfMonth(year, month - 1)
  }

  /** The day count of day `day` of a month, 0 for 0001-01-01. Like the `MakeDay`
      step of the `Date` constructor, it accepts any integer day, counting from the
      first of the month (day 0 is the day before the first). */
  function DayNumber(year: int, month: int, day: int): int
    requires 1 <= month <= 12
  {
    DaysBeforeYear(year) + DaysBeforeMonth(year, month) + day - 1
  }

  /** `getDay()`: 0 is Sunday, 6 is Saturday; 0001-01-01 was a Monday. */
  function Weekday(year: int, month: int, day: int): (r: int)
    requires 1 <= month <= 12
    ensures 0 <= r < 7
  {
    (DayNumber(year, month, day) + 1) % 7
  }

  /** `getNthWeekdayOfMonth`: `Math.ceil(day / 7)`, the smallest integer not below day / 7. */
  function NthWeekdayOfMonth(day: int): (r: int)
    ensures 7 * (r - 1) < day <= 7 * r
  {
    (day + 6) / 7
  }

  /** The year the `Date(year, month, day)` constructor uses: years 0 to 99 are
      taken as 1900 to 1999. */
  function JsConstructorYear(year: int): int
  {
    if 0 <= year <= 99 then 1900 + year else year
  }

  /** The day count of `new Date(year, monthIndex, date)`: the 0-based month index
      overflows into the year, and `date` counts from the first of that month. */
  function JsMakeDay(year: int, monthIndex: int, date: int): int
  {
    var y := JsConstructorYear(year);
    DayNumber(y + monthIndex / 12, monthIndex % 12 + 1, 1) + date - 1
  }

  /** `getLastDayOfMonth(year, month)` as written: `new Date(year, month, 0).getDate()`
      with the 1-based `month` used as a 0-based index, which names the following
      month, whose day 0 is the last day of `month`. The constructed day is day `r`
      of `month` in the year the constructor uses, and `r` is a day of that month. */
  function GetLastDayOfMonthAsWritten(year: int, month: int): (r: int)
    requires 1 <= month <= 12
    ensures JsMakeDay(year, month, 0) == DayNumber(JsConstructorYear(year), month, r)
    ensures ValidDate(CalendarDate(JsConstructorYear(year), month, r))
  {
    var y := JsConstructorYear(year);
    assert JsMakeDay(year, month, 0) == DayNumber(y + month / 12, month % 12 + 1, 1) - 1;
    JsDayZeroIsMonthEnd(y, month);
    LastDayOfMonth(y, month)
  }

  /** Counts the days 1..n of a month that fall on weekday `w`. */
  function CountWeekdayUpTo(year: int, month: int, w: int, n: int): nat
    requires 1 <= month <= 12
    decreases n
  {
    if n <= 0 then 0
    else CountWeekdayUpTo(year, month, w, n - 1) + (if Weekday(year, month, n) == w then 1 else 0)
  }

  // ---------------------------------------------------------------------------
  // Lemmas

  /** The twelve month lengths add up to the length of the year. */
  lemma {:induction false} MonthsFillYear(year: int)
    ensures DaysBeforeMonth(year, 13) == YearLength(year)
  {
    assert DaysBeforeMonth(year, 1) == 0;
    assert DaysBeforeMonth(year, 2) == 31;
    assert DaysBeforeMonth(year, 3) == 31 + LastDayOfMonth(year, 2);
    assert DaysBeforeMonth(year, 4) == 62 + LastDayOfMonth(year, 2);
    assert DaysBeforeMonth(year, 5) == 92 + LastDayOfMonth(year, 2);
    assert DaysBeforeMonth(year, 6) == 123 + LastDayOfMonth(year, 2);
    assert DaysBeforeMonth(year, 7) == 153 + LastDayOfMonth(year, 2);
    assert DaysBeforeMonth(year, 8) == 184 + LastDayOfMonth(year, 2);
    assert DaysBeforeMonth(year, 9) == 215 + LastDayOfMonth(year, 2);
    assert DaysBeforeMonth(year, 10) == 245 + LastDayOfMonth(year, 2);
    assert DaysBeforeMonth(year, 11) == 276 + LastDayOfMonth(year, 2);
    assert DaysBeforeMonth(year, 12) == 306 + LastDayOfMonth(year, 2);
  }

  /** One step of a floor division by a positive constant. */
  lemma DivStep4(a: int)
    ensures a / 4 - (a - 1) / 4 == if a % 4 == 0 then 1 else 0
  {
  }

  lemma DivStep100(a: int)
    ensures a / 100 - (a - 1) / 100 == if a % 100 == 0 then 1 else 0
  {
  }

  lemma DivStep400(a: int)
    ensures a / 400 - (a - 1) / 400 == if a % 400 == 0 then 1 else 0
  {
  }

  /** Divisibility by 400 implies divisibility by 100, which implies divisibility by 4. */
  lemma DivisorChain(year: int)
    ensures year % 400 == 0 ==> year % 100 == 0
    ensures year % 100 == 0 ==> year % 4 == 0
  {
    if year % 400 == 0 {
      var q := year / 400;
      assert year == 100 * (4 * q);
    }
    if year % 100 == 0 {
      var q := year / 100;
      assert year == 4 * (25 * q);
    }
  }

  /** The closed-form leap-year count grows by exactly the length of each year. */
  lemma DaysBeforeYearStep(year: int)
    ensures DaysBeforeYear(year + 1) == DaysBeforeYear(year) + YearLength(year)
  {
    DivStep4(year);
    DivStep100(year);
    DivStep400(year);
    DivisorChain(year);
  }

  /** The day before the first of the next month is the last day of `month`. */
  lemma NextMonthStart(year: int, month: int)
    requires 1 <= month < 12
    ensures DayNumber(year, month + 1, 1) - 1 == DayNumber(year, month, LastDayOfMonth(year, month))
  {
  }

  /** The day before New Year's Day is 31 December of the previous year. */
  lemma NewYearStart(year: int)
    ensures DayNumber(year + 1, 1, 1) - 1 == DayNumber(year, 12, 31)
  {
    DaysBeforeYearStep(year);
    MonthsFillYear(year);
  }

  /** `new Date(year, month, 0)` with the 1-based `month` is the last day of `month`
      (the constructor year aside): for December the month index 12 overflows into
      January of the following year. */
  lemma JsDayZeroIsMonthEnd(year: int, month: int)
    requires 1 <= month <= 12
    ensures DayNumber(year + month / 12, month % 12 + 1, 1) - 1
            == DayNumber(year, month, LastDayOfMonth(year, month))
  {
    if month == 12 {
      NewYearStart(year);
    } else {
      assert month / 12 == 0 && month % 12 + 1 == month + 1;
      NextMonthStart(year, month);
    }
  }

  /** Within one month, two days share a weekday exactly when they differ by a
      multiple of seven. */
  lemma SameWeekdayInMonth(year: int, month: int, k: int, day: int)
    requires 1 <= month <= 12
    ensures Weekday(year, month, k) == Weekday(year, month, day) <==> k % 7 == day % 7
  {
    var b := DaysBeforeYear(year) + DaysBeforeMonth(year, month);
    assert DayNumber(year, month, k) + 1 == b + k;
    assert DayNumber(year, month, day) + 1 == b + day;
    ShiftKeepsCongruence(b, k, day);
  }

  /** Adding the same offset to two integers keeps them congruent modulo 7 or not. */
  lemma ShiftKeepsCongruence(b: int, x: int, y: int)
    ensures (b + x) % 7 == (b + y) % 7 <==> x % 7 == y % 7
  {
    CongruentIffDifference(b + x, b + y);
    CongruentIffDifference(x, y);
    assert (b + x) - (b + y) == x - y;
  }

  /** Two integers are congruent modulo 7 exactly when their difference is a multiple of 7. */
  lemma CongruentIffDifference(a: int, c: int)
    ensures a % 7 == c % 7 <==> (a - c) % 7 == 0
  {
    var qa, ra := a / 7, a % 7;
    var qc, rc := c / 7, c % 7;
    assert a - c == 7 * (qa - qc) + (ra - rc);
    if ra == rc {
      assert a - c == 7 * (qa - qc);
    } else {
      assert -7 < ra - rc < 7;
    }
  }

  /** The number of integers in 1..n congruent to `first` (in 1..7) modulo 7. */
  function ClosedCount(first: int, n: int): int
  {
    if n < first then 0 else (n - first) / 7 + 1
  }

  /** The first day of a month on the weekday of `day`. */
  function FirstOccurrence(day: int): (first: int)
    ensures 1 <= first <= 7 && first % 7 == day % 7
  {
    CongruentIffDifference((day - 1) % 7 + 1, day);
    assert (day - 1) % 7 + 1 - day == -7 * ((day - 1) / 7);
    (day - 1) % 7 + 1
  }

  /** Going from n - 1 to n, the closed count grows exactly when n is congruent to `first`. */
  lemma ClosedCountStep(first: int, n: int)
    requires 1 <= first <= 7 && n >= 1
    ensures ClosedCount(first, n) == ClosedCount(first, n - 1) + (if n % 7 == first % 7 then 1 else 0)
  {
    CongruentIffDifference(n, first);
    if n > first {
      assert (n - first) / 7 - (n - 1 - first) / 7 == if (n - first) % 7 == 0 then 1 else 0;
    } else if n < first {
      assert n % 7 == n;
    }
  }

  /** The closed form of `CountWeekdayUpTo`: every seventh day from the first
      occurrence on shares the weekday of `day`. */
  lemma {:induction false} CountWeekdayClosedForm(year: int, month: int, day: int, n: int)
    requires 1 <= month <= 12
    requires n >= 0
    ensures CountWeekdayUpTo(year, month, Weekday(year, month, day), n) == ClosedCount(FirstOccurrence(day), n)
  {
    if n > 0 {
      CountWeekdayClosedForm(year, month, day, n - 1);
      SameWeekdayInMonth(year, month, n, day);
      ClosedCountStep(FirstOccurrence(day), n);
    }
  }

  /** The meaning of `getNthWeekdayOfMonth`: the day is the n-th day of its month,
      counting from the first, that falls on its weekday. */
  lemma NthWeekdayCountsOccurrences(year: int, month: int, day: int)
    requires 1 <= month <= 12
    requires 1 <= day
    ensures CountWeekdayUpTo(year, month, Weekday(year, month, day), day) == NthWeekdayOfMonth(day)
  {
    CountWeekdayClosedForm(year, month, day, day);
    var first := FirstOccurrence(day);
    CongruentIffDifference(day, first);
    assert day == first + 7 * ((day - first) / 7);
  }

  /** For a day of a month, `Math.ceil(day / 7)` is between 1 and 5. */
  lemma NthWeekdayRange(day: int)
    requires 1 <= day <= 31
    ensures 1 <= NthWeekdayOfMonth(day) <= 5
  {
  }

  /** Month lengths by month: 31 and 30 as in the calendar, February 29 in leap years. */
  lemma MonthLengths(year: int, month: int)
    requires 1 <= month <= 12
    ensures month == 2 ==> LastDayOfMonth(year, month) == YearLength(year) - 337
    ensures month in {1, 3, 5, 7, 8, 10, 12} ==> LastDayOfMonth(year, month) == 31
    ensures month in {4, 6, 9, 11} ==> LastDayOfMonth(year, month) == 30
  {
  }

  /** Years 1 to 99 and their 1900s counterparts agree on leap years, so the
      constructor's two-digit-year rule changes the result only for February of year 0. */
  lemma AsWrittenAgreesOutsideYearZero(year: int, month: int)
    requires 1 <= month <= 12
    requires year != 0 || month != 2
    ensures GetLastDayOfMonthAsWritten(year, month) == LastDayOfMonth(year, month)
  {
    if 1 <= year <= 99 && month == 2 {
      assert (1900 + year) % 4 == year % 4;
      assert (1900 + year) % 100 == year;
    }
  }

  /** The discrepancy: February of year 0 (1 BC, a leap year) has 29 days, but the
      source computes 28, because `new Date(0, 2, 0)` is 28 February 1900. */
  lemma AsWrittenYearZeroFebruary()
    ensures GetLastDayOfMonthAsWritten(0, 2) == 28
    ensures LastDayOfMonth(0, 2) == 29
  {
  }

  /** The worked examples beside the form: 2025-02-28 is the fourth Friday and the
      last day of its month, 2025-02-20 the third Thursday. */
  lemma WorkedExampleWeekdays()
    ensures Weekday(2025, 2, 28) == 5 && NthWeekdayOfMonth(28) == 4 && LastDayOfMonth(2025, 2) == 28
    ensures Weekday(2025, 2, 20) == 4 && NthWeekdayOfMonth(20) == 3
  {
    assert DaysBeforeMonth(2025, 2) == 31;
    assert DaysBeforeYear(2025) == 739251;
  }
}
