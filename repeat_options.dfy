/**
 * The repeat-interval options the event form offers for the chosen date and
 * repeat type (src/components/EventForm.tsx:74-126): none for a missing date or a
 * daily, weekly or non-repeating rule; for a monthly or yearly rule "same date"
 * and "same n-th weekday", preceded by "last day of the month" when the date is
 * the last day of its month.
 *
 * The date is taken as already parsed (None for the empty date field). Labels keep
 * the values they interpolate (month, day, n, weekday name) instead of the
 * formatted Korean text.
 */
module RepeatOptions {
  import opened Wrappers
  import opened Types
  import opened Calendar

  /** The weekday names indexed by `getDay()` (Sunday first). */
  const WeekdayLabels: seq<string> := ["일", "월", "화", "수", "목", "금", "토"]

  datatype OptionLabel =
    | LastDayLabel(month: int)
    | SameDateLabel(month: int, day: int)
    | NthWeekdayLabel(month: int, nth: int, weekdayLabel: string)

  datatype RepeatOption = RepeatOption(caption: OptionLabel, value: RepeatIntervalType)

  /** The option values, in order. */
  function Values(options: seq<RepeatOption>): (r: seq<RepeatIntervalType>)
    ensures |r| == |options|
    ensures forall i :: 0 <= i < |options| ==> r[i] == options[i].value
  {
    if options == [] then [] else [options[0].value] + Values(options[1..])
  }

  /** The options of a monthly or a yearly rule anchored at `d`, given the length
      `lastDay` of its month. The source writes this list out twice, once per rule,
      with identical entries. */
  function PeriodicOptions(d: CalendarDate, lastDay: int): (r: seq<RepeatOption>)
    requires ValidDate(d)
    ensures |r| == (if d.day == lastDay then 3 else 2)
  {
    var weekday := Weekday(d.year, d.month, d.day);
    var sameDate := RepeatOption(SameDateLabel(d.month, d.day), SameDate);
    var nthWeekday := RepeatOption(
      NthWeekdayLabel(d.month, NthWeekdayOfMonth(d.day), WeekdayLabels[weekday]), SameMonthNthWeekday);
    if d.day == lastDay then [RepeatOption(LastDayLabel(d.month), SameMonthLastDay), sameDate, nthWeekday]
    else [sameDate, nthWeekday]
  }

  /** `repeatOptions` with the month length of the Gregorian calendar. */
  function OptionsFor(date: Option<CalendarDate>, repeatType: RepeatType): (r: seq<RepeatOption>)
    requires date.Some? ==> ValidDate(date.value)
    ensures |r| <= 3
    ensures r != [] ==> date.Some? && (repeatType == Monthly || repeatType == Yearly)
  {
    if date.None? || repeatType == Daily || repeatType == Weekly then []
    else if repeatType == Monthly || repeatType == Yearly then
      PeriodicOptions(date.value, LastDayOfMonth(date.value.year, date.value.month))
    else []
  }

  /** `repeatOptions` as written, with `getLastDayOfMonth`'s `Date`-constructor result. */
  function OptionsForAsWritten(date: Option<CalendarDate>, repeatType: RepeatType): (r: seq<RepeatOption>)
    requires date.Some? ==> ValidDate(date.value)
    ensures |r| <= 3
    ensures r != [] ==> date.Some? && (repeatType == Monthly || repeatType == Yearly)
  {
    if date.None? || repeatType == Daily || repeatType == Weekly then []
    else if repeatType == Monthly || repeatType == Yearly then
      PeriodicOptions(date.value, GetLastDayOfMonthAsWritten(date.value.year, date.value.month))
    else []
  }

  // ---------------------------------------------------------------------------
  // Lemmas

  /** No options without a date, and none for 'none', 'daily' and 'weekly';
      some options for 'monthly' and 'yearly' whenever a date is set. */
  lemma OptionsEmptyIff(date: Option<CalendarDate>, repeatType: RepeatType)
    requires date.Some? ==> ValidDate(date.value)
    ensures OptionsFor(date, repeatType) == [] <==>
            date.None? || repeatType == NoRepeat || repeatType == Daily || repeatType == Weekly
  {
  }

  /** The option values of a monthly rule: last day (only on the last day of the
      month), same date, same n-th weekday. */
  lemma MonthlyValues(d: CalendarDate)
    requires ValidDate(d)
    ensures Values(OptionsFor(Some(d), Monthly)) ==
            if d.day == LastDayOfMonth(d.year, d.month)
            then [SameMonthLastDay, SameDate, SameMonthNthWeekday]
            else [SameDate, SameMonthNthWeekday]
  {
    var r := OptionsFor(Some(d), Monthly);
    var v := Values(r);
    if d.day == LastDayOfMonth(d.year, d.month) {
      assert v == [v[0], v[1], v[2]];
    } else {
      assert v == [v[0], v[1]];
    }
  }

  /** A yearly rule is offered exactly the options of a monthly one, labels included. */
  lemma YearlyMatchesMonthly(date: Option<CalendarDate>)
    requires date.Some? ==> ValidDate(date.value)
    ensures OptionsFor(date, Yearly) == OptionsFor(date, Monthly)
  {
  }

  /** "Last day of the month" is offered exactly when the next day falls in another
      month; "same date" and "same n-th weekday" are always offered. */
  lemma OfferedIntervals(d: CalendarDate, repeatType: RepeatType)
    requires ValidDate(d)
    requires repeatType == Monthly || repeatType == Yearly
    ensures SameMonthLastDay in Values(OptionsFor(Some(d), repeatType)) <==>
            !ValidDate(d.(day := d.day + 1))
    ensures SameDate in Values(OptionsFor(Some(d), repeatType))
    ensures SameMonthNthWeekday in Values(OptionsFor(Some(d), repeatType))
  {
    var v := Values(OptionsFor(Some(d), repeatType));
    if d.day == LastDayOfMonth(d.year, d.month) {
      assert v[0] == SameMonthLastDay && v[1] == SameDate && v[2] == SameMonthNthWeekday;
    } else {
      assert v[0] == SameDate && v[1] == SameMonthNthWeekday;
      assert SameMonthLastDay !in v;
    }
  }

  /** The n-th-weekday label names an n between 1 and 5 and the date's weekday. */
  lemma NthWeekdayLabelShape(d: CalendarDate, repeatType: RepeatType)
    requires ValidDate(d)
    requires repeatType == Monthly || repeatType == Yearly
    ensures var r := OptionsFor(Some(d), repeatType);
            var caption := r[|r| - 1].caption;
            caption.NthWeekdayLabel? && 1 <= caption.nth <= 5 &&
            caption.weekdayLabel == WeekdayLabels[Weekday(d.year, d.month, d.day)]
  {
    NthWeekdayRange(d.day);
  }

  /** The worked examples beside the form: for 2025-02-28 three options, the third
      "4th Friday"; for 2025-02-20 two options, "20th" and "3rd Thursday". */
  lemma WorkedExamples(repeatType: RepeatType)
    requires repeatType == Monthly || repeatType == Yearly
    ensures OptionsFor(Some(CalendarDate(2025, 2, 28)), repeatType) ==
            [ RepeatOption(LastDayLabel(2), SameMonthLastDay),
              RepeatOption(SameDateLabel(2, 28), SameDate),
              RepeatOption(NthWeekdayLabel(2, 4, "금"), SameMonthNthWeekday) ]
    ensures OptionsFor(Some(CalendarDate(2025, 2, 20)), repeatType) ==
            [ RepeatOption(SameDateLabel(2, 20), SameDate),
              RepeatOption(NthWeekdayLabel(2, 3, "목"), SameMonthNthWeekday) ]
  {
    WorkedExampleWeekdays();
  }

  /** The discrepancy: on 29 February of year 0, the last day of its month, the
      source does not offer "last day of the month". */
  lemma AsWrittenMissesYearZeroLastDay()
    ensures ValidDate(CalendarDate(0, 2, 29)) && !ValidDate(CalendarDate(0, 2, 30))
    ensures Values(OptionsForAsWritten(Some(CalendarDate(0, 2, 29)), Monthly)) == [SameDate, SameMonthNthWeekday]
    ensures SameMonthLastDay in Values(OptionsFor(Some(CalendarDate(0, 2, 29)), Monthly))
  {
    AsWrittenYearZeroFebruary();
    var v := Values(OptionsForAsWritten(Some(CalendarDate(0, 2, 29)), Monthly));
    assert v == [v[0], v[1]];
    OfferedIntervals(CalendarDate(0, 2, 29), Monthly);
  }

  /** The other half of the discrepancy: on 28 February of year 0, which is not the
      last day of its month, the source offers "last day of the month". */
  lemma AsWrittenOffersYearZeroLastDayEarly()
    ensures ValidDate(CalendarDate(0, 2, 28)) && ValidDate(CalendarDate(0, 2, 29))
    ensures SameMonthLastDay in Values(OptionsForAsWritten(Some(CalendarDate(0, 2, 28)), Monthly))
    ensures SameMonthLastDay !in Values(OptionsFor(Some(CalendarDate(0, 2, 28)), Monthly))
  {
    AsWrittenYearZeroFebruary();
    var v := Values(OptionsForAsWritten(Some(CalendarDate(0, 2, 28)), Monthly));
    assert v[0] == SameMonthLastDay;
    OfferedIntervals(CalendarDate(0, 2, 28), Monthly);
  }

  /** Outside February of year 0 the source's options are the corrected ones. */
  lemma AsWrittenAgreesElsewhere(date: Option<CalendarDate>, repeatType: RepeatType)
    requires date.Some? ==> ValidDate(date.value)
    requires date.Some? ==> date.value.year != 0 || date.value.month != 2
    ensures OptionsForAsWritten(date, repeatType) == OptionsFor(date, repeatType)
  {
    if date.Some? {
      AsWrittenAgreesOutsideYearZero(date.value.year, date.value.month);
    }
  }
}
