/**
 * `parsePtBrDate` (src/hooks/useValidation.ts): a strict dd/mm/yyyy match, then
 * `new Date(yyyy, mm - 1, dd)` and a check that the Date reports back the same
 * year, month and day. The Date constructor is modelled by calendar arithmetic:
 * years 0..99 become 1900..1999, a month index outside 0..11 carries into the
 * year, and a day outside the month carries into the neighbouring months.
 */
module Dates {
  import opened Wrappers
  import opened Text

  /** What `getFullYear()`, `getMonth()` and `getDate()` report; `month` is 0-based as in JavaScript. */
  datatype JsDate = JsDate(year: int, month: int, date: int)

  /** Gregorian leap years. */
  predicate IsLeapYear(year: int) {
    year % 4 == 0 && (year % 100 != 0 || year % 400 == 0)
  }

  /** Length of a calendar month (1 = January). */
  function DaysInMonth(year: int, month: int): (n: int)
    requires 1 <= month <= 12
    ensures 28 <= n <= 31
    ensures n == 29 <==> month == 2 && IsLeapYear(year)
  {
    if month == 2 then (if IsLeapYear(year) then 29 else 28)
    else if month == 4 || month == 6 || month == 9 || month == 11 then 30
    else 31
  }

  /** Position of a (year, 0-based month) on one line of months. */
  function MonthIndex(year: int, month: int): int {
    12 * year + month
  }

  /** MakeFullYear of the Date constructor: two-digit years mean 1900..1999. */
  function FullYear(year: int): int {
    if 0 <= year <= 99 then 1900 + year else year
  }

  /**
   * Day carry of the Date constructor: a day before the 1st moves into the
   * previous month, a day past the end of the month into the next, until it fits.
   * The result is always a real calendar day; it stays in the given month exactly
   * when the day already fitted, and moves backwards or forwards otherwise.
   */
  function CarryDays(year: int, month: int, day: int): (r: JsDate)
    requires 0 <= month < 12
    ensures 0 <= r.month < 12 && 1 <= r.date <= DaysInMonth(r.year, r.month + 1)
    ensures 1 <= day <= DaysInMonth(year, month + 1) ==> r == JsDate(year, month, day)
    ensures day < 1 ==> MonthIndex(r.year, r.month) < MonthIndex(year, month)
    ensures day == 0 ==> MonthIndex(r.year, r.month) == MonthIndex(year, month) - 1
    ensures day > DaysInMonth(year, month + 1) ==> MonthIndex(r.year, r.month) > MonthIndex(year, month)
    decreases if day < 1 then 1 - day else 0, day
  {
    var length := DaysInMonth(year, month + 1);
    if day < 1 then
      if month == 0 then CarryDays(year - 1, 11, day + DaysInMonth(year - 1, 12))
      else CarryDays(year, month - 1, day + DaysInMonth(year, month))
    else if day > length then
      if month == 11 then CarryDays(year + 1, 0, day - length)
      else CarryDays(year, month + 1, day - length)
    else
      JsDate(year, month, day)
  }

  /** `new Date(year, monthIndex, day)` read back through its local-time getters. */
  function NewDate(year: int, monthIndex: int, day: int): JsDate {
    CarryDays(FullYear(year) + monthIndex / 12, monthIndex % 12, day)
  }

  /** `^(\d{2})\/(\d{2})\/(\d{4})$`. */
  predicate MatchesDatePattern(s: string) {
    && |s| == 10
    && IsDigit(s[0]) && IsDigit(s[1]) && s[2] == '/'
    && IsDigit(s[3]) && IsDigit(s[4]) && s[5] == '/'
    && IsDigit(s[6]) && IsDigit(s[7]) && IsDigit(s[8]) && IsDigit(s[9])
  }

  function DayField(s: string): nat
    requires MatchesDatePattern(s)
  {
    DecimalValue(s[0..2])
  }

  function MonthField(s: string): nat
    requires MatchesDatePattern(s)
  {
    DecimalValue(s[3..5])
  }

  function YearField(s: string): nat
    requires MatchesDatePattern(s)
  {
    DecimalValue(s[6..10])
  }

  /** `parsePtBrDate`: the Date for a dd/mm/yyyy string, or None (`null`). */
  function ParsePtBrDate(s: string): Option<JsDate> {
    if !MatchesDatePattern(s) then None
    else
      var dd: int, mm: int, yyyy: int := DayField(s), MonthField(s), YearField(s);
      var d := NewDate(yyyy, mm - 1, dd);
      if d.year != yyyy || d.month != mm - 1 || d.date != dd then None else Some(d)
  }

  /** A day that exists in the Gregorian calendar and that the Date constructor keeps as written. */
  predicate IsCalendarDate(year: int, month: int, day: int) {
    year >= 100 && 1 <= month <= 12 && 1 <= day <= DaysInMonth(year, month)
  }

  /**
   * The round-trip check accepts exactly the real calendar days from year 100 on,
   * and then reports the digits as written: day 0, month 00 or 13+, 31/04,
   * 29/02 of a common year and every year below 0100 are refused.
   */
  lemma ParsePtBrDateAcceptsCalendarDates(s: string)
    ensures ParsePtBrDate(s).Some? <==>
      MatchesDatePattern(s) && IsCalendarDate(YearField(s), MonthField(s), DayField(s))
    ensures ParsePtBrDate(s).Some? ==>
      ParsePtBrDate(s).value == JsDate(YearField(s), MonthField(s) - 1, DayField(s))
  {
    if MatchesDatePattern(s) {
      var dd: int, mm: int, yyyy: int := DayField(s), MonthField(s), YearField(s);
      var d := NewDate(yyyy, mm - 1, dd);
      var y, m := FullYear(yyyy) + (mm - 1) / 12, (mm - 1) % 12;
      assert d == CarryDays(y, m, dd);
      if yyyy <= 99 {
        // the year moved to 1900 + yyyy and no carry reaches back below 1898
        assert MonthIndex(d.year, d.month) >= MonthIndex(y, m) - 1;
        assert d.year != yyyy;
      } else if mm < 1 || mm > 12 {
        assert d.month != mm - 1;
      } else {
        assert y == yyyy && m == mm - 1;
        if !(1 <= dd <= DaysInMonth(yyyy, mm)) {
          assert MonthIndex(d.year, d.month) != MonthIndex(yyyy, mm - 1);
        }
      }
    }
  }

  /** A dd/mm/yyyy string naming a real calendar day from year 100 on. */
  predicate IsCalendarDateString(s: string) {
    MatchesDatePattern(s) && IsCalendarDate(YearField(s), MonthField(s), DayField(s))
  }

  /** `dStart > dEnd` on two parsed Dates: their time values compare as (year, month, day). */
  predicate IsAfter(a: JsDate, b: JsDate) {
    || a.year > b.year
    || (a.year == b.year && a.month > b.month)
    || (a.year == b.year && a.month == b.month && a.date > b.date)
  }

  // ----- worked examples -----

  /** The three fields of a dd/mm/yyyy string, digit by digit. */
  lemma DateFieldsOf(s: string)
    requires MatchesDatePattern(s)
    ensures DayField(s) == 10 * DigitValue(s[0]) + DigitValue(s[1])
    ensures MonthField(s) == 10 * DigitValue(s[3]) + DigitValue(s[4])
    ensures YearField(s) == 1000 * DigitValue(s[6]) + 100 * DigitValue(s[7]) + 10 * DigitValue(s[8]) + DigitValue(s[9])
  {
    DecimalValueOfTwo(s[0..2]);
    DecimalValueOfTwo(s[3..5]);
    DecimalValueOfFour(s[6..10]);
  }

  /** 30 April is the last day of April: "31/04/2024" is refused. */
  lemma ParseRefusesThirtyFirstOfApril(s: string)
    requires s == "31/04/2024"
    ensures ParsePtBrDate(s).None?
  {
    assert MatchesDatePattern(s);
    DateFieldsOf(s);
    assert DayField(s) == 31 && MonthField(s) == 4;
    ParsePtBrDateAcceptsCalendarDates(s);
  }

  /** 2023 is a common year: "29/02/2023" is refused. */
  lemma ParseRefusesLeapDayOfCommonYear(s: string)
    requires s == "29/02/2023"
    ensures ParsePtBrDate(s).None?
  {
    assert MatchesDatePattern(s);
    DateFieldsOf(s);
    assert DayField(s) == 29 && MonthField(s) == 2 && YearField(s) == 2023;
    assert !IsLeapYear(2023);
    ParsePtBrDateAcceptsCalendarDates(s);
  }

  /** 2024 is a leap year: "29/02/2024" is 29 February 2024 (month index 1). */
  lemma ParseAcceptsLeapDay(s: string)
    requires s == "29/02/2024"
    ensures ParsePtBrDate(s) == Some(JsDate(2024, 1, 29))
  {
    assert MatchesDatePattern(s);
    DateFieldsOf(s);
    assert DayField(s) == 29 && MonthField(s) == 2 && YearField(s) == 2024;
    assert IsCalendarDate(2024, 2, 29);
    ParsePtBrDateAcceptsCalendarDates(s);
  }

  /** A two-digit year is read by the Date constructor as 19xx, so "01/01/0099" is refused. */
  lemma ParseRefusesYearBelowHundred(s: string)
    requires s == "01/01/0099"
    ensures ParsePtBrDate(s).None?
  {
    ParsePtBrDateAcceptsCalendarDates(s);
    DecimalValueOfFour(s[6..10]);
    assert YearField(s) == 99;
  }
}
