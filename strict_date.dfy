// The strict date validator of the fare watcher: a string is accepted when it
// has the shape YYYY-MM-DD, a four-digit year of at least 1000, a month in
// 1..12, and survives a round trip through JavaScript's `Date`.

module StrictDate {

  /** `\d` in a JavaScript regular expression without the `u` flag. */
  predicate IsAsciiDigit(c: char) {
    '0' <= c <= '9'
  }

  predicate AllDigits(s: string) {
    forall i :: 0 <= i < |s| ==> IsAsciiDigit(s[i])
  }

  function Pow10(n: nat): nat {
    if n == 0 then 1 else 10 * Pow10(n - 1)
  }

  /**
    * `parseInt(s, 10)` of a string of ASCII digits; leading zeros are allowed.
    * The empty string (0 here, NaN for `parseInt`) is never parsed by the
    * validator, which only reads fields of four and two digits.
    */
  function DecimalValue(s: string): (v: nat)
    requires AllDigits(s)
    ensures v < Pow10(|s|)
  {
    if s == [] then 0
    else DecimalValue(s[..|s| - 1]) * 10 + DigitValue(s[|s| - 1])
  }

  /** The test `/^\d{4}-\d{2}-\d{2}$/`: exactly ten characters, dashes at 4 and 7. */
  predicate WellShaped(s: string) {
    |s| == 10 && s[4] == '-' && s[7] == '-' &&
    AllDigits(s[..4]) && AllDigits(s[5..7]) && AllDigits(s[8..])
  }

  // The three fields `dateString.split('-')` yields for a well-shaped string.

  function YearField(s: string): (y: nat)
    requires WellShaped(s)
    ensures y <= 9999
  {
    assert Pow10(4) == 10000;
    DecimalValue(s[..4])
  }

  function MonthField(s: string): (m: nat)
    requires WellShaped(s)
    ensures m <= 99
  {
    assert Pow10(2) == 100;
    DecimalValue(s[5..7])
  }

  function DayField(s: string): (d: nat)
    requires WellShaped(s)
    ensures d <= 99
  {
    assert Pow10(2) == 100;
    DecimalValue(s[8..])
  }

  function DigitValue(c: char): int {
    (c as int) - ('0' as int)
  }

  lemma DecimalValueOfTwo(s: string)
    requires |s| == 2 && AllDigits(s)
    ensures DecimalValue(s) == 10 * DigitValue(s[0]) + DigitValue(s[1])
  {
    assert s[..1][..0] == [];
  }

  lemma DecimalValueOfFour(s: string)
    requires |s| == 4 && AllDigits(s)
    ensures DecimalValue(s) ==
      1000 * DigitValue(s[0]) + 100 * DigitValue(s[1]) + 10 * DigitValue(s[2]) + DigitValue(s[3])
  {
    assert s[..3][..2] == s[..2];
    DecimalValueOfTwo(s[..2]);
  }

  // ---------------------------------------------------------------------------
  // The proleptic Gregorian calendar that JavaScript's `Date` uses.

  predicate IsLeapYear(y: int) {
    y % 4 == 0 && (y % 100 != 0 || y % 400 == 0)
  }

  function DaysInMonth(y: int, m: int): int
    requires 1 <= m <= 12
  {
    if m == 2 then (if IsLeapYear(y) then 29 else 28)
    else if m == 4 || m == 6 || m == 9 || m == 11 then 30
    else 31
  }

  /** Days of year `y` that lie before the first of month `m`. */
  function DaysBeforeMonth(y: int, m: int): int
    requires 1 <= m <= 12
  {
    [0, 31, 59, 90, 120, 151, 181, 212, 243, 273, 304, 334][m - 1]
    + (if m > 2 && IsLeapYear(y) then 1 else 0)
  }

  /** Days before the first of January of year `y`, counted from 0001-01-01. */
  function DaysBeforeYear(y: int): int {
    365 * (y - 1) + (y - 1) / 4 - (y - 1) / 100 + (y - 1) / 400
  }

  datatype CalendarDate = CalendarDate(year: int, month: int, day: int)

  /** A date that names an actual day: month 1..12, day within that month. */
  predicate IsRealDate(d: CalendarDate) {
    1 <= d.month <= 12 && 1 <= d.day <= DaysInMonth(d.year, d.month)
  }

  /**
    * The day number of year/month/day, 0001-01-01 being day 1. It is defined
    * for any day of the month, as `Date`'s MakeDay is: day `d` of month `m`
    * lies `d - 1` days after the first of that month.
    */
  function DayNumber(d: CalendarDate): int
    requires 1 <= d.month <= 12
  {
    DaysBeforeYear(d.year) + DaysBeforeMonth(d.year, d.month) + d.day
  }

  // How a floor quotient steps from y - 1 to y, for the three divisors of the leap rule.

  lemma StepBy4(y: int)
    ensures y / 4 - (y - 1) / 4 == if y % 4 == 0 then 1 else 0
  {
    var q, r := (y - 1) / 4, (y - 1) % 4;
    assert y == 4 * q + r + 1;
  }

  lemma StepBy100(y: int)
    ensures y / 100 - (y - 1) / 100 == if y % 100 == 0 then 1 else 0
  {
    var q, r := (y - 1) / 100, (y - 1) % 100;
    assert y == 100 * q + r + 1;
  }

  lemma StepBy400(y: int)
    ensures y / 400 - (y - 1) / 400 == if y % 400 == 0 then 1 else 0
  {
    var q, r := (y - 1) / 400, (y - 1) % 400;
    assert y == 400 * q + r + 1;
  }

  lemma MultipleOf100(y: int, t: int)
    requires y == 100 * t
    ensures y % 100 == 0
  {
  }

  lemma MultipleOf4(y: int, t: int)
    requires y == 4 * t
    ensures y % 4 == 0
  {
  }

  /** The leap rule's divisors nest: 400 | y implies 100 | y, which implies 4 | y. */
  lemma DivisorsOfLeapRule(y: int)
    ensures y % 400 == 0 ==> y % 100 == 0
    ensures y % 100 == 0 ==> y % 4 == 0
  {
    if y % 400 == 0 {
      var q := y / 400;
      assert y == 400 * q;
      MultipleOf100(y, 4 * q);
    }
    if y % 100 == 0 {
      var q := y / 100;
      assert y == 100 * q;
      MultipleOf4(y, 25 * q);
    }
  }

  /** A year has 366 days exactly when it is a leap year, 365 otherwise. */
  lemma YearLength(y: int)
    ensures DaysBeforeYear(y + 1) == DaysBeforeYear(y) + 365 + (if IsLeapYear(y) then 1 else 0)
  {
    StepBy4(y);
    StepBy100(y);
    StepBy400(y);
    DivisorsOfLeapRule(y);
  }

  /** The month after month `m` of year `y`. */
  function NextMonth(y: int, m: int): (int, int)
    requires 1 <= m <= 12
  {
    if m == 12 then (y + 1, 1) else (y, m + 1)
  }

  /** The month before month `m` of year `y`. */
  function PreviousMonth(y: int, m: int): (int, int)
    requires 1 <= m <= 12
  {
    if m == 1 then (y - 1, 12) else (y, m - 1)
  }

  /** Counting day `d` of a month from the first of the next month gives the same day number. */
  lemma NextMonthDayNumber(y: int, m: int, d: int)
    requires 1 <= m <= 12
    ensures var (ny, nm) := NextMonth(y, m);
      DayNumber(CalendarDate(ny, nm, d - DaysInMonth(y, m))) == DayNumber(CalendarDate(y, m, d))
  {
    if m == 12 {
      YearLength(y);
    }
  }

  /**
    * What `new Date(y, m - 1, d)` reads back through `getFullYear()`,
    * `getMonth() + 1` and `getDate()`: a day outside the month rolls over
    * into the neighbouring months (and years). The result is the real date
    * with the same day number.
    */
  function DateFromFields(y: int, m: int, d: int): (r: CalendarDate)
    requires 1 <= m <= 12
    ensures IsRealDate(r)
    ensures DayNumber(r) == DayNumber(CalendarDate(y, m, d))
    decreases if d < 1 then 1 - d else 0, if d > 0 then d else 0
  {
    if d < 1 then
      var (py, pm) := PreviousMonth(y, m);
      NextMonthDayNumber(py, pm, d + DaysInMonth(py, pm));
      DateFromFields(py, pm, d + DaysInMonth(py, pm))
    else if d > DaysInMonth(y, m) then
      var (ny, nm) := NextMonth(y, m);
      NextMonthDayNumber(y, m, d);
      DateFromFields(ny, nm, d - DaysInMonth(y, m))
    else
      CalendarDate(y, m, d)
  }

  /** Every real date falls inside its own year's span of day numbers. */
  lemma DayNumberWithinYear(d: CalendarDate)
    requires IsRealDate(d)
    ensures DaysBeforeYear(d.year) < DayNumber(d) <= DaysBeforeYear(d.year + 1)
  {
    YearLength(d.year);
  }

  lemma {:induction false} DaysBeforeYearMonotone(a: int, b: int)
    requires a <= b
    ensures DaysBeforeYear(a) <= DaysBeforeYear(b)
    decreases b - a
  {
    if a < b {
      YearLength(a);
      DaysBeforeYearMonotone(a + 1, b);
    }
  }

  /** Within one year, a later month starts after every day of an earlier one. */
  lemma MonthsInOrder(y: int, m1: int, m2: int)
    requires 1 <= m1 < m2 <= 12
    ensures DaysBeforeMonth(y, m1) + DaysInMonth(y, m1) <= DaysBeforeMonth(y, m2)
  {
  }

  /**
    * Distinct real dates have distinct day numbers, so DateFromFields is the
    * only answer the `Date` round trip can give.
    */
  lemma {:induction false} DayNumberInjective(a: CalendarDate, b: CalendarDate)
    requires IsRealDate(a) && IsRealDate(b)
    requires DayNumber(a) == DayNumber(b)
    ensures a == b
  {
    DayNumberWithinYear(a);
    DayNumberWithinYear(b);
    if a.year < b.year {
      DaysBeforeYearMonotone(a.year + 1, b.year);
    } else if b.year < a.year {
      DaysBeforeYearMonotone(b.year + 1, a.year);
    } else if a.month < b.month {
      MonthsInOrder(a.year, a.month, b.month);
    } else if b.month < a.month {
      MonthsInOrder(a.year, b.month, a.month);
    }
  }

  /** The round trip returns its input exactly when the day exists in that month. */
  lemma RoundTripKeepsExactlyRealDates(y: int, m: int, d: int)
    requires 1 <= m <= 12
    ensures DateFromFields(y, m, d) == CalendarDate(y, m, d) <==> 1 <= d <= DaysInMonth(y, m)
  {
  }

  // ---------------------------------------------------------------------------

  /**
    * `isValidStrictDate`: the shape test, the year and month range test, then
    * the `Date` round trip (months are 1-based here; the source compares
    * `getMonth()` with `month - 1`, which is the same test).
    */
  function IsValidStrictDate(s: string): (ok: bool)
    ensures ok ==> |s| == 10 && WellShaped(s)
  {
    if !WellShaped(s) then false
    else
      var year, month, day := YearField(s), MonthField(s), DayField(s);
      if year < 1000 || year > 9999 || month < 1 || month > 12 then false
      else DateFromFields(year, month, day) == CalendarDate(year, month, day)
  }

  /** The whole meaning of the validator, field by field. */
  lemma StrictDateMeaning(s: string)
    ensures IsValidStrictDate(s) <==>
      WellShaped(s) &&
      1000 <= YearField(s) && 1 <= MonthField(s) <= 12 &&
      1 <= DayField(s) <= DaysInMonth(YearField(s), MonthField(s))
  {
    if WellShaped(s) && 1 <= MonthField(s) <= 12 {
      RoundTripKeepsExactlyRealDates(YearField(s), MonthField(s), DayField(s));
    }
  }

  /** A well-shaped string whose year or month is out of range is refused. */
  lemma OutOfRangeRejected(s: string)
    requires WellShaped(s)
    requires YearField(s) < 1000 || MonthField(s) < 1 || MonthField(s) > 12
    ensures !IsValidStrictDate(s)
  {
  }

  /** The three fields of a well-shaped string, digit by digit. */
  lemma FieldDigits(s: string)
    requires WellShaped(s)
    ensures YearField(s) ==
      1000 * DigitValue(s[0]) + 100 * DigitValue(s[1]) + 10 * DigitValue(s[2]) + DigitValue(s[3])
    ensures MonthField(s) == 10 * DigitValue(s[5]) + DigitValue(s[6])
    ensures DayField(s) == 10 * DigitValue(s[8]) + DigitValue(s[9])
  {
    DecimalValueOfFour(s[..4]);
    DecimalValueOfTwo(s[5..7]);
    DecimalValueOfTwo(s[8..]);
  }

  /** A leap day is accepted in a leap year. */
  lemma LeapDayAccepted()
    ensures IsValidStrictDate("2024-02-29")
  {
    var s := "2024-02-29";
    assert WellShaped(s);
    FieldDigits(s);
    assert YearField(s) == 2024 && MonthField(s) == 2 && DayField(s) == 29;
    assert DaysInMonth(2024, 2) == 29;
    StrictDateMeaning(s);
  }

  /** A leap day is refused in a common year. */
  lemma LeapDayRefusedInCommonYear()
    ensures !IsValidStrictDate("2025-02-29")
  {
    var s := "2025-02-29";
    assert WellShaped(s);
    FieldDigits(s);
    assert YearField(s) == 2025 && MonthField(s) == 2 && DayField(s) == 29;
    assert DaysInMonth(2025, 2) == 28;
    StrictDateMeaning(s);
  }

  /** Day 31 of a 30-day month and day 00 are refused; the default date is accepted. */
  lemma DayRangeExamples()
    ensures IsValidStrictDate("2025-04-07")
    ensures !IsValidStrictDate("2025-04-31")
    ensures !IsValidStrictDate("2025-04-00")
  {
    assert WellShaped("2025-04-07");
    FieldDigits("2025-04-07");
    StrictDateMeaning("2025-04-07");
    assert WellShaped("2025-04-31");
    FieldDigits("2025-04-31");
    StrictDateMeaning("2025-04-31");
    assert WellShaped("2025-04-00");
    FieldDigits("2025-04-00");
  }

  /** A three-digit year, month 13 and a wrongly shaped string are refused. */
  lemma RangeAndShapeExamples()
    ensures !IsValidStrictDate("0999-01-01")
    ensures !IsValidStrictDate("2025-13-01")
    ensures !IsValidStrictDate("2025-4-07")
    ensures !IsValidStrictDate("2025-04-07 ")
  {
    assert WellShaped("0999-01-01");
    FieldDigits("0999-01-01");
    assert WellShaped("2025-13-01");
    FieldDigits("2025-13-01");
  }
}
