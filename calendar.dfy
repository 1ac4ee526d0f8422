/**
 * The calendar arithmetic of `solve_schedule`: the day count of the requested
 * month, computed as the difference of two `datetime` values, and the
 * `YYYY-MM-DD` strings that name its days.
 */
module Calendar {
  import opened Wrappers
  import opened Text

  predicate IsLeapYear(year: int) {
    year % 4 == 0 && (year % 100 != 0 || year % 400 == 0)
  }

  /** Length of a month of the proleptic Gregorian calendar `datetime` uses. */
  function MonthLength(year: int, month: int): nat
    requires 1 <= month <= 12
  {
    if month == 2 then (if IsLeapYear(year) then 29 else 28)
    else if month == 4 || month == 6 || month == 9 || month == 11 then 30
    else 31
  }

  /** `datetime(year, month, 1)` succeeds exactly for these arguments. */
  predicate ValidFirstOfMonth(year: int, month: int) {
    1 <= year <= 9999 && 1 <= month <= 12
  }

  const MonthRangeError: string := "month must be in 1..12"

  /** The `ValueError` text `datetime` raises for a first-of-month it rejects. */
  function DateError(year: int, month: int): string {
    if !(1 <= year <= 9999) then "year " + IntToString(year) + " is out of range"
    else MonthRangeError
  }

  /** `_DAYS_BEFORE_MONTH` of `datetime`: the days of a common year before the first of `month`. */
  function DaysBeforeMonthCommon(month: int): nat
    requires 1 <= month <= 12
  {
    match month
    case 1 => 0
    case 2 => 31
    case 3 => 59
    case 4 => 90
    case 5 => 120
    case 6 => 151
    case 7 => 181
    case 8 => 212
    case 9 => 243
    case 10 => 273
    case 11 => 304
    case _ => 334
  }

  /** `_days_before_year`: the days of the years `1 .. year - 1`. */
  function DaysBeforeYear(year: int): int
    requires year >= 1
  {
    var y := year - 1;
    y * 365 + y / 4 - y / 100 + y / 400
  }

  /** `_days_before_month`: one more day after February of a leap year. */
  function DaysBeforeMonth(year: int, month: int): nat
    requires 1 <= month <= 12
  {
    DaysBeforeMonthCommon(month) + (if month > 2 && IsLeapYear(year) then 1 else 0)
  }

  /** `_ymd2ord`: the proleptic Gregorian ordinal of a date, 1 for 0001-01-01. */
  function Ordinal(year: int, month: int, day: int): int
    requires ValidFirstOfMonth(year, month)
  {
    DaysBeforeYear(year) + DaysBeforeMonth(year, month) + day
  }

  /**
   * `(datetime(year, month + 1, 1) - datetime(year, month, 1)).days`: the
   * difference of the two ordinals, where either constructor may raise.
   * The first one is evaluated first, so its error is the one reported.
   */
  function DaysInMonth(year: int, month: int): (r: Result<nat, string>)
    ensures r.Success? <==> 1 <= year <= 9999 && 1 <= month <= 11
    ensures r.Success? ==> 28 <= r.value <= 31
    ensures r.Success? ==> r.value == MonthLength(year, month)
  {
    if !ValidFirstOfMonth(year, month + 1) then Failure(DateError(year, month + 1))
    else if !ValidFirstOfMonth(year, month) then Failure(DateError(year, month))
    else
      DaysInMonthIsMonthLength(year, month);
      Success(Ordinal(year, month + 1, 1) - Ordinal(year, month, 1))
  }

  /**
   * The ordinals of consecutive firsts of month differ by the month's
   * length: February has 29 days exactly in a leap year, and April, June,
   * September and November have 30.
   */
  lemma DaysInMonthIsMonthLength(year: int, month: int)
    requires 1 <= year <= 9999 && 1 <= month <= 11
    ensures Ordinal(year, month + 1, 1) - Ordinal(year, month, 1) == MonthLength(year, month)
  {
  }

  /** December always fails: `month + 1` is 13, which `datetime` rejects. */
  lemma DecemberFails(year: int)
    requires 1 <= year <= 9999
    ensures DaysInMonth(year, 12) == Failure(MonthRangeError)
  {
  }

  /** `f"{year}-{month:02d}-{day:02d}"`. */
  function DateString(year: int, month: nat, day: nat): string {
    IntToString(year) + "-" + Pad2(month) + "-" + Pad2(day)
  }

  /**
   * Within one month, two days below 100 get the same date string iff they
   * are the same day, so an availability entry names at most one day.
   */
  lemma DateStringDistinctDays(year: int, month: nat, d1: nat, d2: nat)
    requires d1 < 100 && d2 < 100
    ensures DateString(year, month, d1) == DateString(year, month, d2) <==> d1 == d2
  {
    var p := IntToString(year) + "-" + Pad2(month) + "-";
    assert DateString(year, month, d1) == p + Pad2(d1);
    assert DateString(year, month, d2) == p + Pad2(d2);
    if DateString(year, month, d1) == DateString(year, month, d2) {
      Pad2Digits(d1);
      Pad2Digits(d2);
      assert Pad2(d1) == (p + Pad2(d1))[|p|..];
      assert Pad2(d2) == (p + Pad2(d2))[|p|..];
      assert d1 / 10 == d2 / 10 && d1 % 10 == d2 % 10;
    }
  }

  /** A four-digit year, a month and a day below 100 give a `YYYY-MM-DD` string of ten characters. */
  lemma DateStringLength(year: int, month: nat, day: nat)
    requires 1000 <= year <= 9999 && month < 100 && day < 100
    ensures |DateString(year, month, day)| == 10
    ensures DateString(year, month, day)[4] == '-' && DateString(year, month, day)[7] == '-'
  {
    Pad2Digits(month);
    Pad2Digits(day);
    var y := IntToString(year);
    assert |NatToString(year / 1000)| == 1;
    assert |NatToString(year / 100)| == 2;
    assert |NatToString(year / 10)| == 3;
    assert |y| == 4;
  }
}
