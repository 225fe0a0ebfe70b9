/** The proleptic Gregorian calendar as `System.DateTime` computes it: the
    leap-year rule of section 3.2.1 of ISO 8601:2004, the cumulative month
    tables, a day count from 0001-01-01 and the weekday numbering with
    Sunday = 0. */
module Gregorian {
  import opened Common

  /** A `System.DateTime`: a calendar date and the ticks elapsed since midnight. */
  datatype DateTime = DateTime(year: int, month: int, day: int, ticksOfDay: int)

  const TicksPerDay := 864_000_000_000

  /** `default(DateTime)`: midnight, 1 January of year 1. */
  const DefaultDateTime := DateTime(1, 1, 1, 0)

  /** Years and months a `DateTime` can hold; outside them the constructor and
      `DateTime.DaysInMonth` throw `ArgumentOutOfRangeException`. */
  predicate InDateTimeRange(year: int, month: int) {
    1 <= year <= 9999 && 1 <= month <= 12
  }

  predicate IsLeapYear(year: int) {
    year % 4 == 0 && (year % 100 != 0 || year % 400 == 0)
  }

  /** Days before the first of each month, in a common and in a leap year. */
  const DaysToMonth365: seq<int> := [0, 31, 59, 90, 120, 151, 181, 212, 243, 273, 304, 334, 365]
  const DaysToMonth366: seq<int> := [0, 31, 60, 91, 121, 152, 182, 213, 244, 274, 305, 335, 366]

  function DaysToMonth(year: int): (t: seq<int>)
    ensures |t| == 13
  {
    if IsLeapYear(year) then DaysToMonth366 else DaysToMonth365
  }

  /** The length of a month, read off the cumulative table. */
  function MonthLength(year: int, month: int): (r: int)
    requires 1 <= month <= 12
    ensures 28 <= r <= 31
    ensures month == 2 ==> (r == 29 <==> IsLeapYear(year)) && (r == 28 <==> !IsLeapYear(year))
    ensures month in {4, 6, 9, 11} ==> r == 30
    ensures month in {1, 3, 5, 7, 8, 10, 12} ==> r == 31
  {
    DaysToMonth(year)[month] - DaysToMonth(year)[month - 1]
  }

  /** `DateTime.DaysInMonth(year, month)`, range checks included. */
  function DaysInMonth(year: int, month: int): (r: Result<int>)
    ensures r.Ok? <==> InDateTimeRange(year, month)
    ensures r.Err? ==> r.error == ArgumentOutOfRange
    ensures r.Ok? ==> 28 <= r.value <= 31
  {
    if InDateTimeRange(year, month) then Ok(MonthLength(year, month)) else Err(ArgumentOutOfRange)
  }

  /** A date that `new DateTime(...)` accepts (year range aside). */
  predicate IsValidDate(d: DateTime) {
    1 <= d.month <= 12 && 1 <= d.day <= MonthLength(d.year, d.month) && 0 <= d.ticksOfDay < TicksPerDay
  }

  /** A value `DateTime.Now` can return. */
  predicate IsRepresentable(d: DateTime) {
    IsValidDate(d) && 1 <= d.year <= 9999
  }

  /** Days from 0001-01-01 to 1 January of `year`. */
  function DaysBeforeYear(year: int): int {
    var y := year - 1;
    y * 365 + y / 4 - y / 100 + y / 400
  }

  /** Days from 0001-01-01 to the given day: `DateTime.Ticks / TicksPerDay`. */
  function DayNumber(year: int, month: int, day: int): int
    requires 1 <= month <= 12
  {
    DaysBeforeYear(year) + DaysToMonth(year)[month - 1] + day - 1
  }

  /** `DateTime.DayOfWeek` as an int: Sunday = 0, Monday = 1, ..., Saturday = 6. */
  function DayOfWeek(year: int, month: int, day: int): (w: int)
    requires 1 <= month <= 12
    ensures 0 <= w <= 6
    ensures w == (DayNumber(year, month, day) + 1) % 7
    ensures w == SakamotoWeekday(year, month, day)
  {
    SakamotoAgrees(year, month, day);
    (DayNumber(year, month, day) + 1) % 7
  }

  /** An independent reference for the weekday (Sunday = 0): Sakamoto's
      formula, which counts years from March so that the leap day falls at
      the end of the counted year. */
  function SakamotoWeekday(year: int, month: int, day: int): int
    requires 1 <= month <= 12
  {
    var y := if month < 3 then year - 1 else year;
    (y + y / 4 - y / 100 + y / 400 + SakamotoOffsets[month - 1] + day) % 7
  }

  /** Sakamoto's month offsets: the table of `SakamotoWeekday`. */
  const SakamotoOffsets: seq<int> := [0, 3, 2, 5, 0, 3, 5, 1, 4, 6, 2, 4]

  /** Each month's entry of the cumulative table exceeds Sakamoto's offset
      by whole weeks, plus the day that counting years from March adds (and
      the leap day) from March on. */
  lemma SakamotoTable(year: int, month: int) returns (weeks: int)
    requires 1 <= month <= 12
    ensures DaysToMonth(year)[month - 1] - SakamotoOffsets[month - 1]
            == 7 * weeks + (if month < 3 then 0 else 1) + (if month >= 3 && IsLeapYear(year) then 1 else 0)
  {
    weeks := [0, 4, 8, 12, 17, 21, 25, 30, 34, 38, 43, 47][month - 1];
  }

  /** Adding whole weeks does not change the weekday. */
  lemma WholeWeeks(n: int, k: int)
    ensures (n + 7 * k) % 7 == n % 7
  {
  }

  /** The day count and Sakamoto's formula differ by whole weeks: a year is
      364 days plus one, and the month tables differ as `SakamotoTable` says. */
  lemma SakamotoAgrees(year: int, month: int, day: int)
    requires 1 <= month <= 12
    ensures (DayNumber(year, month, day) + 1) % 7 == SakamotoWeekday(year, month, day)
  {
    var before := year - 1;
    var y := if month < 3 then before else year;
    var leapsBefore := before / 4 - before / 100 + before / 400;
    var leapsY := y / 4 - y / 100 + y / 400;
    LeapCountStep(year);
    assert leapsY == leapsBefore + (if month >= 3 && IsLeapYear(year) then 1 else 0);
    var weeks := SakamotoTable(year, month);
    var b := y + leapsY + SakamotoOffsets[month - 1] + day;
    assert DayNumber(year, month, day) + 1 == 365 * before + leapsBefore + DaysToMonth(year)[month - 1] + day;
    assert DayNumber(year, month, day) + 1 == b + 7 * (52 * before + weeks);
    WholeWeeks(b, 52 * before + weeks);
  }

  /** The number of leap years in (year - 1, year] steps by one exactly at a leap year. */
  lemma LeapCountStep(year: int)
    ensures (year / 4 - year / 100 + year / 400) - ((year - 1) / 4 - (year - 1) / 100 + (year - 1) / 400)
            == if IsLeapYear(year) then 1 else 0
  {
    var y := year - 1;
    assert year / 4 - y / 4 == if year % 4 == 0 then 1 else 0;
    assert year / 100 - y / 100 == if year % 100 == 0 then 1 else 0;
    assert year / 400 - y / 400 == if year % 400 == 0 then 1 else 0;
    if year % 400 == 0 {
      assert year % 100 == 0 && year % 4 == 0;
    } else if year % 100 == 0 {
      assert year % 4 == 0;
    }
  }

  /** A year is as long as its cumulative table says: the day count of
      1 January moves on by 366 days after a leap year and by 365 otherwise. */
  lemma YearLength(year: int)
    ensures DaysBeforeYear(year + 1) == DaysBeforeYear(year) + DaysToMonth(year)[12]
  {
    LeapCountStep(year);
  }

  /** The day count is consecutive across month boundaries: the first day of
      the following month comes `MonthLength` days after the first day of this one. */
  lemma NextMonthStart(year: int, month: int)
    requires 1 <= month <= 12
    ensures month < 12 ==> DayNumber(year, month + 1, 1) == DayNumber(year, month, 1) + MonthLength(year, month)
    ensures month == 12 ==> DayNumber(year + 1, 1, 1) == DayNumber(year, month, 1) + MonthLength(year, month)
  {
    if month == 12 {
      YearLength(year);
    }
  }

  /** The weekday of the first of the next month moves on by the length of
      this month, December to January included. */
  lemma FirstWeekdayStep(year: int, month: int)
    requires 1 <= month <= 12
    ensures month < 12 ==> DayOfWeek(year, month + 1, 1) == (DayOfWeek(year, month, 1) + MonthLength(year, month)) % 7
    ensures month == 12 ==> DayOfWeek(year + 1, 1, 1) == (DayOfWeek(year, 12, 1) + MonthLength(year, 12)) % 7
  {
    NextMonthStart(year, month);
    var n := DayNumber(year, month, 1) + 1;
    var len := MonthLength(year, month);
    ModOfSum(n, len);
  }

  /** The weekday after `len` more days depends only on the weekday now. */
  lemma ModOfSum(n: int, len: int)
    ensures (n + len) % 7 == (n % 7 + len) % 7
  {
    WholeWeeks(n % 7 + len, n / 7);
  }

  /** 1 January of year 1 is a Monday. */
  lemma EpochIsMonday()
    ensures DayOfWeek(1, 1, 1) == 1
  {
  }

  /** 1 January 2025 is a Wednesday. */
  lemma FirstOf2025IsWednesday()
    ensures DayOfWeek(2025, 1, 1) == 3
  {
  }
}
