/** Time as the backend sees it. Timestamps are integer milliseconds of local
    wall-clock time; calendar days are integer day indices (day 0 is 1970-01-01);
    the clock is an explicit `Instant` argument instead of `new Date()`. */
module Calendar {
  import opened Common

  const MS_PER_HOUR: int := 1000 * 60 * 60
  const MS_PER_DAY: int := 1000 * 60 * 60 * 24

  /** A reading of the clock: its milliseconds and the calendar year and month
      (1..12) that `getFullYear()` and `getMonth() + 1` report for it. */
  datatype Instant = Instant(ms: int, year: int, month: int)

  /** The day index of a timestamp: `d.setHours(0, 0, 0, 0)` keeps only the day. */
  function DayOf(ms: int): int {
    ms / MS_PER_DAY
  }

  /** Midnight of a day index, in milliseconds. */
  function Midnight(day: int): int {
    day * MS_PER_DAY
  }

  /** Every instant of one calendar day normalises to that day's index, and
      normalising midnight gives it back. */
  lemma DayOfWithinDay(day: int, ms: int)
    requires Midnight(day) <= ms < Midnight(day + 1)
    ensures DayOf(ms) == day
    ensures DayOf(Midnight(day)) == day
  {
  }

  predicate IsLeapYear(y: int) {
    (y % 4 == 0 && y % 100 != 0) || y % 400 == 0
  }

  function DaysInYear(y: int): int {
    if IsLeapYear(y) then 366 else 365
  }

  /** Days in month `m` (1..12) of year `y`. */
  function DaysInMonth(y: int, m: int): (n: int)
    requires 1 <= m <= 12
    ensures 28 <= n <= 31
  {
    if m == 2 then (if IsLeapYear(y) then 29 else 28)
    else if m == 4 || m == 6 || m == 9 || m == 11 then 30
    else 31
  }

  /** Days of year `y` before the first of month `m`. */
  function DaysBeforeMonth(y: int, m: int): int
    requires 1 <= m <= 12
  {
    var common :=
      if m == 1 then 0 else if m == 2 then 31 else if m == 3 then 59
      else if m == 4 then 90 else if m == 5 then 120 else if m == 6 then 151
      else if m == 7 then 181 else if m == 8 then 212 else if m == 9 then 243
      else if m == 10 then 273 else if m == 11 then 304 else 334;
    common + if m > 2 && IsLeapYear(y) then 1 else 0
  }

  /** Month `m` starts where month `m - 1` ends. */
  lemma DaysBeforeMonthStep(y: int, m: int)
    requires 2 <= m <= 12
    ensures DaysBeforeMonth(y, m) == DaysBeforeMonth(y, m - 1) + DaysInMonth(y, m - 1)
  {
  }

  /** Leap years in 1..n (for n >= 0) by the Gregorian rule, extended to all n. */
  function LeapsThrough(n: int): int {
    n / 4 - n / 100 + n / 400
  }

  /** Day index of January 1st of year `y`. */
  function YearStart(y: int): int {
    365 * (y - 1970) + LeapsThrough(y - 1) - LeapsThrough(1969)
  }

  /** Day index of the date `y`-`m`-`d`, the day counted from 1. */
  function DayNumber(y: int, m: int, d: int): int
    requires 1 <= m <= 12
  {
    YearStart(y) + DaysBeforeMonth(y, m) + d - 1
  }

  lemma Div4Step(y: int)
    ensures y / 4 - (y - 1) / 4 == if y % 4 == 0 then 1 else 0
  {
    var q, r := (y - 1) / 4, (y - 1) % 4;
    if r == 3 {
      assert y == 4 * (q + 1);
    } else {
      assert y == 4 * q + (r + 1);
    }
  }

  lemma Div100Step(y: int)
    ensures y / 100 - (y - 1) / 100 == if y % 100 == 0 then 1 else 0
  {
    var q, r := (y - 1) / 100, (y - 1) % 100;
    if r == 99 {
      assert y == 100 * (q + 1);
    } else {
      assert y == 100 * q + (r + 1);
    }
  }

  lemma Div400Step(y: int)
    ensures y / 400 - (y - 1) / 400 == if y % 400 == 0 then 1 else 0
  {
    var q, r := (y - 1) / 400, (y - 1) % 400;
    if r == 399 {
      assert y == 400 * (q + 1);
    } else {
      assert y == 400 * q + (r + 1);
    }
  }

  /** A multiple of 400 is a multiple of 100. */
  lemma Multiple400(y: int)
    requires y % 400 == 0
    ensures y % 100 == 0
  {
    assert y == 100 * (4 * (y / 400)) + 0;
  }

  /** A multiple of 100 is a multiple of 4. */
  lemma Multiple100(y: int)
    requires y % 100 == 0
    ensures y % 4 == 0
  {
    assert y == 4 * (25 * (y / 100)) + 0;
  }

  /** Year `y` adds one to the leap count exactly when it is a leap year. */
  lemma LeapStep(y: int)
    ensures LeapsThrough(y) - LeapsThrough(y - 1) == if IsLeapYear(y) then 1 else 0
  {
    Div4Step(y);
    Div100Step(y);
    Div400Step(y);
    if y % 400 == 0 {
      Multiple400(y);
    }
    if y % 100 == 0 {
      Multiple100(y);
    }
  }

  /** Consecutive years start one year-length apart. */
  lemma YearStartStep(y: int)
    ensures YearStart(y + 1) - YearStart(y) == DaysInYear(y)
  {
    LeapStep(y);
  }

  lemma DaysBeforeDecember(y: int)
    ensures DaysBeforeMonth(y, 12) + DaysInMonth(y, 12) == DaysInYear(y)
  {
  }

  /** `new Date(y, monthIndex, d)`: JavaScript carries an out-of-range month
      index (0-based) into the year and an out-of-range day into the month. */
  function JsDate(y: int, monthIndex: int, d: int): int {
    DayNumber(y + monthIndex / 12, monthIndex % 12 + 1, 1) + d - 1
  }

  lemma MonthIndexStep(i: int)
    ensures (i - 1) % 12 == 11 ==> i / 12 == (i - 1) / 12 + 1 && i % 12 == 0
    ensures (i - 1) % 12 != 11 ==> i / 12 == (i - 1) / 12 && i % 12 == (i - 1) % 12 + 1
  {
  }

  /** Month index `monthIndex` of year `y` starts where the month before it
      ends (both normalised). */
  lemma NextMonthStart(y: int, monthIndex: int)
    ensures JsDate(y, monthIndex, 1)
      == JsDate(y, monthIndex - 1, 1) + DaysInMonth(y + (monthIndex - 1) / 12, (monthIndex - 1) % 12 + 1)
  {
    var yy, m := y + (monthIndex - 1) / 12, (monthIndex - 1) % 12 + 1;
    MonthIndexStep(monthIndex);
    if m == 12 {
      YearStartStep(yy);
      DaysBeforeDecember(yy);
    } else {
      DaysBeforeMonthStep(yy, m + 1);
    }
  }

  /** The date range of a month query: `new Date(year, month - 1, 1)` up to
      `new Date(year, month, 0)`, both inclusive. */
  datatype DayRange = DayRange(first: int, last: int)

  function MonthRange(year: int, month: int): (r: DayRange)
    ensures var y, m := year + (month - 1) / 12, (month - 1) % 12 + 1;
            && r.first == DayNumber(y, m, 1)
            && r.last - r.first + 1 == DaysInMonth(y, m)
    ensures 28 <= r.last - r.first + 1 <= 31
  {
    NextMonthStart(year, month);
    DayRange(JsDate(year, month - 1, 1), JsDate(year, month, 0))
  }

  /** The month queried: the `month` and `year` query values when both are
      given, else the clock's current month. */
  function QueryMonthRange(month: Option<int>, year: Option<int>, now: Instant): (r: DayRange)
    ensures month.Some? && year.Some? ==> r == MonthRange(year.value, month.value)
    ensures !(month.Some? && year.Some?) ==> r == MonthRange(now.year, now.month)
  {
    if month.Some? && year.Some? then MonthRange(year.value, month.value)
    else MonthRange(now.year, now.month)
  }

  predicate InRange(day: int, r: DayRange) {
    r.first <= day <= r.last
  }

  /** Worked example: February 2024 (a leap year) spans 29 days and ends the
      day before March 1st. */
  lemma February2024()
    ensures MonthRange(2024, 2).last - MonthRange(2024, 2).first + 1 == 29
    ensures MonthRange(2024, 2).last + 1 == MonthRange(2024, 3).first
  {
    assert IsLeapYear(2024);
    assert DaysBeforeMonth(2024, 3) == DaysBeforeMonth(2024, 2) + 29;
  }
}
