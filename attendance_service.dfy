/** Hour arithmetic of attendance: worked hours from a check-in, a check-out
    and a break, and extra hours beyond a standard day. Results are kept in
    hundredths of an hour, the value `toFixed(2)` leaves. */
module AttendanceService {
  import opened Common
  import opened Calendar

  /** `x.toFixed(2)` for a non-negative exact number, in hundredths (ties round up). */
  function RoundHundredths(x: real): (r: int)
    requires x >= 0.0
    ensures r >= 0
    ensures r as real - 0.5 <= x * 100.0 < r as real + 0.5
  {
    (x * 100.0 + 0.5).Floor
  }

  /** A number already given to two decimals is left as it is. */
  lemma RoundExact(k: int)
    requires k >= 0
    ensures RoundHundredths(k as real / 100.0) == k
  {
    assert (k as real / 100.0) * 100.0 == k as real;
  }

  /** The hours between two timestamps minus the break, never below zero. */
  function ExactWork(checkIn: int, checkOut: int, breakTime: real): real {
    MaxReal(0.0, (checkOut - checkIn) as real / MS_PER_HOUR as real - breakTime)
  }

  /** `calculateWorkHours(checkIn, checkOut, breakTime)`: `None` is `null`, a
      `None` break is the default argument. */
  function WorkHours(checkIn: Option<int>, checkOut: Option<int>, breakTime: Option<real>): (r: Option<int>)
    ensures r.None? <==> checkIn.None? || checkOut.None?
    ensures r.Some? ==> r.value >= 0
    ensures r.Some? ==>
      var exact := ExactWork(checkIn.value, checkOut.value, breakTime.GetOr(0.0));
      r.value as real - 0.5 <= exact * 100.0 < r.value as real + 0.5
  {
    if checkIn.None? || checkOut.None? then None
    else Some(RoundHundredths(ExactWork(checkIn.value, checkOut.value, breakTime.GetOr(0.0))))
  }

  /** `calculateExtraHours(workHours, standardHours)`: hours beyond the standard
      day, never negative; no worked hours means no extra hours. */
  function ExtraHours(workHours: Option<int>, standardHours: real): (r: int)
    ensures r >= 0
    ensures workHours.None? ==> r == 0
    ensures workHours.Some? ==>
      var exact := MaxReal(0.0, workHours.value as real / 100.0 - standardHours);
      r as real - 0.5 <= exact * 100.0 < r as real + 0.5
  {
    if workHours.None? then 0
    else RoundHundredths(MaxReal(0.0, workHours.value as real / 100.0 - standardHours))
  }

  /** A missing break and a zero break give the same worked hours. */
  lemma NoBreakIsZeroBreak(checkIn: Option<int>, checkOut: Option<int>)
    ensures WorkHours(checkIn, checkOut, None) == WorkHours(checkIn, checkOut, Some(0.0))
  {
  }

  /** Against a whole-hour standard day, extra hours are exactly the worked
      hundredths beyond it. */
  lemma ExtraHoursExact(w: int, standard: nat)
    ensures ExtraHours(Some(w), standard as real) == MaxInt(0, w - 100 * standard)
  {
    var k := MaxInt(0, w - 100 * standard);
    assert MaxReal(0.0, w as real / 100.0 - standard as real) == k as real / 100.0;
    RoundExact(k);
  }

  /** Worked hours never exceed the time between the timestamps, and equal it
      (within rounding) when there is no break and check-out follows check-in. */
  lemma WorkBoundedBySpan(checkIn: int, checkOut: int, breakTime: real)
    requires checkIn <= checkOut && breakTime >= 0.0
    ensures ExactWork(checkIn, checkOut, breakTime) <= (checkOut - checkIn) as real / MS_PER_HOUR as real
    ensures ExactWork(checkIn, checkOut, 0.0) == (checkOut - checkIn) as real / MS_PER_HOUR as real
  {
  }

  /** 09:00 to 18:00 with a one-hour break: 8.00 worked, 0.00 extra. */
  lemma NineToSixExample(day: int)
    ensures var w := WorkHours(Some(Midnight(day) + 9 * MS_PER_HOUR), Some(Midnight(day) + 18 * MS_PER_HOUR), Some(1.0));
            w == Some(800) && ExtraHours(w, 8.0) == 0
  {
    var i, o := Midnight(day) + 9 * MS_PER_HOUR, Midnight(day) + 18 * MS_PER_HOUR;
    assert (o - i) as real / MS_PER_HOUR as real == 9.0;
    assert ExactWork(i, o, 1.0) == 800 as real / 100.0;
    RoundExact(800);
    ExtraHoursExact(800, 8);
  }

  /** 09:00 to 19:30 with a half-hour break: 10.00 worked, 2.00 extra. */
  lemma NineToHalfPastSevenExample(day: int)
    ensures var w := WorkHours(Some(Midnight(day) + 9 * MS_PER_HOUR), Some(Midnight(day) + 19 * MS_PER_HOUR + MS_PER_HOUR / 2), Some(0.5));
            w == Some(1000) && ExtraHours(w, 8.0) == 200
  {
    var i, o := Midnight(day) + 9 * MS_PER_HOUR, Midnight(day) + 19 * MS_PER_HOUR + MS_PER_HOUR / 2;
    assert (o - i) as real / MS_PER_HOUR as real == 10.5;
    assert ExactWork(i, o, 0.5) == 1000 as real / 100.0;
    RoundExact(1000);
    ExtraHoursExact(1000, 8);
  }
}
