/** The per-(user, day) attendance state machine: check-in creates the day's
    record or fills in a placeholder, check-out derives worked and extra
    hours; plus the read rules of the attendance listing and its monthly summary. */
module AttendanceController {
  import opened Common
  import opened Calendar
  import opened Records
  import opened AttendanceService

  const ALREADY_CHECKED_IN: string := "Already checked in today"
  const NO_CHECK_IN: string := "No check-in found for today"
  const ALREADY_CHECKED_OUT: string := "Already checked out today"
  const ACCESS_DENIED: string := "Access denied"
  /** The standard day `checkOut` passes to the extra-hours rule. */
  const STANDARD_DAY_HOURS: real := 8.0

  /** The key the handlers address for a caller at a given clock reading. */
  function TodayKey(userId: int, now: Instant): AttendanceKey {
    AttendanceKey(userId, DayOf(now.ms))
  }

  /** All check-ins and check-outs within one calendar day address one record. */
  lemma SameDaySameKey(userId: int, a: Instant, b: Instant, day: int)
    requires Midnight(day) <= a.ms < Midnight(day + 1)
    requires Midnight(day) <= b.ms < Midnight(day + 1)
    ensures TodayKey(userId, a) == TodayKey(userId, b) == AttendanceKey(userId, day)
  {
    DayOfWithinDay(day, a.ms);
    DayOfWithinDay(day, b.ms);
  }

  /** `checkIn` */
  method CheckIn(db: Db, caller: Caller, now: Instant) returns (r: Result<Attendance>)
    modifies db`attendance
    ensures var key := TodayKey(caller.id, now);
      if key in old(db.attendance) && old(db.attendance)[key].checkIn.Some? then
        r == Err(BadRequest(ALREADY_CHECKED_IN)) && db.attendance == old(db.attendance)
      else
        && r.Ok?
        && db.attendance == old(db.attendance)[key := r.value]
        && (key in old(db.attendance) ==>
              r.value == old(db.attendance)[key].(checkIn := Some(now.ms), status := PRESENT))
        && (key !in old(db.attendance) ==>
              r.value == Attendance(DayOf(now.ms), Some(now.ms), None, None, None, None, PRESENT))
  {
    var today := DayOf(now.ms);
    var key := AttendanceKey(caller.id, today);
    if key in db.attendance && db.attendance[key].checkIn.Some? {
      return Err(BadRequest(ALREADY_CHECKED_IN));
    }
    var attendance;
    if key in db.attendance {
      attendance := db.attendance[key].(checkIn := Some(now.ms), status := PRESENT);
    } else {
      attendance := Attendance(today, Some(now.ms), None, None, None, None, PRESENT);
    }
    db.attendance := db.attendance[key := attendance];
    r := Ok(attendance);
  }

  /** The break of a check-out: the request's value when truthy, else the
      stored break, else 0. */
  function ResolveBreak(requested: Option<real>, stored: Option<real>): real {
    if TruthyNum(requested) then requested.value
    else if stored.Some? then stored.value
    else 0.0
  }

  /** `checkOut`; `requestedBreak` is `req.body.breakTime` after `parseFloat`. */
  method CheckOut(db: Db, caller: Caller, now: Instant, requestedBreak: Option<real>) returns (r: Result<Attendance>)
    modifies db`attendance
    ensures var key := TodayKey(caller.id, now);
      if key !in old(db.attendance) then
        r == Err(BadRequest(NO_CHECK_IN)) && db.attendance == old(db.attendance)
      else if old(db.attendance)[key].checkOut.Some? then
        r == Err(BadRequest(ALREADY_CHECKED_OUT)) && db.attendance == old(db.attendance)
      else
        var before := old(db.attendance)[key];
        var brk := if TruthyNum(requestedBreak) then requestedBreak.value
                   else if before.breakTime.Some? then before.breakTime.value else 0.0;
        var work := WorkHours(before.checkIn, Some(now.ms), Some(brk));
        && r.Ok?
        && db.attendance == old(db.attendance)[key := r.value]
        && r.value == before.(checkOut := Some(now.ms), workHours := work,
                              extraHours := Some(ExtraHours(work, STANDARD_DAY_HOURS)),
                              breakTime := Some(brk))
  {
    var key := TodayKey(caller.id, now);
    if key !in db.attendance {
      return Err(BadRequest(NO_CHECK_IN));
    }
    var attendance := db.attendance[key];
    if attendance.checkOut.Some? {
      return Err(BadRequest(ALREADY_CHECKED_OUT));
    }
    var breakTime := ResolveBreak(requestedBreak, attendance.breakTime);
    var workHours := WorkHours(attendance.checkIn, Some(now.ms), Some(breakTime));
    var extraHours := ExtraHours(workHours, STANDARD_DAY_HOURS);
    var updated := attendance.(checkOut := Some(now.ms), workHours := workHours,
                               extraHours := Some(extraHours), breakTime := Some(breakTime));
    db.attendance := db.attendance[key := updated];
    r := Ok(updated);
  }

  /** A day at the store level: check in at 09:00, a second check-in fails and
      keeps the first time, check out at 18:00 with a one-hour break records
      8.00 worked and 0.00 extra hours. */
  method WorkingDay(db: Db, caller: Caller, day: int, year: int, month: int)
    requires AttendanceKey(caller.id, day) !in db.attendance
    modifies db`attendance
    ensures AttendanceKey(caller.id, day) in db.attendance
    ensures var row := db.attendance[AttendanceKey(caller.id, day)];
      row.checkIn == Some(Midnight(day) + 9 * MS_PER_HOUR)
      && row.workHours == Some(800) && row.extraHours == Some(0) && row.status == PRESENT
  {
    var nine := Instant(Midnight(day) + 9 * MS_PER_HOUR, year, month);
    var eleven := Instant(Midnight(day) + 11 * MS_PER_HOUR, year, month);
    var six := Instant(Midnight(day) + 18 * MS_PER_HOUR, year, month);
    SameDaySameKey(caller.id, nine, eleven, day);
    SameDaySameKey(caller.id, nine, six, day);
    var first := CheckIn(db, caller, nine);
    var second := CheckIn(db, caller, eleven);
    assert second == Err(BadRequest(ALREADY_CHECKED_IN));
    var out := CheckOut(db, caller, six, Some(1.0));
    NineToSixExample(day);
  }

  /** Who may read whose attendance: ADMIN and HR anyone's, others only their own. */
  predicate MayReadAttendance(caller: Caller, userId: int) {
    IsAdminOrHr(caller.role) || caller.id == userId
  }

  /** The records of one user whose date lies in a range. */
  function RowsInRange(rows: map<AttendanceKey, Attendance>, userId: int, range: DayRange): (r: map<AttendanceKey, Attendance>)
    ensures forall k :: k in r <==> k in rows && k.userId == userId && InRange(k.date, range)
    ensures forall k :: k in r ==> r[k] == rows[k]
  {
    map k | k in rows && k.userId == userId && InRange(k.date, range) :: rows[k]
  }

  /** `getAttendance` without the ADMIN/HR single-date override: the target is
      the `userId` query value or the caller, the range the queried month. */
  function GetAttendance(rows: map<AttendanceKey, Attendance>, caller: Caller, queryUserId: Option<int>,
                         month: Option<int>, year: Option<int>, now: Instant): (r: Result<map<AttendanceKey, Attendance>>)
    ensures var target := queryUserId.GetOr(caller.id);
      && (r.Err? <==> !MayReadAttendance(caller, target))
      && (r.Err? ==> r.error == Forbidden(ACCESS_DENIED))
    ensures var target, range := queryUserId.GetOr(caller.id), QueryMonthRange(month, year, now);
      r.Ok? ==> forall k :: k in r.value <==> (k in rows && k.userId == target && InRange(k.date, range))
    ensures r.Ok? ==> forall k :: k in r.value ==> r.value[k] == rows[k]
  {
    var target := queryUserId.GetOr(caller.id);
    if !MayReadAttendance(caller, target) then Err(Forbidden(ACCESS_DENIED))
    else Ok(RowsInRange(rows, target, QueryMonthRange(month, year, now)))
  }

  datatype Summary = Summary(daysPresent: nat, leavesCount: nat)

  /** Keys of the records of one user in a range. */
  function KeysInRange(rows: map<AttendanceKey, Attendance>, userId: int, range: DayRange): set<AttendanceKey> {
    set k | k in rows && k.userId == userId && InRange(k.date, range)
  }

  function KeysWithStatus(rows: map<AttendanceKey, Attendance>, keys: set<AttendanceKey>, status: AttendanceStatus): (s: set<AttendanceKey>)
    ensures s <= keys
  {
    set k | k in keys && k in rows && rows[k].status == status
  }

  /** The counts of `getAttendanceSummary` over the caller's records of the
      queried month: present days and leave days. */
  function AttendanceSummary(rows: map<AttendanceKey, Attendance>, userId: int, range: DayRange): (s: Summary)
    ensures s.daysPresent + s.leavesCount <= |KeysInRange(rows, userId, range)|
    ensures s.daysPresent == |KeysWithStatus(rows, KeysInRange(rows, userId, range), PRESENT)|
    ensures s.leavesCount == |KeysWithStatus(rows, KeysInRange(rows, userId, range), ON_LEAVE)|
  {
    var keys := KeysInRange(rows, userId, range);
    var present := KeysWithStatus(rows, keys, PRESENT);
    var leave := KeysWithStatus(rows, keys, ON_LEAVE);
    DisjointSubsetsCard(present, leave, keys);
    Summary(|present|, |leave|)
  }

  lemma DisjointSubsetsCard<T>(a: set<T>, b: set<T>, c: set<T>)
    requires a <= c && b <= c && a !! b
    ensures |a| + |b| <= |c|
  {
    assert |a + b| == |a| + |b|;
    SubsetCard(a + b, c);
  }

  lemma {:induction false} SubsetCard<T>(a: set<T>, c: set<T>)
    requires a <= c
    ensures |a| <= |c|
    decreases |c|
  {
    if a != {} {
      var x :| x in a;
      SubsetCard(a - {x}, c - {x});
    }
  }
}
