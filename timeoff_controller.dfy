/** The time-off request workflow: a request is created PENDING after the
    availability check, and an ADMIN or HR of the owner's company moves it to
    APPROVED (charging `usedDays`) or REJECTED (charging nothing); both are
    terminal. There is no hold on the days between creation and approval. */
module TimeOffController {
  import opened Common
  import opened Calendar
  import opened Records
  import opened Text
  import opened TimeOffService

  const TYPE_NOT_FOUND: string := "Time off type not found"
  const ACCESS_DENIED: string := "Access denied"
  const ONLY_APPROVERS_APPROVE: string := "Only Admin or HR can approve requests"
  const ONLY_APPROVERS_REJECT: string := "Only Admin or HR can reject requests"
  const REQUEST_NOT_FOUND: string := "Time off request not found"
  const ALREADY_PROCESSED: string := "Request has already been processed"

  /** An allocation row as `getAllocations` reports it. */
  datatype AllocationView = AllocationView(allocation: Allocation, availableDays: real)

  /** `getAllocations`: the caller's allocations of the queried year (else the
      clock's year), each with its available days. */
  function GetAllocations(allocations: map<AllocationKey, Allocation>, caller: Caller, year: Option<int>, now: Instant)
    : (r: map<AllocationKey, AllocationView>)
    ensures forall k :: k in r <==> k in allocations && k.userId == caller.id && k.year == year.GetOr(now.year)
    ensures forall k :: k in r ==>
              && r[k].allocation == allocations[k]
              && r[k].availableDays == allocations[k].allocatedDays - allocations[k].usedDays
  {
    var y := year.GetOr(now.year);
    map k | k in allocations && k.userId == caller.id && k.year == y ::
      AllocationView(allocations[k], allocations[k].allocatedDays - allocations[k].usedDays)
  }

  /** What `getAllocations` reports as available for a type is what the
      availability check measures a request of that year against. */
  lemma ReportedAvailabilityIsChecked(allocations: map<AllocationKey, Allocation>, caller: Caller, typeId: int,
                                      start: Instant, end: Instant, now: Instant)
    requires AllocationKey(caller.id, typeId, start.year) in allocations
    ensures var view := GetAllocations(allocations, caller, Some(start.year), now)[AllocationKey(caller.id, typeId, start.year)];
            var check := CheckAllocationAvailability(allocations, caller.id, typeId, start, end);
            && (check.Ok? ==> check.value.availableDays == view.availableDays)
            && (check.Ok? <==> CalculateDays(start.ms, end.ms) as real <= view.availableDays)
  {
  }

  /** The `catch` of `createTimeOffRequest`: an error whose message mentions
      an allocation is reported as a bad request, any other passes on. */
  function SurfaceError(e: Error): (r: Error)
    ensures Contains(e.msg, ALLOCATION) ==> r == BadRequest(e.msg)
    ensures !Contains(e.msg, ALLOCATION) ==> r == e
  {
    if Contains(e.msg, ALLOCATION) then BadRequest(e.msg) else e
  }

  /** Both failures of the availability check reach the client as bad requests. */
  lemma CheckFailuresAreBadRequests()
    ensures SurfaceError(Thrown(NOT_FOUND_FOR_YEAR)) == BadRequest(NOT_FOUND_FOR_YEAR)
    ensures SurfaceError(Thrown(INSUFFICIENT)) == BadRequest(INSUFFICIENT)
  {
    ContainsMiddle("Time off ", ALLOCATION, " not found for this year");
    assert INSUFFICIENT == "Insufficient time off " + ALLOCATION + "";
    ContainsMiddle("Insufficient time off ", ALLOCATION, "");
  }

  /** The request row `createTimeOffRequest` inserts. */
  function PendingRequest(userId: int, typeId: int, start: Instant, end: Instant,
                          reason: Option<string>, attachmentUrl: Option<string>): (q: TimeOffRequest)
    ensures q.status == PENDING && q.approvedBy.None? && q.approvedAt.None?
    ensures q.allocation == CalculateDays(start.ms, end.ms) as real
    ensures q.userId == userId && q.typeId == typeId && q.startDate == start.ms && q.endDate == end.ms
    ensures q.reason == OrNull(reason) && q.attachmentUrl == OrNull(attachmentUrl)
  {
    TimeOffRequest(userId, typeId, start.ms, end.ms, CalculateDays(start.ms, end.ms) as real,
                   OrNull(reason), OrNull(attachmentUrl), PENDING, None, None)
  }

  /** `createTimeOffRequest`; the new row gets the next autoincrement id. */
  method CreateTimeOffRequest(db: Db, caller: Caller, typeId: int, start: Instant, end: Instant,
                              reason: Option<string>, attachmentUrl: Option<string>) returns (r: Result<TimeOffRequest>)
    requires db.Valid() && caller.id in db.users
    modifies db`requests, db`nextId
    ensures db.Valid()
    ensures typeId !in db.timeOffTypes ==>
              r == Err(NotFound(TYPE_NOT_FOUND)) && db.requests == old(db.requests) && db.nextId == old(db.nextId)
    ensures typeId in db.timeOffTypes && db.timeOffTypes[typeId].companyId != caller.companyId ==>
              r == Err(Forbidden(ACCESS_DENIED)) && db.requests == old(db.requests) && db.nextId == old(db.nextId)
    ensures typeId in db.timeOffTypes && db.timeOffTypes[typeId].companyId == caller.companyId ==>
              var check := CheckAllocationAvailability(db.allocations, caller.id, typeId, start, end);
              && (check.Err? ==>
                    r == Err(BadRequest(check.error.msg)) && db.requests == old(db.requests) && db.nextId == old(db.nextId))
              && (check.Ok? ==>
                    && r == Ok(PendingRequest(caller.id, typeId, start, end, reason, attachmentUrl))
                    && old(db.nextId) !in old(db.requests)
                    && db.requests == old(db.requests)[old(db.nextId) := r.value]
                    && db.nextId == old(db.nextId) + 1)
  {
    if typeId !in db.timeOffTypes {
      return Err(NotFound(TYPE_NOT_FOUND));
    }
    if db.timeOffTypes[typeId].companyId != caller.companyId {
      return Err(Forbidden(ACCESS_DENIED));
    }
    var check := CheckAllocationAvailability(db.allocations, caller.id, typeId, start, end);
    if check.Err? {
      CheckFailuresAreBadRequests();
      return Err(SurfaceError(check.error));
    }
    var request := PendingRequest(caller.id, typeId, start, end, reason, attachmentUrl);
    db.requests := db.requests[db.nextId := request];
    db.nextId := db.nextId + 1;
    r := Ok(request);
  }

  /** The guards approval and rejection share, in the order the handlers run
      them: role, existence, the owner's company, then the PENDING status. */
  function DecisionGuard(db: Db, caller: Caller, requestId: int, roleMessage: string): (e: Option<Error>)
    reads db
    requires db.Valid()
    ensures !IsAdminOrHr(caller.role) ==> e == Some(Forbidden(roleMessage))
    ensures IsAdminOrHr(caller.role) && requestId !in db.requests ==> e == Some(NotFound(REQUEST_NOT_FOUND))
    ensures IsAdminOrHr(caller.role) && requestId in db.requests ==>
              var q := db.requests[requestId];
              && (db.users[q.userId].companyId != caller.companyId ==> e == Some(Forbidden(ACCESS_DENIED)))
              && (db.users[q.userId].companyId == caller.companyId && q.status != PENDING ==>
                    e == Some(BadRequest(ALREADY_PROCESSED)))
              && (db.users[q.userId].companyId == caller.companyId && q.status == PENDING ==> e == None)
  {
    if !IsAdminOrHr(caller.role) then Some(Forbidden(roleMessage))
    else if requestId !in db.requests then Some(NotFound(REQUEST_NOT_FOUND))
    else if db.users[db.requests[requestId].userId].companyId != caller.companyId then Some(Forbidden(ACCESS_DENIED))
    else if db.requests[requestId].status != PENDING then Some(BadRequest(ALREADY_PROCESSED))
    else None
  }

  /** A pending request passes the guards only for an ADMIN or HR of its
      owner's company, and a decided one never does. */
  lemma DecidedRequestsAreTerminal(db: Db, caller: Caller, requestId: int, roleMessage: string)
    requires db.Valid()
    ensures DecisionGuard(db, caller, requestId, roleMessage).None? <==>
              && IsAdminOrHr(caller.role) && requestId in db.requests
              && db.requests[requestId].status == PENDING
              && db.users[db.requests[requestId].userId].companyId == caller.companyId
  {
  }

  /** `approveTimeOffRequest`: after the guards, the request's days are added
      to the owner's allocation of the clock's year, then the request is
      marked approved by the caller at `now`. A missing allocation throws
      before the request is touched. */
  method ApproveTimeOffRequest(db: Db, caller: Caller, requestId: int, now: Instant) returns (r: Result<TimeOffRequest>)
    requires db.Valid()
    modifies db`requests, db`allocations
    ensures db.Valid()
    ensures var g := old(DecisionGuard(db, caller, requestId, ONLY_APPROVERS_APPROVE));
      if g.Some? then
        r == Err(g.value) && db.requests == old(db.requests) && db.allocations == old(db.allocations)
      else
        var q := old(db.requests)[requestId];
        var key := AllocationKey(q.userId, q.typeId, now.year);
        if key !in old(db.allocations) then
          r == Err(Thrown(NOT_FOUND)) && db.requests == old(db.requests) && db.allocations == old(db.allocations)
        else
          var a := old(db.allocations)[key];
          && r == Ok(q.(status := APPROVED, approvedBy := Some(caller.id), approvedAt := Some(now.ms)))
          && db.requests == old(db.requests)[requestId := r.value]
          && db.allocations == old(db.allocations)[key := a.(usedDays := a.usedDays + q.allocation)]
  {
    var g := DecisionGuard(db, caller, requestId, ONLY_APPROVERS_APPROVE);
    if g.Some? {
      return Err(g.value);
    }
    var request := db.requests[requestId];
    var usage := UpdateAllocationUsage(db, request.userId, request.typeId, request.allocation, ADD, now);
    if usage.Err? {
      return Err(usage.error);
    }
    var updated := request.(status := APPROVED, approvedBy := Some(caller.id), approvedAt := Some(now.ms));
    db.requests := db.requests[requestId := updated];
    r := Ok(updated);
  }

  /** `rejectTimeOffRequest`: after the same guards the request is marked
      rejected by the caller at `now`; no allocation is touched. */
  method RejectTimeOffRequest(db: Db, caller: Caller, requestId: int, now: Instant) returns (r: Result<TimeOffRequest>)
    requires db.Valid()
    modifies db`requests
    ensures db.Valid()
    ensures var g := old(DecisionGuard(db, caller, requestId, ONLY_APPROVERS_REJECT));
      if g.Some? then
        r == Err(g.value) && db.requests == old(db.requests)
      else
        var q := old(db.requests)[requestId];
        && r == Ok(q.(status := REJECTED, approvedBy := Some(caller.id), approvedAt := Some(now.ms)))
        && db.requests == old(db.requests)[requestId := r.value]
  {
    var g := DecisionGuard(db, caller, requestId, ONLY_APPROVERS_REJECT);
    if g.Some? {
      return Err(g.value);
    }
    var updated := db.requests[requestId].(status := REJECTED, approvedBy := Some(caller.id), approvedAt := Some(now.ms));
    db.requests := db.requests[requestId := updated];
    r := Ok(updated);
  }

  /** `getTimeOffRequestById`: ADMIN and HR may read any request, anyone
      else only their own. */
  function GetTimeOffRequestById(requests: map<int, TimeOffRequest>, caller: Caller, requestId: int)
    : (r: Result<TimeOffRequest>)
    ensures requestId !in requests ==> r == Err(NotFound(REQUEST_NOT_FOUND))
    ensures requestId in requests ==>
              (r.Ok? <==> IsAdminOrHr(caller.role) || caller.id == requests[requestId].userId)
    ensures requestId in requests && r.Ok? ==> r.value == requests[requestId]
    ensures requestId in requests && r.Err? ==> r.error == Forbidden(ACCESS_DENIED)
  {
    if requestId !in requests then Err(NotFound(REQUEST_NOT_FOUND))
    else if !IsAdminOrHr(caller.role) && caller.id != requests[requestId].userId then Err(Forbidden(ACCESS_DENIED))
    else Ok(requests[requestId])
  }

  /** The store the traces below start from: employee 2 of company 1, whose
      time-off type 3 has an allocation of `days` days, none used, for `year`. */
  ghost predicate SampleStore(db: Db, days: real, year: int)
    reads db
  {
    && db.Valid()
    && 2 in db.users && db.users[2].companyId == 1
    && 3 in db.timeOffTypes && db.timeOffTypes[3].companyId == 1
    && AllocationKey(2, 3, year) in db.allocations
    && db.allocations[AllocationKey(2, 3, year)] == Allocation(days, 0.0)
  }

  /** Without a hold, two three-day requests against a five-day allocation
      both pass the check at creation and are both approved: six days are
      used out of five. */
  method OverdrawTrace(db: Db, day: int) returns (allocatedDays: real, usedDays: real)
    requires SampleStore(db, 5.0, 2026)
    modifies db`requests, db`nextId, db`allocations
    ensures allocatedDays == 5.0 && usedDays == 6.0
  {
    var employee, hr := Caller(2, USER, 1), Caller(9, HR, 1);
    var start, end := Instant(Midnight(day), 2026, 1), Instant(Midnight(day + 2), 2026, 1);
    var now := Instant(Midnight(day) - MS_PER_DAY, 2026, 1);
    var key := AllocationKey(2, 3, 2026);
    CalculateDaysInclusive(day, day + 2);
    var id1 := db.nextId;
    var first := CreateTimeOffRequest(db, employee, 3, start, end, None, None);
    assert first.Ok? && db.requests[id1].allocation == 3.0;
    var id2 := db.nextId;
    var second := CreateTimeOffRequest(db, employee, 3, start, end, None, None);
    assert second.Ok? && db.requests[id2].allocation == 3.0 && id1 != id2;
    assert db.requests[id1].status == PENDING && db.users[db.requests[id1].userId].companyId == 1;
    var approved1 := ApproveTimeOffRequest(db, hr, id1, now);
    assert db.allocations[key] == Allocation(5.0, 3.0);
    assert db.requests[id2].status == PENDING && db.users[db.requests[id2].userId].companyId == 1;
    var approved2 := ApproveTimeOffRequest(db, hr, id2, now);
    var row := db.allocations[key];
    allocatedDays, usedDays := row.allocatedDays, row.usedDays;
  }

  /** The check reads the start date's year and the charge the clock's year:
      a request starting in 2026, created against a 2026 allocation and
      approved while the clock still reads 2025, cannot be approved when
      there is no 2025 allocation; the request stays pending. */
  method CrossYearTrace(db: Db, day: int) returns (created: bool, approval: Result<TimeOffRequest>, status: RequestStatus)
    requires SampleStore(db, 10.0, 2026) && AllocationKey(2, 3, 2025) !in db.allocations
    modifies db`requests, db`nextId, db`allocations
    ensures created && approval == Err(Thrown(NOT_FOUND)) && status == PENDING
  {
    var employee, hr := Caller(2, USER, 1), Caller(9, HR, 1);
    var start, end := Instant(Midnight(day), 2026, 1), Instant(Midnight(day + 1), 2026, 1);
    var now := Instant(Midnight(day) - 3 * MS_PER_DAY, 2025, 12);
    CalculateDaysInclusive(day, day + 1);
    var id := db.nextId;
    var request := CreateTimeOffRequest(db, employee, 3, start, end, None, None);
    created := request.Ok?;
    assert db.requests[id].status == PENDING && db.users[db.requests[id].userId].companyId == 1;
    approval := ApproveTimeOffRequest(db, hr, id, now);
    status := db.requests[id].status;
  }

  /** Approving and then rejecting the same request: the rejection fails
      and the approval stands. */
  method ApproveThenRejectTrace(db: Db, day: int) returns (rejection: Result<TimeOffRequest>, status: RequestStatus)
    requires SampleStore(db, 10.0, 2026)
    modifies db`requests, db`nextId, db`allocations
    ensures rejection == Err(BadRequest(ALREADY_PROCESSED)) && status == APPROVED
  {
    var employee, hr := Caller(2, USER, 1), Caller(9, HR, 1);
    var start := Instant(Midnight(day), 2026, 1);
    var now := Instant(Midnight(day) - MS_PER_DAY, 2026, 1);
    var id := db.nextId;
    var request := CreateTimeOffRequest(db, employee, 3, start, start, None, None);
    assert CalculateDays(start.ms, start.ms) == 1;
    assert db.requests[id].status == PENDING && db.users[db.requests[id].userId].companyId == 1;
    var approval := ApproveTimeOffRequest(db, hr, id, now);
    assert db.requests[id].status == APPROVED;
    rejection := RejectTimeOffRequest(db, hr, id, now);
    status := db.requests[id].status;
  }
}
