/** The time-off ledger: the inclusive day count of a request, the
    availability check against the allocation of the start date's year, the
    `usedDays` update against the allocation of the current year, and the
    idempotent yearly initialisation of allocations. */
module TimeOffService {
  import opened Common
  import opened Calendar
  import opened Records
  import opened Text

  /** The word by which `createTimeOffRequest` recognises the check's errors. */
  const ALLOCATION: string := "allocation"
  const NOT_FOUND_FOR_YEAR: string := "Time off " + ALLOCATION + " not found for this year"
  const INSUFFICIENT: string := "Insufficient time off " + ALLOCATION
  const NOT_FOUND: string := "Time off allocation not found"
  /** The operation name that adds to `usedDays`; any other one subtracts. */
  const ADD: string := "add"

  function Abs(x: int): nat {
    if x < 0 then -x else x
  }

  /** `calculateDays(startDate, endDate)`: whole days between the timestamps,
      rounded up, plus one. */
  function CalculateDays(startDate: int, endDate: int): (r: int)
    ensures r >= 1
    ensures r == 1 <==> startDate == endDate
    ensures (r - 2) * MS_PER_DAY < Abs(endDate - startDate) <= (r - 1) * MS_PER_DAY || r == 1
  {
    var diff := Abs(endDate - startDate);
    (diff + MS_PER_DAY - 1) / MS_PER_DAY + 1
  }

  /** The count does not depend on the order of the two dates. */
  lemma CalculateDaysSymmetric(a: int, b: int)
    ensures CalculateDays(a, b) == CalculateDays(b, a)
  {
  }

  /** Between two midnights the count is inclusive: both end days count. */
  lemma CalculateDaysInclusive(a: int, b: int)
    ensures CalculateDays(Midnight(a), Midnight(b)) == Abs(b - a) + 1
  {
    var r := CalculateDays(Midnight(a), Midnight(b));
    var d := Abs(b - a);
    assert Abs(Midnight(b) - Midnight(a)) == d * MS_PER_DAY;
  }

  /** 2026-01-10 to 2026-01-12 counts three days. */
  lemma JanuaryTenToTwelve()
    ensures CalculateDays(Midnight(DayNumber(2026, 1, 10)), Midnight(DayNumber(2026, 1, 12))) == 3
  {
    CalculateDaysInclusive(DayNumber(2026, 1, 10), DayNumber(2026, 1, 12));
  }

  /** What `checkAllocationAvailability` returns. */
  datatype Availability = Availability(allocation: Allocation, requestedDays: int, availableDays: real)

  /** `checkAllocationAvailability`: the allocation is the one of the start
      date's calendar year; available days are allocated minus used. */
  function CheckAllocationAvailability(allocations: map<AllocationKey, Allocation>, userId: int, typeId: int,
                                       start: Instant, end: Instant): (r: Result<Availability>)
    ensures var key := AllocationKey(userId, typeId, start.year);
      key !in allocations ==> r == Err(Thrown(NOT_FOUND_FOR_YEAR))
    ensures var key := AllocationKey(userId, typeId, start.year);
      key in allocations ==>
        var a := allocations[key];
        var requested := CalculateDays(start.ms, end.ms);
        && (r.Err? <==> requested as real > a.allocatedDays - a.usedDays)
        && (r.Err? ==> r.error == Thrown(INSUFFICIENT))
        && (r.Ok? ==> r.value == Availability(a, requested, a.allocatedDays - a.usedDays))
  {
    var key := AllocationKey(userId, typeId, start.year);
    var requestedDays := CalculateDays(start.ms, end.ms);
    if key !in allocations then Err(Thrown(NOT_FOUND_FOR_YEAR))
    else
      var allocation := allocations[key];
      var availableDays := allocation.allocatedDays - allocation.usedDays;
      if requestedDays as real > availableDays then Err(Thrown(INSUFFICIENT))
      else Ok(Availability(allocation, requestedDays, availableDays))
  }

  /** The new `usedDays` of `updateAllocationUsage`. */
  function NewUsedDays(usedDays: real, days: real, operation: string): (r: real)
    ensures operation == ADD ==> r - usedDays == days
    ensures operation != ADD ==> r >= 0.0
    ensures operation != ADD && days <= usedDays ==> usedDays - r == days
    ensures operation != ADD && days > usedDays ==> r == 0.0
  {
    if operation == ADD then usedDays + days
    else if usedDays - days < 0.0 then 0.0
    else usedDays - days
  }

  /** Subtracting what was added restores a non-negative balance. */
  lemma AddThenSubtract(usedDays: real, days: real, other: string)
    requires usedDays >= 0.0 && days >= 0.0 && other != ADD
    ensures NewUsedDays(NewUsedDays(usedDays, days, ADD), days, other) == usedDays
  {
  }

  /** `updateAllocationUsage`, charging the allocation of the clock's year. */
  method UpdateAllocationUsage(db: Db, userId: int, typeId: int, days: real, operation: string, now: Instant)
    returns (r: Result<real>)
    modifies db`allocations
    ensures var key := AllocationKey(userId, typeId, now.year);
      if key !in old(db.allocations) then
        r == Err(Thrown(NOT_FOUND)) && db.allocations == old(db.allocations)
      else
        var a := old(db.allocations)[key];
        && r == Ok(NewUsedDays(a.usedDays, days, operation))
        && db.allocations == old(db.allocations)[key := a.(usedDays := r.value)]
  {
    var key := AllocationKey(userId, typeId, now.year);
    if key !in db.allocations {
      return Err(Thrown(NOT_FOUND));
    }
    var allocation := db.allocations[key];
    var newUsedDays;
    if operation == ADD {
      newUsedDays := allocation.usedDays + days;
    } else {
      newUsedDays := allocation.usedDays - days;
      if newUsedDays < 0.0 {
        newUsedDays := 0.0;
      }
    }
    db.allocations := db.allocations[key := allocation.(usedDays := newUsedDays)];
    r := Ok(newUsedDays);
  }

  /** The time-off types of a company. */
  function CompanyTypes(types: map<int, TimeOffType>, companyId: int): (ts: set<int>)
    ensures forall t :: t in ts <==> t in types && types[t].companyId == companyId
  {
    set t | t in types && types[t].companyId == companyId
  }

  /** The row an upsert creates for a type: its maximum (or 0) allocated, nothing used. */
  function FreshAllocation(types: map<int, TimeOffType>, typeId: int): Allocation {
    Allocation(if typeId in types then types[typeId].maxDays.GetOr(0.0) else 0.0, 0.0)
  }

  /** The allocation table after upserting a row for each type in `ts`. */
  function InitializedFor(allocations: map<AllocationKey, Allocation>, types: map<int, TimeOffType>,
                          ts: set<int>, userId: int, year: int): (r: map<AllocationKey, Allocation>)
    ensures forall k :: k in allocations ==> k in r && r[k] == allocations[k]
    ensures forall t :: t in ts ==> AllocationKey(userId, t, year) in r
    ensures forall k :: k in r && k !in allocations ==>
              k.userId == userId && k.year == year && k.typeId in ts && r[k] == FreshAllocation(types, k.typeId)
  {
    map k | k in allocations.Keys + (set t | t in ts :: AllocationKey(userId, t, year)) ::
      if k in allocations then allocations[k] else FreshAllocation(types, k.typeId)
  }

  /** The allocation table after `initializeAllocations(userId, companyId, year)`. */
  function Initialized(allocations: map<AllocationKey, Allocation>, types: map<int, TimeOffType>,
                       userId: int, companyId: int, year: int): (r: map<AllocationKey, Allocation>)
    ensures forall k :: k in allocations ==> k in r && r[k] == allocations[k]
    ensures forall t :: t in types && types[t].companyId == companyId ==> AllocationKey(userId, t, year) in r
    ensures forall k :: k in r && k !in allocations ==>
              && k.userId == userId && k.year == year && k.typeId in types
              && types[k.typeId].companyId == companyId
              && r[k] == Allocation(types[k.typeId].maxDays.GetOr(0.0), 0.0)
  {
    InitializedFor(allocations, types, CompanyTypes(types, companyId), userId, year)
  }

  /** Running the initialisation twice changes nothing the first run did not. */
  lemma InitializeIdempotent(allocations: map<AllocationKey, Allocation>, types: map<int, TimeOffType>,
                             userId: int, companyId: int, year: int)
    ensures var once := Initialized(allocations, types, userId, companyId, year);
            Initialized(once, types, userId, companyId, year) == once
  {
    var once := Initialized(allocations, types, userId, companyId, year);
    var twice := Initialized(once, types, userId, companyId, year);
    assert twice.Keys == once.Keys;
  }

  /** One more upsert extends the table by at most that type's row. */
  lemma InitializedForStep(allocations: map<AllocationKey, Allocation>, types: map<int, TimeOffType>,
                           ts: set<int>, t: int, userId: int, year: int)
    ensures var before := InitializedFor(allocations, types, ts, userId, year);
            var key := AllocationKey(userId, t, year);
            InitializedFor(allocations, types, ts + {t}, userId, year)
              == if key in before then before else before[key := FreshAllocation(types, t)]
  {
    var before := InitializedFor(allocations, types, ts, userId, year);
    var key := AllocationKey(userId, t, year);
    var after := InitializedFor(allocations, types, ts + {t}, userId, year);
    var expected := if key in before then before else before[key := FreshAllocation(types, t)];
    assert after.Keys == expected.Keys;
  }

  /** `initializeAllocations`: one upsert per type of the company, existing rows untouched. */
  method InitializeAllocations(db: Db, userId: int, companyId: int, year: int)
    modifies db`allocations
    ensures db.allocations == Initialized(old(db.allocations), db.timeOffTypes, userId, companyId, year)
  {
    var companyTypes := CompanyTypes(db.timeOffTypes, companyId);
    var remaining := companyTypes;
    ghost var done: set<int> := {};
    assert InitializedFor(db.allocations, db.timeOffTypes, done, userId, year) == db.allocations;
    while remaining != {}
      invariant remaining <= companyTypes && done == companyTypes - remaining
      invariant db.allocations == InitializedFor(old(db.allocations), db.timeOffTypes, done, userId, year)
      decreases remaining
    {
      var t := Pick(remaining);
      var key := AllocationKey(userId, t, year);
      InitializedForStep(old(db.allocations), db.timeOffTypes, done, t, userId, year);
      if key !in db.allocations {
        db.allocations := db.allocations[key := FreshAllocation(db.timeOffTypes, t)];
      }
      remaining := remaining - {t};
      done := done + {t};
    }
  }
}
