/** The employee directory: the pagination arithmetic of the listing, who may
    see an employee, creating an employee with a derived login id, the
    allow-listed update, and who may read an employee's attendance and time off. */
module EmployeesController {
  import opened Common
  import opened Calendar
  import opened Records
  import opened AuthService
  import opened Identity
  import AttendanceController

  const DEFAULT_PAGE: int := 1
  const DEFAULT_LIMIT: int := 10
  const EMPLOYEE_NOT_FOUND: string := "Employee not found"
  const ACCESS_DENIED: string := "Access denied"
  const OWN_PROFILE_ONLY: string := "You can only view your own profile"
  const ONLY_APPROVERS_CREATE: string := "Only Admin or HR can create employees"
  const EMAIL_EXISTS: string := "User with this email already exists"
  const OWN_UPDATE_ONLY: string := "You can only update your own profile or be Admin/HR"
  /** A fragment of the TypeError of reading a property of the `null` a missing company gives. */
  const NULL_COMPANY: string := "Cannot read properties of null"

  /** `Math.ceil(total / limit)`. A zero limit gives Infinity or NaN, which is
      no page count. */
  function PageCount(total: nat, limit: int): (r: Option<int>)
    ensures r.None? <==> limit == 0
    ensures limit > 0 ==> r.Some? && (r.value - 1) * limit < total <= r.value * limit
    ensures limit < 0 ==> r.Some? && r.value * limit <= total < (r.value - 1) * limit
  {
    if limit == 0 then None
    else if limit > 0 then
      var q := (total + limit - 1) / limit;
      CeilBounds(total, limit);
      Some(q)
    else
      var k := total / -limit;
      FloorBounds(total, -limit);
      Some(-k)
  }

  lemma CeilBounds(total: nat, limit: int)
    requires limit > 0
    ensures ((total + limit - 1) / limit - 1) * limit < total <= ((total + limit - 1) / limit) * limit
  {
    var q := (total + limit - 1) / limit;
    var m := (total + limit - 1) % limit;
    assert total + limit - 1 == q * limit + m;
    assert (q - 1) * limit == q * limit - limit;
  }

  lemma FloorBounds(total: nat, l: int)
    requires l > 0
    ensures (-(total / l)) * -l <= total < (-(total / l) - 1) * -l
  {
    var k := total / l;
    assert total == k * l + total % l;
    assert (-k) * -l == k * l;
    assert (-k - 1) * -l == k * l + l;
  }

  /** `skip = (parseInt(page) - 1) * parseInt(limit)` */
  function Skip(page: int, limit: int): int {
    (page - 1) * limit
  }

  /** The pagination block of `listEmployees`, page and limit defaulting to 1 and 10. */
  datatype Pagination = Pagination(page: int, limit: int, total: nat, pages: Option<int>, skip: int)

  function Paginate(page: Option<int>, limit: Option<int>, total: nat): (p: Pagination)
    ensures p.page == page.GetOr(DEFAULT_PAGE) && p.limit == limit.GetOr(DEFAULT_LIMIT) && p.total == total
    ensures p.skip == Skip(p.page, p.limit) && p.pages == PageCount(total, p.limit)
  {
    var pg := page.GetOr(DEFAULT_PAGE);
    var lim := limit.GetOr(DEFAULT_LIMIT);
    Pagination(pg, lim, total, PageCount(total, lim), Skip(pg, lim))
  }

  /** With a positive limit the pages tile the result: the i-th employee
      (from 0) is on page i / limit + 1, within the window that page skips
      to, and that page is at most the page count. */
  lemma PagesTileTheResult(total: nat, limit: int, i: int)
    requires limit > 0 && 0 <= i < total
    ensures var k := i / limit + 1;
            && 1 <= k <= PageCount(total, limit).value
            && Skip(k, limit) <= i < Skip(k, limit) + limit
  {
    var k := i / limit + 1;
    var pages := PageCount(total, limit).value;
    assert i == (i / limit) * limit + i % limit;
    assert Skip(k, limit) == (i / limit) * limit;
    if k > pages {
      assert pages <= i / limit;
      MulMonotone(pages, i / limit, limit);
      assert false;
    }
  }

  lemma MulMonotone(a: int, b: int, c: int)
    requires a <= b && c > 0
    ensures a * c <= b * c
  {
  }

  /** The default listing shows employees 0 to 9. */
  lemma DefaultFirstPage(total: nat)
    ensures Paginate(None, None, total).skip == 0 && Paginate(None, None, total).limit == 10
  {
  }

  /** `getEmployee(id)`: the employee exists, belongs to the caller's company,
      and a USER may only view themself. */
  function GetEmployee(users: map<int, User>, caller: Caller, userId: int): (r: Result<PublicUser>)
    ensures userId !in users ==> r == Err(NotFound(EMPLOYEE_NOT_FOUND))
    ensures userId in users && users[userId].companyId != caller.companyId ==> r == Err(Forbidden(ACCESS_DENIED))
    ensures userId in users && users[userId].companyId == caller.companyId && caller.role == USER && caller.id != userId
            ==> r == Err(Forbidden(OWN_PROFILE_ONLY))
    ensures r.Ok? <==> userId in users && users[userId].companyId == caller.companyId && (caller.role != USER || caller.id == userId)
    ensures r.Ok? ==> r.value == WithoutPassword(users[userId])
  {
    if userId !in users then Err(NotFound(EMPLOYEE_NOT_FOUND))
    else if users[userId].companyId != caller.companyId then Err(Forbidden(ACCESS_DENIED))
    else if caller.role == USER && caller.id != userId then Err(Forbidden(OWN_PROFILE_ONLY))
    else Ok(WithoutPassword(users[userId]))
  }

  /** `x ? parseInt(x) : null`; the conversion itself is not modelled. */
  function IdOrNull(v: Value): Value {
    if Truthy(v) then v else VNull
  }

  /** The descriptive columns `createEmployee` writes. */
  function EmployeeFields(name: string, phone: Option<string>, jobPosition: Option<string>, departmentId: Value,
                          locationId: Value, managerId: Value, dateOfJoining: Value, now: Instant): map<string, Value> {
    map["name" := VStr(name), "phone" := StrOrNull(phone), "jobPosition" := StrOrNull(jobPosition),
        "departmentId" := IdOrNull(departmentId), "locationId" := IdOrNull(locationId),
        "managerId" := IdOrNull(managerId),
        "dateOfJoining" := if Truthy(dateOfJoining) then VDate(dateOfJoining) else VDate(VNum(now.ms as real))]
  }

  /** A user of the company already has the email as email or login id. */
  predicate EmailInCompany(users: map<int, User>, companyId: int, email: string) {
    exists u :: u in users && users[u].companyId == companyId && (users[u].email == email || users[u].loginId == email)
  }

  /** A truthy `companyName` other than the caller's company's name moves the
      new employee to the company of that name. */
  predicate SwitchesCompany(companyName: Option<string>, current: string) {
    companyName.Some? && companyName.value != "" && companyName.value != current
  }

  /** The companies after the lookup: a new company of that name is created
      only when the employee moves to a name no company has. */
  ghost predicate CompaniesAfterLookup(before: map<int, Company>, nextId: int, after: map<int, Company>, home: int,
                                       companyName: Option<string>) {
    && home in before
    && var created := SwitchesCompany(companyName, before[home].name) && !HasCompanyNamed(before, companyName.value);
       && (created ==> after == before[nextId := Company(companyName.value, CompanyCode(companyName.value))])
       && (!created ==> after == before)
  }

  /** The company the new employee joins: the caller's, or the one named. */
  ghost predicate JoinsCompany(companies: map<int, Company>, home: int, current: string, companyName: Option<string>,
                               companyId: int) {
    && companyId in companies
    && (SwitchesCompany(companyName, current) ==> companies[companyId].name == companyName.value)
    && (!SwitchesCompany(companyName, current) ==> companyId == home)
  }

  /** The company lookup of `createEmployee`. */
  method EmployeeCompany(db: Db, home: int, companyName: Option<string>) returns (companyId: int)
    requires db.Valid() && home in db.companies
    modifies db`companies, db`nextId
    ensures db.Valid()
    ensures JoinsCompany(db.companies, home, old(db.companies)[home].name, companyName, companyId)
    ensures CompaniesAfterLookup(old(db.companies), old(db.nextId), db.companies, home, companyName)
    ensures db.nextId == old(db.nextId) + (if db.companies == old(db.companies) then 0 else 1)
  {
    companyId := home;
    if SwitchesCompany(companyName, db.companies[home].name) {
      companyId := FindOrCreateCompany(db, companyName.value);
    }
  }

  /** The company lookup and the insert of `createEmployee`, once its guards passed. */
  method JoinAndAddUser(db: Db, home: int, companyName: Option<string>, name: string, email: string,
                        hashedPassword: string, role: Role, joinYear: int, fields: map<string, Value>)
    returns (r: Result<int>)
    requires db.Valid() && home in db.companies
    modifies db`companies, db`users, db`nextId
    ensures db.Valid()
    ensures CompaniesAfterLookup(old(db.companies), old(db.nextId), db.companies, home, companyName)
    ensures r.Err? ==> r == Err(Thrown(EMAIL_TAKEN))
    ensures var id := old(db.nextId) + (if db.companies == old(db.companies) then 0 else 1);
            && (EmailTaken(old(db.users), email) ==>
                  r == Err(Thrown(EMAIL_TAKEN)) && db.users == old(db.users) && db.nextId == id)
            && (!EmailTaken(old(db.users), email) ==>
                  && r == Ok(id) && id !in old(db.users) && id in db.users && db.nextId == id + 1
                  && db.users == old(db.users)[id := db.users[id]]
                  && JoinsCompany(db.companies, home, old(db.companies)[home].name, companyName, db.users[id].companyId)
                  && IsNewUser(db.users[id], db.companies, old(db.users), db.users[id].companyId, name, email,
                               hashedPassword, role, joinYear, fields))
  {
    var companyId := EmployeeCompany(db, home, companyName);
    r := AddUser(db, companyId, name, email, hashedPassword, role, joinYear, fields);
  }

  /** `createEmployee`. `joiningYear` is the year `new Date(dateOfJoining)`
      falls in; `hashedPassword` the hash of the generated password. */
  method CreateEmployee(db: Db, caller: Caller, companyName: Option<string>, name: string, email: string,
                        phone: Option<string>, role: Option<Role>, jobPosition: Option<string>,
                        departmentId: Value, locationId: Value, managerId: Value,
                        dateOfJoining: Value, joiningYear: int, hashedPassword: string, now: Instant)
    returns (r: Result<int>)
    requires db.Valid()
    modifies db`companies, db`users, db`nextId
    ensures db.Valid()
    ensures !IsAdminOrHr(caller.role) ==> r == Err(Forbidden(ONLY_APPROVERS_CREATE))
    ensures IsAdminOrHr(caller.role) && EmailInCompany(old(db.users), caller.companyId, email) ==>
              r == Err(BadRequest(EMAIL_EXISTS))
    ensures (IsAdminOrHr(caller.role) && !EmailInCompany(old(db.users), caller.companyId, email)
             && caller.companyId !in old(db.companies)) ==> r == Err(Thrown(NULL_COMPANY))
    ensures r.Err? && r.error != Thrown(EMAIL_TAKEN) ==>
              db.companies == old(db.companies) && db.users == old(db.users) && db.nextId == old(db.nextId)
    ensures (IsAdminOrHr(caller.role) && !EmailInCompany(old(db.users), caller.companyId, email)
             && caller.companyId in old(db.companies)) ==>
              && CompaniesAfterLookup(old(db.companies), old(db.nextId), db.companies, caller.companyId, companyName)
              && var id := old(db.nextId) + (if db.companies == old(db.companies) then 0 else 1);
                 && (EmailTaken(old(db.users), email) ==>
                       r == Err(Thrown(EMAIL_TAKEN)) && db.users == old(db.users) && db.nextId == id)
                 && (!EmailTaken(old(db.users), email) ==>
                       && r == Ok(id) && id !in old(db.users) && id in db.users && db.nextId == id + 1
                       && db.users == old(db.users)[id := db.users[id]]
                       && JoinsCompany(db.companies, caller.companyId, old(db.companies)[caller.companyId].name,
                                       companyName, db.users[id].companyId)
                       && IsNewUser(db.users[id], db.companies, old(db.users), db.users[id].companyId, name, email,
                                    hashedPassword, role.GetOr(USER), if Truthy(dateOfJoining) then joiningYear else now.year,
                                    EmployeeFields(name, phone, jobPosition, departmentId, locationId, managerId,
                                                   dateOfJoining, now)))
  {
    if !IsAdminOrHr(caller.role) {
      return Err(Forbidden(ONLY_APPROVERS_CREATE));
    }
    if EmailInCompany(db.users, caller.companyId, email) {
      return Err(BadRequest(EMAIL_EXISTS));
    }
    if caller.companyId !in db.companies {
      return Err(Thrown(NULL_COMPANY));
    }
    var joinYear := if Truthy(dateOfJoining) then joiningYear else now.year;
    var fields := EmployeeFields(name, phone, jobPosition, departmentId, locationId, managerId, dateOfJoining, now);
    r := JoinAndAddUser(db, caller.companyId, companyName, name, email, hashedPassword, role.GetOr(USER), joinYear, fields);
  }

  /** The fields `updateEmployee` accepts. */
  const EMPLOYEE_FIELDS: seq<string> := [
    "name", "phone", "jobPosition", "departmentId", "locationId", "managerId", "profilePictureUrl",
    "dateOfBirth", "residingAddress", "nationality", "personalEmail", "gender", "maritalStatus",
    "about", "whatILoveAboutJob", "interestsAndHobbies", "empCode"]
  const DATE_OF_BIRTH: string := "dateOfBirth"

  /** A body value as it is stored: a truthy value of a date field becomes a Date. */
  function Converted(field: string, v: Value, dateFields: set<string>): Value {
    if field in dateFields && Truthy(v) then VDate(v) else v
  }

  /** The `updateData` an allow-list loop builds: each allowed field the body
      defines, converted. */
  function AllowListCopy(body: map<string, Value>, allowed: seq<string>, dateFields: set<string>): map<string, Value> {
    map k | k in body && k in allowed :: Converted(k, body[k], dateFields)
  }

  /** The columns after `update({ data: updateData })`. */
  function ApplyUpdate(fields: map<string, Value>, body: map<string, Value>, allowed: seq<string>,
                       dateFields: set<string>): map<string, Value> {
    fields + AllowListCopy(body, allowed, dateFields)
  }

  /** An update writes exactly the allowed fields the body defines, converted,
      and leaves every other column as it was. */
  lemma ApplyUpdateFrame(fields: map<string, Value>, body: map<string, Value>, allowed: seq<string>,
                         dateFields: set<string>, k: string)
    ensures var after := ApplyUpdate(fields, body, allowed, dateFields);
            && (k in body && k in allowed ==> k in after && after[k] == Converted(k, body[k], dateFields))
            && (!(k in body && k in allowed) ==> (k in after <==> k in fields) && (k in fields ==> after[k] == fields[k]))
  {
  }

  /** The allow-list loop: for each allowed field, in order, copy the body's
      value when it is not `undefined`, converting a truthy date. */
  method BuildUpdateData(body: map<string, Value>, allowed: seq<string>, dateFields: set<string>)
    returns (updateData: map<string, Value>)
    ensures updateData == AllowListCopy(body, allowed, dateFields)
  {
    updateData := map[];
    var i := 0;
    while i < |allowed|
      invariant 0 <= i <= |allowed|
      invariant updateData == AllowListCopy(body, allowed[..i], dateFields)
    {
      var field := allowed[i];
      if field in body {
        if field in dateFields && Truthy(body[field]) {
          updateData := updateData[field := VDate(body[field])];
        } else {
          updateData := updateData[field := body[field]];
        }
      }
      assert allowed[..i + 1] == allowed[..i] + [field];
      i := i + 1;
    }
    assert allowed[..i] == allowed;
  }

  /** `updateEmployee(id, body)` */
  method UpdateEmployee(db: Db, caller: Caller, userId: int, body: map<string, Value>) returns (r: Result<PublicUser>)
    requires db.Valid()
    modifies db`users
    ensures db.Valid()
    ensures userId !in old(db.users) ==> r == Err(NotFound(EMPLOYEE_NOT_FOUND))
    ensures userId in old(db.users) && old(db.users)[userId].companyId != caller.companyId ==> r == Err(Forbidden(ACCESS_DENIED))
    ensures (userId in old(db.users) && old(db.users)[userId].companyId == caller.companyId
             && !IsAdminOrHr(caller.role) && caller.id != userId) ==> r == Err(Forbidden(OWN_UPDATE_ONLY))
    ensures r.Err? ==> db.users == old(db.users)
    ensures r.Ok? ==>
              var before := old(db.users)[userId];
              var after := before.(fields := ApplyUpdate(before.fields, body, EMPLOYEE_FIELDS, {DATE_OF_BIRTH}));
              db.users == old(db.users)[userId := after] && r.value == WithoutPassword(after)
    ensures r.Ok? <==> userId in old(db.users) && old(db.users)[userId].companyId == caller.companyId
                       && (IsAdminOrHr(caller.role) || caller.id == userId)
  {
    if userId !in db.users {
      return Err(NotFound(EMPLOYEE_NOT_FOUND));
    }
    var employee := db.users[userId];
    if employee.companyId != caller.companyId {
      return Err(Forbidden(ACCESS_DENIED));
    }
    if !IsAdminOrHr(caller.role) && caller.id != userId {
      return Err(Forbidden(OWN_UPDATE_ONLY));
    }
    var updateData := BuildUpdateData(body, EMPLOYEE_FIELDS, {DATE_OF_BIRTH});
    var updated := employee.(fields := employee.fields + updateData);
    db.users := db.users[userId := updated];
    r := Ok(WithoutPassword(updated));
  }

  /** Who may read an employee's attendance and time off: ADMIN and HR anyone's,
      others only their own. The employee's company is not consulted. */
  predicate MayReadRecords(caller: Caller, userId: int) {
    IsAdminOrHr(caller.role) || caller.id == userId
  }

  /** `getEmployeeAttendance(id, month, year)`: the employee's records from the
      first to the last day of the month asked for, or of the clock's month. */
  function GetEmployeeAttendance(rows: map<AttendanceKey, Attendance>, caller: Caller, userId: int,
                                 month: Option<int>, year: Option<int>, now: Instant)
    : (r: Result<map<AttendanceKey, Attendance>>)
    ensures r.Err? <==> !MayReadRecords(caller, userId)
    ensures r.Err? ==> r.error == Forbidden(ACCESS_DENIED)
    ensures r.Ok? ==>
              var range := QueryMonthRange(month, year, now);
              && (forall k :: k in r.value <==> k in rows && k.userId == userId && InRange(k.date, range))
              && (forall k :: k in r.value ==> r.value[k] == rows[k])
  {
    if !MayReadRecords(caller, userId) then Err(Forbidden(ACCESS_DENIED))
    else Ok(AttendanceController.RowsInRange(rows, userId, QueryMonthRange(month, year, now)))
  }

  /** `getEmployeeTimeOff(id)`: the employee's requests. */
  function GetEmployeeTimeOff(requests: map<int, TimeOffRequest>, caller: Caller, userId: int)
    : (r: Result<map<int, TimeOffRequest>>)
    ensures r.Err? <==> !MayReadRecords(caller, userId)
    ensures r.Err? ==> r.error == Forbidden(ACCESS_DENIED)
    ensures r.Ok? ==> forall q :: q in r.value <==> q in requests && requests[q].userId == userId
    ensures r.Ok? ==> forall q :: q in r.value ==> r.value[q] == requests[q]
  {
    if !MayReadRecords(caller, userId) then Err(Forbidden(ACCESS_DENIED))
    else Ok(map q | q in requests && requests[q].userId == userId :: requests[q])
  }
}
