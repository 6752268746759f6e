/** The signed-in user's own profile: the allow-listed profile update, the
    salary view with provident-fund figures, the administrator's salary
    update, and the skill and certification rows a user owns. */
module ProfileController {
  import opened Common
  import opened Records
  import opened SalaryService
  import opened EmployeesController

  const ACCESS_DENIED: string := "Access denied"
  const SALARY_INFO_NOT_FOUND: string := "Salary information not found"
  const ONLY_ADMIN_SALARY: string := "Only Admin can update salary"
  const USER_NOT_FOUND: string := "User not found"
  const SKILL_NOT_FOUND: string := "Skill not found"
  const SKILL_ALREADY_ADDED: string := "Skill already added"
  const CERTIFICATION_NOT_FOUND: string := "Certification not found"
  /** A fragment of Prisma's message when `update` finds no row with the given id. */
  const RECORD_NOT_FOUND: string := "Record to update not found."
  /** A fragment of Prisma's message when `create` lacks a required argument. */
  const MISSING_ARGUMENT: string := "is missing."
  /** What `new Decimal(undefined)` raises. */
  const INVALID_DECIMAL: string := "[DecimalError] Invalid argument: undefined"

  /** The fields `updateProfile` accepts. */
  const PROFILE_FIELDS: seq<string> := [
    "name", "phone", "profilePictureUrl", "jobPosition", "dateOfBirth", "residingAddress", "nationality",
    "personalEmail", "gender", "maritalStatus", "about", "whatILoveAboutJob", "interestsAndHobbies", "empCode"]

  /** `updateProfile`: the caller's own row gets the allow-listed fields of the
      body; the organisational fields (department, location, manager) are not
      among them. Updating a row that is gone raises Prisma's error. */
  method UpdateProfile(db: Db, caller: Caller, body: map<string, Value>) returns (r: Result<PublicUser>)
    requires db.Valid()
    modifies db`users
    ensures db.Valid()
    ensures caller.id !in old(db.users) ==> r == Err(Thrown(RECORD_NOT_FOUND)) && db.users == old(db.users)
    ensures caller.id in old(db.users) ==>
              var before := old(db.users)[caller.id];
              var after := before.(fields := ApplyUpdate(before.fields, body, PROFILE_FIELDS, {DATE_OF_BIRTH}));
              db.users == old(db.users)[caller.id := after] && r == Ok(WithoutPassword(after))
  {
    var updateData := BuildUpdateData(body, PROFILE_FIELDS, {DATE_OF_BIRTH});
    if caller.id !in db.users {
      return Err(Thrown(RECORD_NOT_FOUND));
    }
    var user := db.users[caller.id];
    var updated := user.(fields := user.fields + updateData);
    db.users := db.users[caller.id := updated];
    r := Ok(WithoutPassword(updated));
  }

  /** The profile update cannot move a user to another department, location
      or manager, nor touch a column outside the allow-list. */
  lemma ProfileKeepsOrganisation(fields: map<string, Value>, body: map<string, Value>, k: string)
    requires k !in PROFILE_FIELDS
    ensures var after := ApplyUpdate(fields, body, PROFILE_FIELDS, {DATE_OF_BIRTH});
            (k in after <==> k in fields) && (k in fields ==> after[k] == fields[k])
  {
    ApplyUpdateFrame(fields, body, PROFILE_FIELDS, {DATE_OF_BIRTH}, k);
  }

  /** The organisational fields are in the employee allow-list only. */
  lemma OrganisationNotInProfile()
    ensures "departmentId" !in PROFILE_FIELDS && "locationId" !in PROFILE_FIELDS && "managerId" !in PROFILE_FIELDS
  {
  }

  lemma OrganisationInEmployeeFields()
    ensures "departmentId" in EMPLOYEE_FIELDS && "locationId" in EMPLOYEE_FIELDS && "managerId" in EMPLOYEE_FIELDS
  {
    assert EMPLOYEE_FIELDS[3] == "departmentId" && EMPLOYEE_FIELDS[4] == "locationId" && EMPLOYEE_FIELDS[5] == "managerId";
  }

  /** A salary with its components and the provident-fund contributions. */
  datatype SalaryView = SalaryView(salary: Salary, components: seq<SalaryComponent>, employeePF: real, employerPF: real)

  /** Only an ADMIN may read another user's salary. */
  predicate MayReadSalary(caller: Caller, target: int) {
    caller.role == ADMIN || caller.id == target
  }

  /** `getSalary(userId?)`: the salary of the user asked for, or the
      caller's own; both contributions are the rate applied to the Basic
      component's amount. */
  function GetSalary(salaries: map<int, Salary>, components: seq<SalaryComponent>, caller: Caller,
                     userId: Option<int>): (r: Result<SalaryView>)
    ensures var target := userId.GetOr(caller.id);
            && (!MayReadSalary(caller, target) ==> r == Err(Forbidden(ACCESS_DENIED)))
            && (MayReadSalary(caller, target) && target !in salaries ==> r == Err(NotFound(SALARY_INFO_NOT_FOUND)))
            && (r.Ok? <==> MayReadSalary(caller, target) && target in salaries)
            && (r.Ok? ==> r.value.salary == salaries[target])
    ensures r.Ok? ==> forall c :: c in r.value.components <==> c in components && c.salaryId == r.value.salary.id
    ensures r.Ok? ==> && r.value.employeePF == r.value.employerPF
                      && r.value.employeePF * 100.0 == GetBasicSalary(r.value.components) * r.value.salary.pfRate
  {
    var target := userId.GetOr(caller.id);
    if !MayReadSalary(caller, target) then Err(Forbidden(ACCESS_DENIED))
    else if target !in salaries then Err(NotFound(SALARY_INFO_NOT_FOUND))
    else
      var salary := salaries[target];
      var list := ComponentsOf(components, salary.id);
      ComponentsOfMembers(components, salary.id);
      var pf := CalculatePF(GetBasicSalary(list), salary.pfRate);
      Ok(SalaryView(salary, list, pf, pf))
  }

  /** HR reads only its own salary. */
  lemma HrReadsOnlyOwnSalary(salaries: map<int, Salary>, components: seq<SalaryComponent>, caller: Caller, userId: int)
    requires caller.role == HR && userId != caller.id
    ensures GetSalary(salaries, components, caller, Some(userId)) == Err(Forbidden(ACCESS_DENIED))
  {
  }

  /** The salary columns of an `updateSalary` body; `None` is `undefined`. */
  datatype SalaryInput = SalaryInput(
    monthWage: Option<real>,
    yearlyWage: Option<real>,
    workingDaysPerWeek: Option<real>,
    breakTime: Option<real>,
    pfRate: Option<real>,
    professionalTax: Option<real>)

  /** `x ? new Decimal(x) : undefined`, then the undefined keys deleted: a
      truthy value replaces the stored one. */
  function Keep(given: Option<real>, stored: real): (r: real)
    ensures TruthyNum(given) ==> r == given.value
    ensures !TruthyNum(given) ==> r == stored
  {
    if TruthyNum(given) then given.value else stored
  }

  /** `prisma.salary.update({ data: salaryData })`: zero and absent values
      leave their columns as they were. */
  function PatchSalary(s: Salary, p: SalaryInput): (r: Salary)
    ensures r.id == s.id
    ensures (p.monthWage == None || p.monthWage == Some(0.0)) ==> r.monthWage == s.monthWage
    ensures (p.pfRate == None || p.pfRate == Some(0.0)) ==> r.pfRate == s.pfRate
  {
    Salary(s.id, Keep(p.monthWage, s.monthWage), Keep(p.yearlyWage, s.yearlyWage),
           Keep(p.workingDaysPerWeek, s.workingDaysPerWeek), Keep(p.breakTime, s.breakTime),
           Keep(p.pfRate, s.pfRate), Keep(p.professionalTax, s.professionalTax))
  }

  /** `prisma.salary.create` with the defaults: a twelve-month year, a
      five-day week, no break, a 12% rate and a professional tax of 200. */
  function NewSalary(id: int, p: SalaryInput): (r: Salary)
    requires p.monthWage.Some?
    ensures r.id == id && r.monthWage == p.monthWage.value
    ensures !TruthyNum(p.yearlyWage) ==> r.yearlyWage == 12.0 * p.monthWage.value
    ensures !TruthyNum(p.workingDaysPerWeek) ==> r.workingDaysPerWeek == 5.0
    ensures !TruthyNum(p.breakTime) ==> r.breakTime == 0.0
    ensures !TruthyNum(p.pfRate) ==> r.pfRate == 12.0
    ensures !TruthyNum(p.professionalTax) ==> r.professionalTax == 200.0
  {
    var m := p.monthWage.value;
    Salary(id, m, Keep(p.yearlyWage, m * 12.0), Keep(p.workingDaysPerWeek, 5.0), Keep(p.breakTime, 0.0),
           Keep(p.pfRate, 12.0), Keep(p.professionalTax, 200.0))
  }

  /** The salary update or creation of `updateSalary`; a new salary without a
      month wage fails in the Decimal constructor. */
  method SaveSalary(db: Db, userId: int, p: SalaryInput) returns (r: Result<Salary>)
    requires db.Valid() && userId in db.users
    modifies db`salaries, db`nextId
    ensures db.Valid()
    ensures userId in old(db.salaries) ==>
              && r == Ok(PatchSalary(old(db.salaries)[userId], p))
              && db.salaries == old(db.salaries)[userId := r.value] && db.nextId == old(db.nextId)
    ensures userId !in old(db.salaries) && p.monthWage.None? ==>
              r == Err(Thrown(INVALID_DECIMAL)) && db.salaries == old(db.salaries) && db.nextId == old(db.nextId)
    ensures userId !in old(db.salaries) && p.monthWage.Some? ==>
              && r == Ok(NewSalary(old(db.nextId), p))
              && db.salaries == old(db.salaries)[userId := r.value] && db.nextId == old(db.nextId) + 1
    ensures r.Ok? ==> SalaryExists(db.salaries, r.value.id)
  {
    if userId in db.salaries {
      var salary := PatchSalary(db.salaries[userId], p);
      db.salaries := db.salaries[userId := salary];
      r := Ok(salary);
      assert db.salaries[userId].id == salary.id;
    } else if p.monthWage.None? {
      r := Err(Thrown(INVALID_DECIMAL));
    } else {
      var salary := NewSalary(db.nextId, p);
      db.salaries := db.salaries[userId := salary];
      db.nextId := db.nextId + 1;
      r := Ok(salary);
      assert db.salaries[userId].id == salary.id;
    }
  }

  /** A component of an `updateSalary` body; an absent key is `None`. An input
      with a truthy id names a row to rewrite; without one (or with id 0) it is
      a new row. */
  datatype ComponentInput = ComponentInput(id: Option<int>, name: Option<string>, computationType: Option<string>,
                                           value: Option<real>)

  /** `if (component.id)`: JavaScript truthiness of the id. */
  predicate NamesRow(c: ComponentInput) {
    c.id.Some? && c.id.value != 0
  }

  /** The component table and the autoincrement counter. */
  datatype Table = Table(rows: seq<SalaryComponent>, nextId: int)

  /** The position of the row with that id. */
  function IndexOfId(rows: seq<SalaryComponent>, id: int): (r: Option<nat>)
    ensures r.Some? ==> r.value < |rows| && rows[r.value].id == id
    ensures r.None? ==> forall j :: 0 <= j < |rows| ==> rows[j].id != id
  {
    if rows == [] then None
    else if rows[0].id == id then Some(0)
    else
      var rest := IndexOfId(rows[1..], id);
      if rest.Some? then Some(rest.value + 1) else None
  }

  /** One iteration of the component loop. `new Decimal(component.value)` is
      evaluated first and throws on an absent value. A rewrite of an id no row
      has raises Prisma's not-found error; the row of the id is rewritten
      whichever salary it belongs to, and an absent name or type leaves that
      column as stored. A new row without a name or type fails Prisma's
      check for a required argument. */
  function ApplyInput(t: Table, salaryId: int, c: ComponentInput): Result<Table> {
    if c.value.None? then Err(Thrown(INVALID_DECIMAL))
    else if NamesRow(c) then
      var j := IndexOfId(t.rows, c.id.value);
      if j.None? then Err(Thrown(RECORD_NOT_FOUND))
      else
        var row := t.rows[j.value];
        Ok(t.(rows := t.rows[j.value := row.(name := c.name.GetOr(row.name),
                                             computationType := c.computationType.GetOr(row.computationType),
                                             value := c.value.value)]))
    else if c.name.None? || c.computationType.None? then Err(Thrown(MISSING_ARGUMENT))
    else
      Ok(Table(t.rows + [SalaryComponent(t.nextId, salaryId, c.name.value, c.computationType.value, c.value.value, 0.0)],
               t.nextId + 1))
  }

  /** Where the loop stops: the table after the inputs it got through, and
      the error of the input that failed, if one did. */
  datatype Outcome = Outcome(table: Table, error: Option<Error>)

  function ApplyInputs(t: Table, salaryId: int, inputs: seq<ComponentInput>): Outcome {
    if inputs == [] then Outcome(t, None)
    else
      var prev := ApplyInputs(t, salaryId, inputs[..|inputs| - 1]);
      if prev.error.Some? then prev
      else
        var next := ApplyInput(prev.table, salaryId, inputs[|inputs| - 1]);
        if next.Err? then Outcome(prev.table, Some(next.error)) else Outcome(next.value, None)
  }

  /** One input keeps component ids increasing and below the counter. */
  lemma ApplyInputWellFormed(t: Table, salaryId: int, c: ComponentInput)
    requires ComponentsWellFormed(t.rows, t.nextId)
    ensures var next := ApplyInput(t, salaryId, c);
            next.Ok? ==> ComponentsWellFormed(next.value.rows, next.value.nextId) && next.value.nextId >= t.nextId
  {
    var next := ApplyInput(t, salaryId, c);
    if next.Ok? {
      if NamesRow(c) {
        SameIdsWellFormed(t.rows, next.value.rows, t.nextId);
      } else {
        var rows := next.value.rows;
        assert forall i :: 0 <= i < |t.rows| ==> rows[i] == t.rows[i];
      }
    }
  }

  /** An input either rewrites the row of its id, keeping its id, salary and
      amount and every column the input leaves out, or appends a row of the
      salary with amount 0; no other row changes. */
  lemma ApplyInputShape(t: Table, salaryId: int, c: ComponentInput, j: int)
    requires 0 <= j < |t.rows|
    ensures var next := ApplyInput(t, salaryId, c);
            next.Ok? ==> && |next.value.rows| >= |t.rows|
                         && next.value.rows[j].id == t.rows[j].id
                         && next.value.rows[j].salaryId == t.rows[j].salaryId
                         && next.value.rows[j].amount == t.rows[j].amount
                         && (c.name.None? ==> next.value.rows[j].name == t.rows[j].name)
                         && (c.computationType.None? ==> next.value.rows[j].computationType == t.rows[j].computationType)
                         && (c.id != Some(t.rows[j].id) ==> next.value.rows[j] == t.rows[j])
  {
  }

  /** The branch on `if (component.id)`: an input with a truthy id that some
      row has rewrites that row's value, and fails with the not-found error
      when no row has it; an input whose id is absent or 0 appends a new row
      when it carries a name and a type. */
  lemma ApplyInputBranches(t: Table, salaryId: int, c: ComponentInput)
    requires c.value.Some?
    ensures NamesRow(c) && (exists j :: 0 <= j < |t.rows| && t.rows[j].id == c.id.value) ==>
              && ApplyInput(t, salaryId, c).Ok?
              && |ApplyInput(t, salaryId, c).value.rows| == |t.rows|
              && exists j :: 0 <= j < |t.rows| && ApplyInput(t, salaryId, c).value.rows[j].id == c.id.value
                                               && ApplyInput(t, salaryId, c).value.rows[j].value == c.value.value
    ensures NamesRow(c) && (forall j :: 0 <= j < |t.rows| ==> t.rows[j].id != c.id.value) ==>
              ApplyInput(t, salaryId, c) == Err(Thrown(RECORD_NOT_FOUND))
    ensures !NamesRow(c) && c.name.Some? && c.computationType.Some? ==>
              ApplyInput(t, salaryId, c)
              == Ok(Table(t.rows + [SalaryComponent(t.nextId, salaryId, c.name.value, c.computationType.value,
                                                    c.value.value, 0.0)], t.nextId + 1))
  {
    if NamesRow(c) {
      var k := IndexOfId(t.rows, c.id.value);
      if k.Some? {
        var rows := ApplyInput(t, salaryId, c).value.rows;
        assert rows[k.value].id == c.id.value && rows[k.value].value == c.value.value;
      }
    }
  }

  /** An id of 0 is falsy, so it adds a row rather than looking one up. */
  lemma ZeroIdAppends(t: Table, salaryId: int)
    ensures ApplyInput(t, salaryId, ComponentInput(Some(0), Some("Basic"), Some("FIXED_AMOUNT"), Some(100.0)))
            == Ok(Table(t.rows + [SalaryComponent(t.nextId, salaryId, "Basic", "FIXED_AMOUNT", 100.0, 0.0)], t.nextId + 1))
  {
  }

  /** After the loop a row that no input named is as it was, and every row
      the loop appended belongs to the salary with amount 0. */
  lemma {:induction false} ApplyInputsFrame(t: Table, salaryId: int, inputs: seq<ComponentInput>)
    ensures var out := ApplyInputs(t, salaryId, inputs).table;
            && |out.rows| >= |t.rows|
            && (forall j :: 0 <= j < |t.rows| && (forall k :: 0 <= k < |inputs| ==> inputs[k].id != Some(t.rows[j].id))
                  ==> out.rows[j] == t.rows[j])
            && (forall j :: |t.rows| <= j < |out.rows| ==> out.rows[j].salaryId == salaryId && out.rows[j].amount == 0.0)
    decreases |inputs|
  {
    if inputs != [] {
      var init := inputs[..|inputs| - 1];
      var c := inputs[|inputs| - 1];
      ApplyInputsFrame(t, salaryId, init);
      var prev := ApplyInputs(t, salaryId, init);
      if prev.error.None? {
        var next := ApplyInput(prev.table, salaryId, c);
        if next.Ok? {
          forall j | 0 <= j < |t.rows| && (forall k :: 0 <= k < |inputs| ==> inputs[k].id != Some(t.rows[j].id))
            ensures next.value.rows[j] == t.rows[j]
          {
            assert forall k :: 0 <= k < |init| ==> init[k] == inputs[k];
            ApplyInputShape(prev.table, salaryId, c, j);
            assert inputs[|inputs| - 1] == c;
          }
          forall j | |prev.table.rows| <= j < |next.value.rows|
            ensures next.value.rows[j].salaryId == salaryId && next.value.rows[j].amount == 0.0
          {
          }
          forall j | |t.rows| <= j < |prev.table.rows|
            ensures next.value.rows[j].salaryId == salaryId && next.value.rows[j].amount == 0.0
          {
            ApplyInputShape(prev.table, salaryId, c, j);
          }
        }
      }
    }
  }

  /** The loop never lowers the counter and keeps the table well formed. */
  lemma {:induction false} ApplyInputsWellFormed(t: Table, salaryId: int, inputs: seq<ComponentInput>)
    requires ComponentsWellFormed(t.rows, t.nextId)
    ensures var out := ApplyInputs(t, salaryId, inputs).table;
            ComponentsWellFormed(out.rows, out.nextId) && out.nextId >= t.nextId
    decreases |inputs|
  {
    if inputs != [] {
      var init := inputs[..|inputs| - 1];
      ApplyInputsWellFormed(t, salaryId, init);
      var prev := ApplyInputs(t, salaryId, init);
      if prev.error.None? {
        ApplyInputWellFormed(prev.table, salaryId, inputs[|inputs| - 1]);
      }
    }
  }

  lemma ApplyInputsStep(t: Table, salaryId: int, inputs: seq<ComponentInput>, i: int)
    requires 0 <= i < |inputs| && ApplyInputs(t, salaryId, inputs[..i]).error.None?
    ensures var prev := ApplyInputs(t, salaryId, inputs[..i]);
            var next := ApplyInput(prev.table, salaryId, inputs[i]);
            ApplyInputs(t, salaryId, inputs[..i + 1])
            == if next.Err? then Outcome(prev.table, Some(next.error)) else Outcome(next.value, None)
  {
    assert inputs[..i + 1][..i] == inputs[..i];
  }

  /** A failure ends the loop: later inputs are not applied. */
  lemma {:induction false} ApplyInputsStopsAtFailure(t: Table, salaryId: int, inputs: seq<ComponentInput>, i: int)
    requires 0 <= i <= |inputs| && ApplyInputs(t, salaryId, inputs[..i]).error.Some?
    ensures ApplyInputs(t, salaryId, inputs) == ApplyInputs(t, salaryId, inputs[..i])
    decreases |inputs| - i
  {
    if i < |inputs| {
      assert inputs[..i + 1][..i] == inputs[..i];
      ApplyInputsStopsAtFailure(t, salaryId, inputs, i + 1);
    } else {
      assert inputs[..i] == inputs;
    }
  }

  /** The component loop of `updateSalary`, writing through to the table. */
  method ApplyComponentInputs(db: Db, salaryId: int, inputs: seq<ComponentInput>) returns (error: Option<Error>)
    requires ComponentsWellFormed(db.components, db.nextId)
    modifies db`components, db`nextId
    ensures var out := ApplyInputs(Table(old(db.components), old(db.nextId)), salaryId, inputs);
            error == out.error && db.components == out.table.rows && db.nextId == out.table.nextId
  {
    ghost var t := Table(db.components, db.nextId);
    var i := 0;
    error := None;
    while i < |inputs| && error.None?
      invariant 0 <= i <= |inputs|
      invariant ApplyInputs(t, salaryId, inputs[..i]) == Outcome(Table(db.components, db.nextId), error)
    {
      ApplyInputsStep(t, salaryId, inputs, i);
      var c := inputs[i];
      if c.value.None? {
        error := Some(Thrown(INVALID_DECIMAL));
      } else if NamesRow(c) {
        var j := IndexOfId(db.components, c.id.value);
        if j.None? {
          error := Some(Thrown(RECORD_NOT_FOUND));
        } else {
          var row := db.components[j.value];
          db.components := db.components[j.value := row.(name := c.name.GetOr(row.name),
                                           computationType := c.computationType.GetOr(row.computationType),
                                           value := c.value.value)];
        }
      } else if c.name.None? || c.computationType.None? {
        error := Some(Thrown(MISSING_ARGUMENT));
      } else {
        db.components := db.components + [SalaryComponent(db.nextId, salaryId, c.name.value, c.computationType.value,
                                                          c.value.value, 0.0)];
        db.nextId := db.nextId + 1;
      }
      i := i + 1;
    }
    if error.Some? {
      ApplyInputsStopsAtFailure(t, salaryId, inputs, i);
    } else {
      assert inputs[..i] == inputs;
    }
  }

  /** A salary and its components, as `updateSalary` returns them. */
  datatype SalaryRecord = SalaryRecord(salary: Salary, components: seq<SalaryComponent>)

  /** `updateSalary`: an ADMIN writes the salary of a user of their company,
      applies the component inputs in order, and recomputes the amounts with
      the salary's month wage. */
  method UpdateSalary(db: Db, caller: Caller, userId: int, p: SalaryInput, components: Option<seq<ComponentInput>>)
    returns (r: Result<SalaryRecord>)
    requires db.Valid()
    modifies db`salaries, db`components, db`nextId
    ensures db.Valid()
    ensures caller.role != ADMIN ==> r == Err(Forbidden(ONLY_ADMIN_SALARY))
    ensures caller.role == ADMIN && (userId !in db.users || db.users[userId].companyId != caller.companyId)
            ==> r == Err(NotFound(USER_NOT_FOUND))
    ensures (caller.role != ADMIN || userId !in db.users || db.users[userId].companyId != caller.companyId
             || (userId !in old(db.salaries) && p.monthWage.None?)) ==>
              db.salaries == old(db.salaries) && db.components == old(db.components) && db.nextId == old(db.nextId)
    ensures (caller.role == ADMIN && userId in db.users && db.users[userId].companyId == caller.companyId
             && userId !in old(db.salaries) && p.monthWage.None?) ==> r == Err(Thrown(INVALID_DECIMAL))
    ensures (caller.role == ADMIN && userId in db.users && db.users[userId].companyId == caller.companyId
             && (userId in old(db.salaries) || p.monthWage.Some?)) ==>
              userId in db.salaries &&
              var salary := db.salaries[userId];
              var idAfterSave := old(db.nextId) + (if userId in old(db.salaries) then 0 else 1);
              var out := ApplyInputs(Table(old(db.components), idAfterSave), salary.id, components.GetOr([]));
              && salary == (if userId in old(db.salaries) then PatchSalary(old(db.salaries)[userId], p)
                            else NewSalary(old(db.nextId), p))
              && db.salaries == old(db.salaries)[userId := salary]
              && db.nextId == out.table.nextId
              && (out.error.Some? ==> r == Err(out.error.value) && db.components == out.table.rows)
              && (out.error.None? ==> && db.components == Settled(out.table.rows, salary.id, salary.monthWage)
                                      && r == Ok(SalaryRecord(salary, ComponentsOf(db.components, salary.id))))
  {
    if caller.role != ADMIN {
      return Err(Forbidden(ONLY_ADMIN_SALARY));
    }
    if userId !in db.users || db.users[userId].companyId != caller.companyId {
      return Err(NotFound(USER_NOT_FOUND));
    }
    var saved := SaveSalary(db, userId, p);
    if saved.Err? {
      return Err(saved.error);
    }
    var salary := saved.value;
    ghost var t := Table(db.components, db.nextId);
    ApplyInputsWellFormed(t, salary.id, components.GetOr([]));
    var error := ApplyComponentInputs(db, salary.id, components.GetOr([]));
    assert db.Valid();
    if error.Some? {
      return Err(error.value);
    }
    var computed := CalculateSalaryComponents(db, salary.id, salary.monthWage);
    r := Ok(SalaryRecord(salary, ComponentsOf(db.components, salary.id)));
  }

  /** `addSkill(skillId)`: a skill of the caller's company, not yet linked to
      the caller, is linked under the next id. */
  method AddSkill(db: Db, caller: Caller, skillId: int) returns (r: Result<int>)
    requires db.Valid()
    modifies db`userSkills, db`nextId
    ensures db.Valid()
    ensures skillId !in db.skills || db.skills[skillId].companyId != caller.companyId ==> r == Err(NotFound(SKILL_NOT_FOUND))
    ensures (skillId in db.skills && db.skills[skillId].companyId == caller.companyId
             && UserSkill(caller.id, skillId) in old(db.userSkills).Values) ==> r == Err(BadRequest(SKILL_ALREADY_ADDED))
    ensures r.Err? ==> db.userSkills == old(db.userSkills) && db.nextId == old(db.nextId)
    ensures r.Ok? <==> skillId in db.skills && db.skills[skillId].companyId == caller.companyId
                       && UserSkill(caller.id, skillId) !in old(db.userSkills).Values
    ensures r.Ok? ==> && r.value == old(db.nextId) && r.value !in old(db.userSkills)
                      && db.userSkills == old(db.userSkills)[r.value := UserSkill(caller.id, skillId)]
                      && db.nextId == old(db.nextId) + 1
  {
    if skillId !in db.skills || db.skills[skillId].companyId != caller.companyId {
      return Err(NotFound(SKILL_NOT_FOUND));
    }
    if UserSkill(caller.id, skillId) in db.userSkills.Values {
      return Err(BadRequest(SKILL_ALREADY_ADDED));
    }
    var id := db.nextId;
    assert KeysBelow(db.userSkills.Keys, id);
    db.userSkills := db.userSkills[id := UserSkill(caller.id, skillId)];
    db.nextId := id + 1;
    r := Ok(id);
  }

  /** `removeSkill(id)`: only the caller's own link can be removed. */
  method RemoveSkill(db: Db, caller: Caller, userSkillId: int) returns (r: Result<int>)
    requires db.Valid()
    modifies db`userSkills
    ensures db.Valid()
    ensures r.Err? <==> userSkillId !in old(db.userSkills) || old(db.userSkills)[userSkillId].userId != caller.id
    ensures r.Err? ==> r.error == NotFound(SKILL_NOT_FOUND) && db.userSkills == old(db.userSkills)
    ensures r.Ok? ==> r.value == userSkillId && db.userSkills == old(db.userSkills) - {userSkillId}
  {
    if userSkillId !in db.userSkills || db.userSkills[userSkillId].userId != caller.id {
      return Err(NotFound(SKILL_NOT_FOUND));
    }
    db.userSkills := db.userSkills - {userSkillId};
    r := Ok(userSkillId);
  }

  /** The columns `addCertification` writes. */
  function CertificationFields(name: Value, issuingOrganization: Option<string>, issueDate: Value, expiryDate: Value,
                               certificateUrl: Option<string>): map<string, Value> {
    map["name" := name, "issuingOrganization" := StrOrNull(issuingOrganization),
        "issueDate" := if Truthy(issueDate) then VDate(issueDate) else VNull,
        "expiryDate" := if Truthy(expiryDate) then VDate(expiryDate) else VNull,
        "certificateUrl" := StrOrNull(certificateUrl)]
  }

  /** `addCertification`: a certification of the caller under the next id. */
  method AddCertification(db: Db, caller: Caller, name: Value, issuingOrganization: Option<string>, issueDate: Value,
                          expiryDate: Value, certificateUrl: Option<string>) returns (r: int)
    requires db.Valid()
    modifies db`certifications, db`nextId
    ensures db.Valid()
    ensures r == old(db.nextId) && r !in old(db.certifications) && db.nextId == r + 1
    ensures db.certifications == old(db.certifications)[r := Certification(caller.id,
              CertificationFields(name, issuingOrganization, issueDate, expiryDate, certificateUrl))]
  {
    var fields := CertificationFields(name, issuingOrganization, issueDate, expiryDate, certificateUrl);
    r := db.nextId;
    assert KeysBelow(db.certifications.Keys, r);
    db.certifications := db.certifications[r := Certification(caller.id, fields)];
    db.nextId := r + 1;
  }

  const CERTIFICATION_FIELDS: seq<string> := ["name", "issuingOrganization", "issueDate", "expiryDate", "certificateUrl"]
  const CERTIFICATION_DATES: set<string> := {"issueDate", "expiryDate"}

  predicate OwnsCertification(certifications: map<int, Certification>, caller: Caller, id: int) {
    id in certifications && certifications[id].userId == caller.id
  }

  /** `updateCertification(id)`: the caller's own certification gets the
      allow-listed fields of the body, its two dates converted. */
  method UpdateCertification(db: Db, caller: Caller, certificationId: int, body: map<string, Value>)
    returns (r: Result<Certification>)
    requires db.Valid()
    modifies db`certifications
    ensures db.Valid()
    ensures r.Err? <==> !OwnsCertification(old(db.certifications), caller, certificationId)
    ensures r.Err? ==> r.error == NotFound(CERTIFICATION_NOT_FOUND) && db.certifications == old(db.certifications)
    ensures r.Ok? ==>
              var before := old(db.certifications)[certificationId];
              && r.value == before.(fields := ApplyUpdate(before.fields, body, CERTIFICATION_FIELDS, CERTIFICATION_DATES))
              && db.certifications == old(db.certifications)[certificationId := r.value]
  {
    if !OwnsCertification(db.certifications, caller, certificationId) {
      return Err(NotFound(CERTIFICATION_NOT_FOUND));
    }
    var updateData := BuildUpdateData(body, CERTIFICATION_FIELDS, CERTIFICATION_DATES);
    var certification := db.certifications[certificationId];
    var updated := certification.(fields := certification.fields + updateData);
    db.certifications := db.certifications[certificationId := updated];
    r := Ok(updated);
  }

  /** `deleteCertification(id)`: only the caller's own certification can go. */
  method DeleteCertification(db: Db, caller: Caller, certificationId: int) returns (r: Result<int>)
    requires db.Valid()
    modifies db`certifications
    ensures db.Valid()
    ensures r.Err? <==> !OwnsCertification(old(db.certifications), caller, certificationId)
    ensures r.Err? ==> r.error == NotFound(CERTIFICATION_NOT_FOUND) && db.certifications == old(db.certifications)
    ensures r.Ok? ==> r.value == certificationId && db.certifications == old(db.certifications) - {certificationId}
  {
    if !OwnsCertification(db.certifications, caller, certificationId) {
      return Err(NotFound(CERTIFICATION_NOT_FOUND));
    }
    db.certifications := db.certifications - {certificationId};
    r := Ok(certificationId);
  }
}
