/** The relational store of the backend, one field per table. A table with a
    unique key is a map keyed by it; the salary-component table is a sequence
    in id order, because the salary service walks a salary's components in
    that order. Ids of new rows come from one autoincrement counter. */
module Records {
  import opened Common

  datatype AttendanceStatus = PRESENT | ABSENT | ON_LEAVE

  /** The unique key `userId_date` of the attendance table. */
  datatype AttendanceKey = AttendanceKey(userId: int, date: int)

  /** A row of the attendance table. Times are milliseconds, `date` a day
      index, `breakTime` hours, `workHours` and `extraHours` hundredths of an hour. */
  datatype Attendance = Attendance(
    date: int,
    checkIn: Option<int>,
    checkOut: Option<int>,
    breakTime: Option<real>,
    workHours: Option<int>,
    extraHours: Option<int>,
    status: AttendanceStatus)

  datatype TimeOffType = TimeOffType(companyId: int, name: string, isPaid: bool, maxDays: Option<real>)

  /** The unique key `userId_timeOffTypeId_year` of the allocation table. */
  datatype AllocationKey = AllocationKey(userId: int, typeId: int, year: int)

  datatype Allocation = Allocation(allocatedDays: real, usedDays: real)

  datatype RequestStatus = PENDING | APPROVED | REJECTED

  /** A time-off request; `allocation` is the number of days it asks for. */
  datatype TimeOffRequest = TimeOffRequest(
    userId: int,
    typeId: int,
    startDate: int,
    endDate: int,
    allocation: real,
    reason: Option<string>,
    attachmentUrl: Option<string>,
    status: RequestStatus,
    approvedBy: Option<int>,
    approvedAt: Option<int>)

  datatype Company = Company(name: string, code: string)

  /** A user row. `password` holds the bcrypt hash; the descriptive columns
      (name, phone, job position, department, profile texts, ...) are `fields`. */
  datatype User = User(
    loginId: string,
    email: string,
    password: string,
    role: Role,
    companyId: int,
    joinYear: int,
    serialNumber: int,
    isFirstLogin: bool,
    fields: map<string, Value>)

  /** A user row as the handlers return it: everything but the password hash. */
  datatype PublicUser = PublicUser(
    loginId: string,
    email: string,
    role: Role,
    companyId: int,
    joinYear: int,
    serialNumber: int,
    isFirstLogin: bool,
    fields: map<string, Value>)

  /** `const { password, ...rest } = user` */
  function WithoutPassword(u: User): PublicUser {
    PublicUser(u.loginId, u.email, u.role, u.companyId, u.joinYear, u.serialNumber, u.isFirstLogin, u.fields)
  }

  datatype Salary = Salary(
    id: int,
    monthWage: real,
    yearlyWage: real,
    workingDaysPerWeek: real,
    breakTime: real,
    pfRate: real,
    professionalTax: real)

  datatype SalaryComponent = SalaryComponent(
    id: int,
    salaryId: int,
    name: string,
    computationType: string,
    value: real,
    amount: real)

  datatype Skill = Skill(companyId: int, name: string)

  datatype UserSkill = UserSkill(userId: int, skillId: int)

  datatype Certification = Certification(userId: int, fields: map<string, Value>)

  class Db {
    var companies: map<int, Company>
    var users: map<int, User>
    var attendance: map<AttendanceKey, Attendance>
    var timeOffTypes: map<int, TimeOffType>
    var allocations: map<AllocationKey, Allocation>
    var requests: map<int, TimeOffRequest>
    /** Keyed by the unique `userId` of a salary. */
    var salaries: map<int, Salary>
    var components: seq<SalaryComponent>
    var skills: map<int, Skill>
    var userSkills: map<int, UserSkill>
    var certifications: map<int, Certification>
    /** The next autoincrement id. */
    var nextId: int

    constructor ()
      ensures companies == map[] && users == map[] && attendance == map[]
      ensures timeOffTypes == map[] && allocations == map[] && requests == map[]
      ensures salaries == map[] && components == [] && skills == map[]
      ensures userSkills == map[] && certifications == map[] && nextId == 1
      ensures Valid()
    {
      companies, users, attendance := map[], map[], map[];
      timeOffTypes, allocations, requests := map[], map[], map[];
      salaries, components, skills := map[], [], map[];
      userSkills, certifications, nextId := map[], map[], 1;
    }

    /** The constraints of the store that the handlers rely on. */
    ghost predicate Valid()
      reads this
    {
      && IdsFresh()
      && ComponentsWellFormed(components, nextId)
      && SalaryIdsUnique()
      && UsersInCompanies()
      && RequestsOfUsers()
      && EmailsUnique()
      && CompanyNamesUnique()
      && SerialsDistinct()
      && UserSkillsUnique()
    }

    ghost predicate SalaryIdsUnique()
      reads this`salaries
    {
      forall u, v :: u in salaries && v in salaries && u != v ==> salaries[u].id != salaries[v].id
    }

    ghost predicate UsersInCompanies()
      reads this`users, this`companies
    {
      forall u :: u in users ==> users[u].companyId in companies
    }

    ghost predicate RequestsOfUsers()
      reads this`requests, this`users
    {
      forall q :: q in requests ==> requests[q].userId in users
    }

    /** Within one (company, join year) group no two users share a serial:
        the next-serial rule keeps it so. */
    ghost predicate SerialsDistinct()
      reads this`users
    {
      forall u, v ::
        (u in users && v in users && u != v && users[u].companyId == users[v].companyId
         && users[u].joinYear == users[v].joinYear) ==> users[u].serialNumber != users[v].serialNumber
    }

    /** `userId_skillId` is a unique key of the user-skill table. */
    ghost predicate UserSkillsUnique()
      reads this`userSkills
    {
      forall a, b :: a in userSkills && b in userSkills && a != b ==> userSkills[a] != userSkills[b]
    }

    /** `email` is a unique column of the user table. */
    ghost predicate EmailsUnique()
      reads this`users
    {
      forall u, v :: u in users && v in users && u != v ==> users[u].email != users[v].email
    }

    /** `name` is a unique column of the company table. */
    ghost predicate CompanyNamesUnique()
      reads this`companies
    {
      forall c, d :: c in companies && d in companies && c != d ==> companies[c].name != companies[d].name
    }

    /** Every id in use is below the autoincrement counter. */
    ghost predicate IdsFresh()
      reads this`companies, this`users, this`timeOffTypes, this`requests, this`skills, this`userSkills,
            this`certifications, this`salaries, this`nextId
    {
      && KeysBelow(companies.Keys, nextId)
      && KeysBelow(users.Keys, nextId)
      && KeysBelow(timeOffTypes.Keys, nextId)
      && KeysBelow(requests.Keys, nextId)
      && KeysBelow(skills.Keys, nextId)
      && KeysBelow(userSkills.Keys, nextId)
      && KeysBelow(certifications.Keys, nextId)
      && (forall u :: u in salaries ==> salaries[u].id < nextId)
    }
  }

  ghost predicate KeysBelow(keys: set<int>, bound: int) {
    forall k :: k in keys ==> k < bound
  }

  /** Component ids increase along the table and stay below the counter. */
  ghost predicate ComponentsWellFormed(cs: seq<SalaryComponent>, bound: int) {
    && (forall i :: 0 <= i < |cs| ==> cs[i].id < bound)
    && (forall i, j :: 0 <= i < j < |cs| ==> cs[i].id < cs[j].id)
  }

  /** Rewriting rows without touching their ids keeps the table well formed. */
  lemma SameIdsWellFormed(before: seq<SalaryComponent>, after: seq<SalaryComponent>, bound: int)
    requires ComponentsWellFormed(before, bound)
    requires |after| == |before| && forall j :: 0 <= j < |before| ==> after[j].id == before[j].id
    ensures ComponentsWellFormed(after, bound)
  {
  }
}
