# DayFlow HR backend — a verified model of its record keeping

DayFlow is an HR system for small companies. Its backend keeps:

- a daily attendance record per employee;
- a yearly time-off ledger per employee and leave type, with a request/approval workflow;
- user identities with generated login ids, employee records, profiles, skills and certifications;
- salaries whose components are derived from the month wage.

This project models that record keeping in Dafny over an abstract store. `Records.Db` is a class with one field per table: `map`s keyed as the handlers key their rows, and a `seq` for the salary-component table, whose order is id order. Each request handler becomes a method on that store. Its `modifies` clause names the tables it writes, field by field, so the frame says what nothing else changes. `Db.Valid()` collects the store constraints the handlers rely on and preserve:

- autoincrement ids below a shared counter;
- unique emails;
- unique company names;
- distinct serials within a (company, join year) group;
- component ids increasing along their table;
- one row per user–skill pair.

The pure computations are functions, and lemmas state their properties:

- hours and overtime;
- the inclusive day count;
- login ids, company codes and the first/last-name split;
- month ranges and pagination;
- the salary-component amounts.

Modules follow the backend's files:

| module | file |
|---|---|
| `Common`, `Calendar`, `Text` | the error kinds, the clock and the JS string builtins the code relies on |
| `Records` | the tables (the store) |
| `AttendanceService`, `AttendanceController` | `services/attendance.service.js`, `controllers/attendance.controller.js` |
| `TimeOffService`, `TimeOffController` | `services/timeoff.service.js`, `controllers/timeoff.controller.js` |
| `AuthService` | `services/auth.service.js` |
| `Identity` | the company-code / name-split / next-serial / insert sequence that `signUp` and `createEmployee` both write out |
| `AuthController`, `EmployeesController`, `ProfileController` | the matching controllers |
| `SalaryService` | `services/salary.service.js` |

Modelling conventions:

- **Clock.** The clock is an `Instant` argument. It gives milliseconds of local wall-clock time, plus the year and month that `getFullYear()`/`getMonth()` report. Calendar days are integer day indices.
- **Numbers.** Worked and extra hours are integer hundredths, because `toFixed(2)` becomes round-half-up of the exact value. Days and money are exact reals; `Decimal` is treated as exact.
- **Errors.** Errors are `Common.Error`: `BadRequest`, `NotFound`, `Forbidden`, `Unauthorized`, and `Thrown` for an exception that reaches the error middleware. Each carries the source's message; for an exception raised by the JavaScript runtime or Prisma (`NULL_COMPANY`, `RECORD_NOT_FOUND`, `MISSING_ARGUMENT`), it carries a fragment of the library's message.
- **Crypto.** bcrypt's comparison is a function parameter `matches(plain, hash)`. A new hash is an input.
- **Lookups.** `findFirst` over several matching rows picks one of them, unspecified which.

### Where the specification and the code differ (the model follows the code)

- `checkOut` (`controllers/attendance.controller.js:76-106`) fails only when there is no record or it is already checked out. A placeholder record without a check-in can still be checked out; it gets no worked hours and 0 extra hours.
- `calculateDays` rounds the millisecond difference UP to whole days before adding one (`services/timeoff.service.js:8`). So a request ending one millisecond after a midnight counts one more day.
- Nothing holds or reserves days between creation and approval. Approval does not re-check availability. `usedDays <= allocatedDays` is therefore not an invariant: `TimeOffController.OverdrawTrace` reaches 6 used days out of 5.
- The availability check reads the allocation of the start date's year (`services/timeoff.service.js:18`). The charge at approval uses the clock's year (`:52`). `TimeOffController.CrossYearTrace` shows a request that passed the check and cannot be approved.
- `getEmployeeAttendance` and `getEmployeeTimeOff` let ADMIN and HR read any employee's records without comparing companies (`controllers/employees.controller.js:356-362, 397-403`).
- `updateSalary` rewrites a component by its id whichever salary it belongs to (`controllers/profile.controller.js:227-235`). An input whose id is 0 is falsy and creates a row; a rewrite that leaves out `name` or `computationType` keeps the stored column. An id no row has makes Prisma throw after earlier inputs have been applied.

## Model

| member | source | states |
|---|---|---|
| AttendanceService.RoundHundredths | backend/services/attendance.service.js:14 | the result is the number of hundredths nearest to the exact value (within half a hundredth), never negative |
| AttendanceService.WorkHours | backend/services/attendance.service.js:3-15 | null exactly when check-in or check-out is missing; otherwise within half a hundredth of max(0, hours between the timestamps − break), with a missing break counting 0 |
| AttendanceService.ExtraHours | backend/services/attendance.service.js:17-24 | never negative; 0 when there are no worked hours; otherwise within half a hundredth of max(0, worked − standard) |
| AttendanceService.NoBreakIsZeroBreak | backend/services/attendance.service.js:3-12 | a missing break and a zero break give the same worked hours |
| AttendanceService.ExtraHoursExact | backend/services/attendance.service.js:22-23 | against a whole-hour standard, extra hundredths are exactly max(0, worked − 100·standard) |
| AttendanceService.WorkBoundedBySpan | backend/services/attendance.service.js:10-12 | worked hours never exceed the span between the timestamps, and equal it with no break |
| AttendanceService.NineToSixExample | backend/services/attendance.service.js:10-23 | 09:00 to 18:00 with a one-hour break gives 8.00 worked and 0.00 extra |
| AttendanceService.NineToHalfPastSevenExample | backend/services/attendance.service.js:10-23 | 09:00 to 19:30 with a half-hour break gives 10.00 worked and 2.00 extra |
| Calendar.DayOfWithinDay | backend/controllers/attendance.controller.js:13-14 | every timestamp of a calendar day normalises to that day, and so does its midnight |
| AttendanceController.SameDaySameKey | backend/controllers/attendance.controller.js:13-23 | every check-in and check-out within one day addresses the same (user, date) key |
| AttendanceController.CheckIn | backend/controllers/attendance.controller.js:10-49 | an existing check-in fails with 'Already checked in today' and changes nothing; a placeholder gets check-in = now and PRESENT with other fields kept; no record creates exactly one {today, now, PRESENT} row; no other row changes |
| AttendanceController.CheckOut | backend/controllers/attendance.controller.js:61-106 | no record or an existing check-out fails with its message and changes nothing; otherwise only checkOut, workHours, extraHours (standard 8) and breakTime are written, the break from the request if truthy, else the stored one, else 0 |
| AttendanceController.WorkingDay | backend/controllers/attendance.controller.js:25-106 | a day of check-in at 09:00, a refused second check-in and a check-out at 18:00 with a one-hour break stores the 09:00 check-in, 8.00 worked, 0.00 extra, PRESENT |
| Calendar.MonthRange | backend/controllers/attendance.controller.js:131-136 | the range starts on day 1 of the (normalised) month and spans exactly that month's number of days, 28 to 31 |
| Calendar.QueryMonthRange | backend/controllers/attendance.controller.js:131-136 | the queried month when month and year are both given, else the clock's month |
| Calendar.February2024 | backend/controllers/attendance.controller.js:131-136 | February 2024 spans 29 days and ends the day before March 1st |
| AttendanceController.RowsInRange | backend/controllers/attendance.controller.js:138-144 | exactly the records of the user whose date is in the range, values unchanged |
| AttendanceController.GetAttendance | backend/controllers/attendance.controller.js:118-144 | Forbidden 'Access denied' exactly when a non-ADMIN/HR caller asks for someone else; otherwise exactly the target's records of the queried month |
| AttendanceController.AttendanceSummary | backend/controllers/attendance.controller.js:192-203 | daysPresent and leavesCount are the numbers of PRESENT and ON_LEAVE records of the month, and their sum is at most the number of records |
| TimeOffService.CalculateDays | backend/services/timeoff.service.js:4-10 | at least 1; 1 exactly for equal dates; otherwise the absolute difference lies in ((r−2) days, (r−1) days], the ceiling plus one |
| TimeOffService.CalculateDaysSymmetric | backend/services/timeoff.service.js:7 | swapping start and end gives the same count |
| TimeOffService.CalculateDaysInclusive | backend/services/timeoff.service.js:8 | between two midnights the count is the number of days inclusive |
| TimeOffService.JanuaryTenToTwelve | backend/services/timeoff.service.js:8 | 2026-01-10 to 2026-01-12 counts 3 days |
| TimeOffService.CheckAllocationAvailability | backend/services/timeoff.service.js:12-44 | keyed by the start date's year; no allocation throws 'not found for this year'; 'Insufficient time off allocation' exactly when requested > allocated − used; otherwise returns the allocation, the count and allocated − used |
| TimeOffService.NewUsedDays | backend/services/timeoff.service.js:68-76 | 'add' adds exactly the days; any other operation subtracts them, clamped at 0 |
| TimeOffService.AddThenSubtract | backend/services/timeoff.service.js:68-76 | subtracting what was added restores a non-negative balance |
| TimeOffService.UpdateAllocationUsage | backend/services/timeoff.service.js:46-82 | keyed by the clock's year; a missing allocation throws and nothing changes; otherwise only that row's usedDays changes, to the new value |
| TimeOffService.CompanyTypes | backend/services/timeoff.service.js:85-87 | exactly the time-off types of the company |
| TimeOffService.Initialized | backend/services/timeoff.service.js:84-108 | existing rows untouched; every type of the company has a row of the year; each new row has allocatedDays = maxDays or 0 and usedDays = 0 |
| TimeOffService.InitializeIdempotent | backend/services/timeoff.service.js:89-106 | running the initialisation twice gives the table of one run |
| TimeOffService.InitializeAllocations | backend/services/timeoff.service.js:84-108 | the upsert loop leaves the allocation table equal to the specified initialisation |
| TimeOffController.GetAllocations | backend/controllers/timeoff.controller.js:29-48 | exactly the caller's allocations of the queried year (else the clock's), each with availableDays = allocated − used |
| TimeOffController.ReportedAvailabilityIsChecked | backend/controllers/timeoff.controller.js:45-48 | the available days reported for a type are those the availability check compares a request of that year against |
| TimeOffController.SurfaceError | backend/controllers/timeoff.controller.js:160-165 | an error mentioning 'allocation' becomes a BadRequest with the same message; any other passes unchanged |
| TimeOffController.CheckFailuresAreBadRequests | backend/controllers/timeoff.controller.js:160-163 | both failures of the availability check reach the client as BadRequest |
| TimeOffController.PendingRequest | backend/controllers/timeoff.controller.js:130-142 | the inserted row is PENDING, undecided, with allocation = the day count and the given user, type, dates, reason and attachment (or null) |
| TimeOffController.CreateTimeOffRequest | backend/controllers/timeoff.controller.js:106-166 | unknown type → NotFound, another company's type → Forbidden, a failed check → BadRequest, each with no write; otherwise exactly one PENDING row is inserted under a fresh id and allocations are not touched |
| TimeOffController.DecisionGuard | backend/controllers/timeoff.controller.js:170-198 | the guards in source order (the same at 244-272 for rejection): non-ADMIN/HR → Forbidden, missing → NotFound, other company → Forbidden, not PENDING → 'already been processed' |
| TimeOffController.DecidedRequestsAreTerminal | backend/controllers/timeoff.controller.js:196-198 | a request passes the guards exactly when it is PENDING and the caller is ADMIN/HR of the owner's company |
| TimeOffController.ApproveTimeOffRequest | backend/controllers/timeoff.controller.js:168-240 | a failed guard changes nothing; a missing allocation of the clock's year throws with the request still PENDING; otherwise usedDays grows by exactly the request's allocation and the request becomes APPROVED by the caller at now |
| TimeOffController.RejectTimeOffRequest | backend/controllers/timeoff.controller.js:242-307 | a failed guard changes nothing; otherwise the request becomes REJECTED by the caller at now and no allocation changes |
| TimeOffController.GetTimeOffRequestById | backend/controllers/timeoff.controller.js:309-354 | NotFound for a missing request; readable exactly by ADMIN, HR or its owner, else Forbidden |
| TimeOffController.OverdrawTrace | backend/controllers/timeoff.controller.js:123-205 | two three-day requests against a five-day allocation are both created and approved, leaving 6 days used of 5 |
| TimeOffController.CrossYearTrace | backend/services/timeoff.service.js:18-52 | a request checked against its start year's allocation cannot be approved while the clock is in a year without an allocation, and stays PENDING |
| TimeOffController.ApproveThenRejectTrace | backend/controllers/timeoff.controller.js:270-272 | rejecting an approved request fails with 'already been processed' and the request stays APPROVED |
| Text.PadStart | backend/services/auth.service.js:14 | left-pads with the fill character to at least the width, never cutting the string |
| Text.PaddedSerialValue | backend/services/auth.service.js:14 | a zero-padded serial is all digits and reads back as the serial |
| AuthService.LoginIdLength | backend/services/auth.service.js:9-17 | length = 3 + code + min(2, first) + min(2, last) + year digits + max(4, serial digits) |
| AuthService.LoginIdHead | backend/services/auth.service.js:9-16 | the id starts with 'LOI' then the company code, followed by the initials and the year |
| AuthService.LoginIdLayout | backend/services/auth.service.js:9-17 | a login id is its head followed by at least four digits that read back as the serial |
| AuthService.LoginIdSerialInjective | backend/services/auth.service.js:14-16 | with the other inputs fixed, equal login ids mean equal serials |
| AuthService.LoginIdExample | backend/services/auth.service.js:9-17 | code AC, John Doe, 2026, serial 7 gives LOIACJODO20260007 |
| AuthService.SerialsOf | backend/services/auth.service.js:48-55 | exactly the serials in use in the (company, join year) group |
| AuthService.GroupOf | backend/services/auth.service.js:48-55 | exactly the users of the (company, join year) group |
| AuthService.IsNextSerialUnique | backend/services/auth.service.js:47-59 | the next serial is determined by the group and no user of the group has it |
| AuthService.NextSerialNumber | backend/services/auth.service.js:47-59 | 1 for an empty group, else one above a serial in use, and above every serial of the group |
| Identity.WordInitials | backend/controllers/employees.controller.js:184 | one entry per word: its first two characters upper-cased |
| Identity.CompanyCode | backend/controllers/employees.controller.js:182-186 | the code has at most two characters |
| Identity.CompanyCodeFirstWord | backend/controllers/employees.controller.js:182-186 | a first word of at least two characters makes the code alone, its first two characters upper-cased |
| Identity.CompanyCodeShortFirstWord | backend/controllers/employees.controller.js:182-186 | a one-letter first word takes the second letter from the next word |
| Identity.AcmeCorpCode | backend/controllers/auth.controller.js:85-90 | 'Acme Corp' gets the code 'AC' |
| Identity.SplitName | backend/controllers/employees.controller.js:197-199 | the first name has no space; the last name is the remaining words joined by a space, or the first name when there are none |
| Identity.SplitNameRecovers | backend/controllers/employees.controller.js:197-199 | the trimmed name is first + ' ' + rest; a name without a space is its own first and last name |
| Identity.SplitJohnDoe | backend/controllers/auth.controller.js:100-102 | 'John Doe' splits into John and Doe |
| Identity.SplitOneWord | backend/controllers/auth.controller.js:100-102 | a one-word name is both first and last name |
| Identity.FindOrCreateCompany | backend/controllers/auth.controller.js:81-98 | the result is the one company of that name (names are unique); an existing name changes nothing; otherwise exactly one company with the derived code is created under a fresh id |
| Identity.InsertUser | backend/controllers/auth.controller.js:117-129 | an email in use throws the unique-constraint error and changes nothing; otherwise exactly the row is inserted under a fresh id |
| Identity.AddUser | backend/controllers/auth.controller.js:100-129 | the inserted row has the login id from the company code, the split name, the join year and the group's next serial, and isFirstLogin = true |
| AuthController.SignIn | backend/controllers/auth.controller.js:12-42 | an unknown identifier and a wrong password give the same 'Invalid login credentials'; success means a user whose login id or email is the identifier and whose hash matches |
| AuthController.SignUp | backend/controllers/auth.controller.js:58-129 | Unauthorized without an ADMIN/HR requester; BadRequest for an email used as any user's email or login id; both with no write; otherwise reuses the company of that name or creates one, and inserts the new user with the current year as join year |
| AuthController.ChangePassword | backend/controllers/auth.controller.js:155-182 | NotFound for a missing user; Unauthorized for a wrong current password, hash unchanged; success exactly when it matches, replacing the hash and clearing isFirstLogin |
| EmployeesController.PageCount | backend/controllers/employees.controller.js:78 | no count for a zero limit; for a positive limit the least page count that covers the total (the ceiling) |
| EmployeesController.Paginate | backend/controllers/employees.controller.js:6-78 | page and limit default to 1 and 10; skip = (page − 1)·limit; pages is the ceiling count |
| EmployeesController.PagesTileTheResult | backend/controllers/employees.controller.js:7-78 | with a positive limit every employee lies on a page between 1 and the page count, inside that page's window |
| EmployeesController.DefaultFirstPage | backend/controllers/employees.controller.js:6-7 | the default listing skips nothing and shows 10 |
| EmployeesController.GetEmployee | backend/controllers/employees.controller.js:86-129 | NotFound, then Forbidden for another company, then Forbidden for a USER viewing someone else; success exactly otherwise, without the password |
| EmployeesController.EmployeeCompany | backend/controllers/employees.controller.js:172-195 | the caller's company unless a different truthy company name is given; then a company of that name, created only if none exists |
| EmployeesController.JoinAndAddUser | backend/controllers/employees.controller.js:172-235 | after the guards: the company lookup, then either the unique-email error with no new user, or exactly one new user under the next fresh id with the derived login id and the group's next serial |
| EmployeesController.CreateEmployee | backend/controllers/employees.controller.js:142-240 | Forbidden for non-ADMIN/HR; BadRequest for an email or login id used in the caller's company; both with no write; otherwise the new user gets the derived login id, the joining date's year (else now's), the group's next serial and isFirstLogin = true |
| EmployeesController.ApplyUpdateFrame | backend/controllers/employees.controller.js:315-323 | an update writes exactly the allowed fields the body defines, a truthy date converted, and leaves every other column as it was |
| EmployeesController.BuildUpdateData | backend/controllers/employees.controller.js:315-323 | the loop builds exactly the allow-listed copy of the body |
| EmployeesController.UpdateEmployee | backend/controllers/employees.controller.js:267-338 | NotFound, Forbidden for another company, Forbidden for a non-ADMIN/HR updating someone else, each with no write; on success only that user's allow-listed fields change |
| EmployeesController.GetEmployeeAttendance | backend/controllers/employees.controller.js:351-381 | Forbidden exactly when a non-ADMIN/HR reads another id; otherwise exactly that employee's records from day 1 to the last day of the month asked for |
| EmployeesController.GetEmployeeTimeOff | backend/controllers/employees.controller.js:392-407 | Forbidden exactly when a non-ADMIN/HR reads another id; otherwise exactly that employee's requests |
| ProfileController.UpdateProfile | backend/controllers/profile.controller.js:62-98 | the caller's row gets exactly the allow-listed fields of the body, dateOfBirth converted when truthy, nothing else changes |
| ProfileController.ProfileKeepsOrganisation | backend/controllers/profile.controller.js:65-80 | a column outside the profile allow-list keeps its value |
| ProfileController.OrganisationNotInProfile | backend/controllers/profile.controller.js:65-80 | department, location and manager are not in the profile allow-list |
| ProfileController.OrganisationInEmployeeFields | backend/controllers/employees.controller.js:295-313 | department, location and manager are in the employee allow-list |
| ProfileController.GetSalary | backend/controllers/profile.controller.js:118-152 | Forbidden when a non-ADMIN asks for another user; NotFound without a salary; otherwise that salary with exactly its components, and employeePF = employerPF = Basic amount · rate / 100 |
| ProfileController.HrReadsOnlyOwnSalary | backend/controllers/profile.controller.js:123-128 | HR asking for another user's salary is refused |
| ProfileController.Keep | backend/controllers/profile.controller.js:190-202 | a truthy value replaces the stored one; 0 and absent values are dropped |
| ProfileController.PatchSalary | backend/controllers/profile.controller.js:189-209 | the update keeps the salary's id and drops 0 and absent values |
| ProfileController.NewSalary | backend/controllers/profile.controller.js:211-220 | defaults: yearly = 12 × month, 5 days a week, break 0, PF rate 12, professional tax 200 |
| ProfileController.SaveSalary | backend/controllers/profile.controller.js:204-223 | an existing salary is patched; a new one is created with the defaults under a fresh id, or throws without a month wage |
| ProfileController.IndexOfId | backend/controllers/profile.controller.js:228-229 | the position of the row with that id, or none when no row has it |
| ProfileController.ApplyInputShape | backend/controllers/profile.controller.js:227-245 | an input rewrites the row of its id (keeping id, salary and amount, and the name and type when the input leaves them out) or appends a row of the salary with amount 0; no other row changes |
| ProfileController.ApplyInputBranches | backend/controllers/profile.controller.js:227-245 | a truthy id that a row has rewrites that row's value; a truthy id no row has fails with Prisma's not-found error; an absent or zero id with a name and type appends a new row of the salary with amount 0 |
| ProfileController.ZeroIdAppends | backend/controllers/profile.controller.js:227-245 | an input with id 0 is falsy and creates a row instead of looking one up |
| ProfileController.ApplyInputsFrame | backend/controllers/profile.controller.js:225-248 | after the loop a row no input named is unchanged, and every appended row belongs to the salary with amount 0 |
| ProfileController.ApplyInputsWellFormed | backend/controllers/profile.controller.js:225-248 | the loop keeps component ids increasing and below the counter |
| ProfileController.ApplyInputsStopsAtFailure | backend/controllers/profile.controller.js:226-235 | once an input fails, later inputs are not applied |
| ProfileController.ApplyComponentInputs | backend/controllers/profile.controller.js:225-248 | the loop leaves the table and the counter equal to the specified sequence of inputs, and returns the error of the input that failed: the Decimal error for an absent value, Prisma's not-found error for a truthy id no row has, Prisma's missing-argument error for a new row without a name or type |
| ProfileController.UpdateSalary | backend/controllers/profile.controller.js:167-250 | Forbidden for non-ADMIN; NotFound for a user outside the caller's company; both with no write; otherwise the salary is patched or created and the inputs applied in order; an input's error is returned with the table as the loop left it; without one the components are recomputed with the salary's month wage |
| ProfileController.AddSkill | backend/controllers/profile.controller.js:288-321 | NotFound for a skill of another company; BadRequest when already linked; both with no write; otherwise exactly one link under a fresh id |
| ProfileController.RemoveSkill | backend/controllers/profile.controller.js:332-347 | only the caller's own link is removed, else NotFound with no change |
| ProfileController.AddCertification | backend/controllers/profile.controller.js:374-393 | exactly one certification of the caller under a fresh id, dates converted when truthy, null for absent optional fields |
| ProfileController.UpdateCertification | backend/controllers/profile.controller.js:404-439 | NotFound unless the caller owns it; otherwise only its allow-listed fields change, both dates converted |
| ProfileController.DeleteCertification | backend/controllers/profile.controller.js:450-465 | NotFound unless the caller owns it; otherwise exactly that row is removed |
| SalaryService.ComponentsOfMembers | backend/services/salary.service.js:5-8 | a salary's components are exactly the table rows carrying its id |
| SalaryService.FindByNameFirst | backend/services/salary.service.js:66-69 | the lookup by name finds the first component with that name, or none when no component has it |
| SalaryService.ComponentAmountRules | backend/services/salary.service.js:18-36 | PERCENTAGE_OF_WAGE = wage·value/100; PERCENTAGE_OF_BASIC = (wage·Basic.value/100)·value/100, or 0 without Basic; FIXED_AMOUNT = value; any other type 0 |
| SalaryService.ComputedAt | backend/services/salary.service.js:17-43 | the returned list has one entry per component, in order, carrying its computed amount |
| SalaryService.Settled | backend/services/salary.service.js:38-56 | recomputing keeps every row's id, salary, name, type and value, and leaves other salaries' rows alone |
| SalaryService.SettledTotal | backend/services/salary.service.js:44-57 | with a Fixed Allowance the stored amounts sum to the wage less that allowance's own computed amount; without one, to the loop total |
| SalaryService.SettledTotalIsWage | backend/services/salary.service.js:47-57 | when the Fixed Allowance's own type computes 0, the stored amounts sum to exactly the month wage |
| SalaryService.LoopTotalIsListSum | backend/services/salary.service.js:44 | the loop's running total is the sum of the returned amounts |
| SalaryService.WriteAmounts | backend/services/salary.service.js:17-45 | the loop returns the computed list and total, finds the Fixed Allowance, and writes each computed amount to its row |
| SalaryService.CalculateSalaryComponents | backend/services/salary.service.js:4-60 | a missing salary throws 'Salary not found' and changes nothing; otherwise returns the computed list and leaves the table as specified: computed amounts, with the Fixed Allowance set to wage − loop total |
| SalaryService.CalculatePF | backend/services/salary.service.js:62-64 | PF · 100 = basic · rate |
| SalaryService.GetBasicSalary | backend/services/salary.service.js:66-69 | the amount of the first component named 'Basic', else 0 |

## Left out

- Persistence, Express and Prisma plumbing:
  - Prisma's `include`/`select` shapes and `orderBy`: the name ordering of components in `getSalary` and `updateSalary`, and the date ordering of listings. Tables are maps, or a sequence in id order.
  - Request parsing: `parseInt` and `parseFloat`, NaN inputs, `new Date(string)` parsing. Values arrive already parsed, and the year of a joining date is a parameter. So `checkOut` tests the truthiness of the parsed break, where the source tests the raw body value: a string `"0"` is truthy there and gives a zero break, while the model keeps the stored break.
  - Responses, status codes and route wiring.
- Identity and crypto:
  - bcrypt hashing and comparison are parameters.
  - JWT tokens and the auth middleware are not part of this model.
  - `generatePassword` (`services/auth.service.js:19-29`) uses `Math.random`; the generated password's hash is an input.
- Formatting and time:
  - `formatTime`, `formatDate` and the `totalWorkingDays` figure of the attendance summary depend on locale and time zone.
  - The ADMIN/HR single-date override of `getAttendance` deletes properties of a `Date`.
  - Time zones and daylight saving: timestamps are local wall-clock milliseconds.
- Handlers not modelled:
  - Plain reads with no rule beyond the caller's id or company: `getTimeOffTypes`, `getTimeOffRequests`, `getAttendanceById`, `getCurrentUser`, `getProfile`, `getSkills`, `getCertifications`.
  - The filters and search of `listEmployees`, of which only the pagination arithmetic is modelled.
  - The department and location controllers: CRUD behind a role check.
- Concurrency: the check-then-write races of the handlers. Each handler is one sequential step.
- Numbers:
  - JavaScript floating point and decimal.js precision: reals are exact.
- Strings:
  - `toUpperCase` is modelled on ASCII letters only.
  - `trim` strips ASCII whitespace only; JavaScript also strips U+00A0, U+FEFF, U+2028, U+2029 and the other Unicode space separators.
- A Prisma `where` clause with an `undefined` value (a missing `loginId`, say) matching every row.
- A new salary component without a `name` or `computationType` is taken to fail Prisma's check for a required argument; the schema, which would say whether either column has a default, is not part of this model.
- AuthService.LoginIdSerialInjective: stated for non-negative serials; the next-serial rule only hands out serials of 1 and above.
- Which of several matching rows `findFirst` returns is left open (`Common.Pick`). Any lookup that is not by a unique key may pick any match.
- Email uniqueness across the user table, company-name uniqueness and the (user, skill) uniqueness are store constraints in `Db.Valid()`, as the schema declares them.
