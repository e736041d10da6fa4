# TeamHub HR dashboard: the verified core

This project models the logic of a React HR dashboard ("TeamHub Pro") in Dafny
and proves properties of it. The dashboard keeps employees, departments,
attendance records and company settings in a hosted record API. What the model
covers:

- **The attendance service.** It reads attendance rows and builds the
  inclusive date-range query. It computes hours worked from two `HH:MM` clock
  strings and the summary statistics with their attendance rate. It assembles
  the comma-separated attendance report: a header, one row per record, a blank
  line, a marker and seven summary lines.
- **The employee, department and setting services.** Each has a write mapping
  from the page's camelCase record to the table's snake_case row, with its
  defaults, and a read mapping back. Each reads the API's batch answers the same
  way: the first successful row or nothing, "deleted" exactly when one row
  succeeded, and `[]` on any failure.
- **The list logic inside the pages:**
  - Employees: search and filters, saving in add or edit mode, delete.
  - Departments: head counts, search and the average team size.
  - Attendance: the date filter, the day's counts, the displayed rate, the
    status badge and the per-employee row.
  - Dashboard: the counters, the five most recent employees and the append on
    save.
- **The employee form.** The required-field check builds its error map one
  field at a time. The model also covers the one-field edit, including the
  emergency-contact sub-fields, and the blank or prefilled state when the form
  opens.
- **The settings form.** Its dotted-path nested update and its initial state.
- **The employee card.** Its status badge and the initials shown in place of a
  photo.

How JavaScript values are modelled:

- `undefined`/`null` become `Option`.
- `a || b` on strings and numbers becomes `OrString`/`OrInt`.
- Strings are `seq<char>`. `split`, `join`, `includes`, `startsWith`, `trim`
  and ASCII `toLowerCase`/`toUpperCase` are defined in `Text`.
- Floating-point results are computed exactly with integers:
  - hours are in hundredths of an hour, `(5·minutes + 1) div 3`;
  - `toFixed`/`Math.round` become rounding half up;
  - the report's attendance rate is in tenths of a percent.
- The wall clock ("Generated On", "today") is a parameter.
- The record API's answers are input values (`FetchResponse`,
  `MutationResponse`).

The report's name cell follows the program: it reads `first_name`/`last_name`
from an employee produced by the service's read mapping, which only sets
`firstName`/`lastName`. So the cell is always `" "`, and the model says so
(`AttendanceService.NameCell`).

## Model

| member | source | states |
|---|---|---|
| Responses.FirstSuccess | src/services/api/employeeService.js:155-190 | create/update hand back the data of the first successful result; none when the call threw, reported failure, had no results, or no result succeeded |
| Responses.DeleteSucceeded | src/services/api/employeeService.js:281-296 | delete is true exactly when the call succeeded, carried results and exactly one result succeeded (departmentService.js:210-218 and settingService.js:270-278 are the same rule) |
| Responses.FetchedRows | src/services/api/employeeService.js:36-70 | a fetch yields every row through the read mapping, in order, or [] when it threw, failed or carried no data |
| EmployeeService.DisplayName | src/services/api/employeeService.js:135 | the Name column is the first name, one space, the last name |
| EmployeeService.ReadEmployee | src/services/api/employeeService.js:46-62 | every kept column is copied under its camelCase name (id, names, email, phone, role, department, start date, status, photo), the three emergency-contact columns nested in one contact, Name/Tags/Owner dropped |
| EmployeeService.CreateRequest | src/services/api/employeeService.js:135-149 | create sends no Id, the display Name, Tags/photo/contact defaulted to '', Owner copied; read back it restores every edited field, with photo and contact defaulted |
| EmployeeService.UpdateRequest | src/services/api/employeeService.js:206-221 | update sends the Id and Name with no defaults, Owner copied; read back it restores the employee except Id, Tags/Owner and a missing contact |
| EmployeeService.ReadThenUpdateRestoresColumns | src/services/api/employeeService.js:46-62 | a row read and written back as an update of its own Id keeps every column except Name, Tags and Owner |
| EmployeeService.GetAll | src/services/api/employeeService.js:34-70 | getAll returns the mapped rows or [] on failure, missing data or an exception |
| EmployeeService.SaveResult | src/services/api/employeeService.js:160-190 | create/update return the first successful row read back, or nothing |
| DepartmentService.ReadDepartment | src/services/api/departmentService.js:37-43 | Id and description copied, Name→name, employee_count→employeeCount, manager_id→managerId, Tags/Owner dropped |
| DepartmentService.CreateRequest | src/services/api/departmentService.js:96-103 | employee_count defaults to 0 and Tags to '' when falsy, Owner copied; read back restores name, description, managerId and a non-zero count |
| DepartmentService.UpdateRequest | src/services/api/departmentService.js:148-156 | employee_count, Tags and Owner pass through; read back restores the department under the sent Id |
| DepartmentService.GetAll | src/services/api/departmentService.js:25-51 | the mapped rows, or [] on any failure |
| DepartmentService.SaveResult | src/services/api/departmentService.js:108-133 | the first successful row read back, or nothing |
| SettingService.EncodeFlag | src/services/api/settingService.js:136-138 | a flag is stored as 'true' or 'false' and reads back as the same flag |
| SettingService.DecodeFlag | src/services/api/settingService.js:54-56 | a stored flag reads true exactly when it is the text 'true' |
| SettingService.ReadSetting | src/services/api/settingService.js:43-58 | Id copied; company_name, company_email, timezone, date_format renamed to camelCase; Name/Tags/Owner dropped; working-hours columns nested again; the three flags decoded |
| SettingService.WriteRecord | src/services/api/settingService.js:127-138 | Name defaults to 'System Settings', Tags and Owner passed on, working hours flattened, each flag written as the text 'true' or 'false' (all 'false' when the notifications object is missing); read back restores the settings |
| SettingService.CreateRequest | src/services/api/settingService.js:125-139 | create adds no Id, Tags defaulted to '' and Owner copied; flags and working hours survive the round trip |
| SettingService.UpdateRequest | src/services/api/settingService.js:193-207 | update sends the Id, the same Name default, Tags and Owner unchanged; flags and working hours survive the round trip |
| SettingService.GetAll | src/services/api/settingService.js:31-66 | the mapped rows, or [] on any failure |
| SettingService.SaveResult | src/services/api/settingService.js:144-178 | the first successful row read back, or nothing |
| AttendanceService.ReadAttendance | src/services/api/attendanceService.js:282-289 | the attendance read mapping renames employee_id, check_in, check_out |
| AttendanceService.FetchedAttendance | src/services/api/attendanceService.js:273-297 | the range query's rows read back, or [] on any failure |
| AttendanceService.DateRangeWhere | src/services/api/attendanceService.js:257-268 | a date passes both conditions exactly when start ≤ date ≤ end in string order |
| AttendanceService.RangeEndsIncluded | src/services/api/attendanceService.js:257-268 | both range ends are inside the range |
| AttendanceService.ToNumber | src/services/api/attendanceService.js:366-367 | `Number` on a clock part: blank text is 0 |
| AttendanceService.ToNumberOfDigits | src/services/api/attendanceService.js:366-367 | `Number` of a digit string is its decimal value |
| AttendanceService.TimeMinutes | src/services/api/attendanceService.js:366-370 | a time with no ':' has no minutes part and gives NaN (none) |
| AttendanceService.ClockMinutes | src/services/api/attendanceService.js:366-370 | a digit time 'h:m' is 60·h + m minutes |
| AttendanceService.WorkedMinutes | src/services/api/attendanceService.js:364-372 | none when a time is missing or empty or a time is NaN; otherwise check-out minutes less check-in minutes |
| AttendanceService.ClockSpan | src/services/api/attendanceService.js:366-372 | from 'h1:m1' to 'h2:m2' the difference is (60·h2 + m2) − (60·h1 + m1) |
| AttendanceService.HoursCenti | src/services/api/attendanceService.js:363-375 | 0 with a missing or empty time; positive exactly when check-out is after check-in; otherwise the hours worked rounded to hundredths |
| AttendanceService.HoursWorked | src/services/api/attendanceService.js:363-376 | a two-decimal string that reads back as the centi-hours; its whole part is the decimal hours with no leading zero; '0.00' when none were worked |
| AttendanceService.FormatFixed2 | src/services/api/attendanceService.js:375 | `toFixed(2)` text reads back as the same hundredths; the whole part is the shortest decimal of c/100, so no leading zero |
| AttendanceService.FormatFixed1 | src/services/api/attendanceService.js:386 | `toFixed(1)` text reads back as the same tenths; the whole part is the shortest decimal of t/10, so no leading zero |
| AttendanceService.Summarize | src/services/api/attendanceService.js:379-384 | total is the record count; present/absent/late count exact status matches; their sum is at most the total |
| AttendanceService.AttendanceRate | src/services/api/attendanceService.js:386 | 0 for no records, else (present+late)/total in tenths of a percent rounded half up, never above 100.0 |
| AttendanceService.SummaryLines | src/services/api/attendanceService.js:388-396 | seven 'Label,Value' lines in fixed order with the period, counts, rate and report date |
| AttendanceService.SummaryLineSplits | src/services/api/attendanceService.js:388-396 | a summary line with a comma-free label splits back into label and value |
| AttendanceService.SummaryCountsReadBack | src/services/api/attendanceService.js:390-393 | the four count lines split back into label and decimal count |
| AttendanceService.NoCommaInDigits | src/services/api/attendanceService.js:390-393 | a decimal count holds no comma |
| AttendanceService.ReportHeader | src/services/api/attendanceService.js:316-325 | the header splits into the eight fixed column names |
| AttendanceService.EmployeeLookup | src/services/api/attendanceService.js:310-313 | the lookup has exactly the employees' ids as keys, each mapped to an employee with that id |
| AttendanceService.LookupFindsLast | src/services/api/attendanceService.js:310-313 | with duplicate ids the last employee wins |
| AttendanceService.IdCell | src/services/api/attendanceService.js:332 | empty exactly for a missing id; otherwise the decimal digits of the id (after '-' when negative); never a comma |
| AttendanceService.NameCell | src/services/api/attendanceService.js:333 | the name cell is always `" "` (see above) |
| AttendanceService.DepartmentCell | src/services/api/attendanceService.js:328-334 | the quoted department, or `""` when no employee matches |
| AttendanceService.RowCells | src/services/api/attendanceService.js:327-340 | a row has one cell per header column: id, name, department, date, check-in, check-out and status (each '' when absent), then the hours worked reading back as the centi-hours |
| AttendanceService.ReportRow | src/services/api/attendanceService.js:331-340 | a row whose cells hold no comma splits back into exactly its cells |
| AttendanceService.Assemble | src/services/api/attendanceService.js:346-352 | the header, the rows in order, a blank line, the marker, then the summary |
| AttendanceService.RowLines | src/services/api/attendanceService.js:327-341 | one row per record, in input order, joined to its employee |
| AttendanceService.ReportLines | src/services/api/attendanceService.js:316-352 | the report has rows+10 lines laid out as above, with the summary of the same records |
| AttendanceService.ReportText | src/services/api/attendanceService.js:346-352 | when no line holds a newline, the report text splits on newlines back into its rows+10 lines |
| AttendanceService.GenerateReport | src/services/api/attendanceService.js:300-352 | a failed attendance fetch gives a header-plus-summary report, not an error; otherwise, when no line holds a newline, the report splits back into the lines built from the fetched records and the employees as the employee service reads them |
| AttendanceService.EmptySummary | src/services/api/attendanceService.js:386-390 | with no records the summary says 'Total Records,0' and 'Attendance Rate,0.0%' |
| EmployeesPage.FilterEmployees | src/components/pages/Employees.jsx:53-73 | the chained filters equal one filter: an employee stays exactly when it matches the search, department and status; the result is an ordered subsequence; no filters keep all |
| EmployeesPage.MatchesSearch | src/components/pages/Employees.jsx:57-61 | the empty term matches everyone; a term longer than the full name, the email and the role matches no one |
| EmployeesPage.SearchIgnoresCase | src/components/pages/Employees.jsx:56-61 | the search does not depend on the letter case of the term |
| EmployeesPage.HandleEmployeeSaved | src/components/pages/Employees.jsx:85-91 | edit mode replaces each employee with the saved Id and keeps the length; add mode appends |
| EmployeesPage.EditIsIdempotent | src/components/pages/Employees.jsx:87 | saving the same edit twice equals saving it once |
| EmployeesPage.EditLeavesOnlySavedWithId | src/components/pages/Employees.jsx:87 | after an edit every employee with that Id is the saved one |
| EmployeesPage.DeleteEmployee | src/components/pages/Employees.jsx:97 | removes exactly the employees with that Id and keeps the rest in order |
| EmployeesPage.DeleteUndoesAdd | src/components/pages/Employees.jsx:89-97 | adding an employee whose Id no other has, then deleting that Id, gives the old list back |
| DepartmentsPage.Staff | src/components/pages/Departments.jsx:42 | the count is at most the number of employees, and 0 exactly when no employee has that department |
| DepartmentsPage.WithEmployeeCounts | src/components/pages/Departments.jsx:40-43 | each department's count becomes its number of employees; all else, the length and the order are kept |
| DepartmentsPage.StaffElsewhereUnchanged | src/components/pages/Departments.jsx:42 | an employee of another department does not change a department's count |
| DepartmentsPage.HeadCountsWithinStaff | src/components/pages/Departments.jsx:40-43 | with distinct names the head counts add up to at most the number of employees |
| DepartmentsPage.FilterDepartments | src/components/pages/Departments.jsx:54-65 | a department stays exactly when the term occurs in its name or description, ignoring case; empty term keeps all; every match keeps all its occurrences; ordered subsequence |
| DepartmentsPage.MatchesSearch | src/components/pages/Departments.jsx:58-61 | the empty term matches every department; a term longer than both the name and the description matches none |
| DepartmentsPage.SearchIgnoresCase | src/components/pages/Departments.jsx:58-61 | the search does not depend on the letter case of the term |
| DepartmentsPage.AverageTeamSize | src/components/pages/Departments.jsx:139 | employees/departments rounded half up, 0 with no departments |
| AttendancePage.FilterByDate | src/components/pages/Attendance.jsx:47-50 | keeps exactly the records of the selected date, in order |
| AttendancePage.TodayStats | src/components/pages/Attendance.jsx:70-74 | the day's exact status counts, agreeing with the report's summary, summing to at most the day's records |
| AttendancePage.DisplayedRate | src/components/pages/Attendance.jsx:147 | present/employees as a whole percent rounded half up, 0 with no employees, at most 100 when present ≤ employees |
| AttendancePage.DisplayedRateCanExceedHundred | src/components/pages/Attendance.jsx:147 | more present records than employees shows a rate above 100 |
| AttendancePage.StatusVariant | src/components/pages/Attendance.jsx:56-63 | present/absent/late in any case give success/danger/warning; anything else, missing included, gives default |
| AttendancePage.StatusVariantIgnoresCase | src/components/pages/Attendance.jsx:57 | the badge does not depend on letter case |
| AttendancePage.FindRecord | src/components/pages/Attendance.jsx:192 | the first of the day's records for the employee, or none when there is none |
| AttendancePage.EmployeeRow | src/components/pages/Attendance.jsx:192-234 | the found record's times and status, '-' and 'Not Marked' when missing |
| DashboardPage.StatusCounts | src/components/pages/Dashboard.jsx:57-58 | exact 'Active' and 'On Leave' counts, summing to at most the employees |
| DashboardPage.PresentToday | src/components/pages/Dashboard.jsx:59-62 | counts records of today with status 'Present' |
| DashboardPage.PresentTodayMatchesAttendancePage | src/components/pages/Dashboard.jsx:59-62 | the counter equals the Attendance page's present count for today |
| DashboardPage.RecentEmployees | src/components/pages/Dashboard.jsx:65 | min(5, n) entries, entry i being employee n-1-i |
| DashboardPage.HandleEmployeeSaved | src/components/pages/Dashboard.jsx:50-52 | appends the saved employee and keeps the others |
| DashboardPage.SavedEmployeeIsMostRecent | src/components/pages/Dashboard.jsx:50-65 | a just-saved employee heads the recent list |
| EmployeeModal.CheckField | src/components/organisms/EmployeeModal.jsx:77-83 | one check adds exactly its field, with its message, when that field is missing, and keeps every earlier error |
| EmployeeModal.ValidateForm | src/components/organisms/EmployeeModal.jsx:75-87 | a field has an error, with its message, exactly when it is a blank required text field or an empty start date; status, photo and contact never do; valid exactly when there are no errors |
| EmployeeModal.BlankIsTrimEmpty | src/components/organisms/EmployeeModal.jsx:77-82 | blank is what `!s.trim()` tests |
| EmployeeModal.SetField | src/components/organisms/EmployeeModal.jsx:112-124 | the named field (a contact sub-field under the contact prefix) takes the value and every other field keeps its value |
| EmployeeModal.HandleInputChange | src/components/organisms/EmployeeModal.jsx:112-128 | the form with one field set; the field's error cleared to '' when it had one, every other error kept |
| EmployeeModal.FieldNamed | src/components/organisms/EmployeeModal.jsx:112-123 | a name under 'emergencyContact.' selects the contact field keyed by its second segment; any other name selects the non-contact field of that name |
| EmployeeModal.NameSelectsField | src/components/organisms/EmployeeModal.jsx:122-123 | a top-level input name edits its own field |
| EmployeeModal.ContactNameSelectsField | src/components/organisms/EmployeeModal.jsx:113-121 | 'emergencyContact.x' edits contact sub-field x |
| EmployeeModal.FilledFieldPasses | src/components/organisms/EmployeeModal.jsx:77-83 | filling a required field with non-blank text clears its check |
| EmployeeModal.OpenForm | src/components/organisms/EmployeeModal.jsx:32-61 | no employee: no id, every field '' (photo and contact sub-fields included) except status 'Active', every required field missing; an employee: copied, a missing contact replaced by the empty contact; errors reset |
| SettingsPage.InitialWorkingHoursAndNotifications | src/components/pages/Settings.jsx:10-24 | working hours 09:00 to 17:00, all three notification flags on |
| SettingsPage.Entries | src/components/pages/Settings.jsx:34 | `...prev[parent]` spreads the nested record's entries, and nothing when the parent is missing or not a record |
| SettingsPage.Path | src/components/pages/Settings.jsx:30 | a dotted name addresses its first two dot-free segments |
| SettingsPage.HandleInputChange | src/components/pages/Settings.jsx:28-41 | the addressed key (or parent.child entry) takes the value; keys gain at most the addressed one |
| SettingsPage.DottedUpdateIsLocal | src/components/pages/Settings.jsx:29-37 | a dotted update changes only settings[parent][child]; siblings and other keys keep their values |
| SettingsPage.UndottedUpdateIsLocal | src/components/pages/Settings.jsx:38-40 | an undotted update changes only that key |
| SettingsPage.ExtraSegmentsIgnored | src/components/pages/Settings.jsx:30 | 'a.b.c' addresses the same entry as 'a.b' |
| SettingsPage.ExtraSegmentsUpdateAlike | src/components/pages/Settings.jsx:29-37 | so 'a.b.c' updates exactly like 'a.b' |
| SettingsPage.UpdateIdempotent | src/components/pages/Settings.jsx:28-41 | applying the same update twice equals applying it once |
| EmployeeCard.StatusVariant | src/components/molecules/EmployeeCard.jsx:7-14 | active/inactive/on leave in any case give active/inactive/leave; anything else gives default |
| EmployeeCard.StatusVariantIgnoresCase | src/components/molecules/EmployeeCard.jsx:8 | the badge does not depend on letter case |
| EmployeeCard.Initial | src/components/molecules/EmployeeCard.jsx:17 | the first character, or nothing for a missing or empty name |
| EmployeeCard.Initials | src/components/molecules/EmployeeCard.jsx:16-18 | at most two characters: the upper-cased initials, in order, of the names present |
| EmployeeCard.InitialsCount | src/components/molecules/EmployeeCard.jsx:17 | '' exactly when both names are missing or empty; two upper-cased initials when both are present |

## Left out

- The record API client, `window.ApperSDK`, environment variables, async/await, the dynamic import of the employee service and `console.error` logging are not modelled. Each call's answer is an input value.
- The employee and department `getById` calls are not modelled. They use the same read mapping, and no modelled logic calls them.
- Reading the wall clock ("Generated On", the selected day, Dashboard's today) is not modelled. The date is a parameter.
- Floating point is not modelled. Hours, rates and the average team size are exact integers, rounded half up where the source relies on `toFixed`/`Math.round`, and a float tie is taken as exact.
- Dashboard's rate (Dashboard.jsx:172) is not modelled. It divides by the employee count without a zero guard.
- AttendanceService.ToNumber: covers an optional sign followed by digits, after trimming. `Number`'s other forms (decimals, exponents, hex, `Infinity`) count as not-a-number.
- Text.ToLower, Text.ToUpper: map only ASCII letters. JavaScript's full Unicode case mapping is not modelled.
- JavaScript `TypeError`s on unguarded undefined values are not modelled. Examples are `status.toLowerCase()` with no status, and `emp.email.toLowerCase()` with no email. The modelled strings are always defined there.
- AttendanceService.EmployeeLookup: keys on `Option<int>`, so a `null` id and an `undefined` id are the same key `None`. In JavaScript they become the distinct keys "null" and "undefined", so a record with an undefined id does not find an employee with a null id.
- SettingsPage.Entries: spreading a nested string value (`...'abc'`) gives its characters as indexed keys in JavaScript. The model spreads any non-record value to no entries.
- EmployeeModal.SetField: only the twelve known form fields are modelled. An input naming an unknown key or an unknown contact sub-field adds no field.
- EmployeesPage.HandleEmployeeSaved: takes a saved `Employee`, so the `null` that the employee service's `create`/`update` return on failure (employeeService.js:155-158, 190, 197) is not modelled. The modal passes it on unconditionally (EmployeeModal.jsx:103); in edit mode the page then throws on `savedEmployee.Id`, and in add mode it appends `null` to the list.
- DashboardPage.HandleEmployeeSaved: takes a saved `Employee`, so the `null` of a failed create (employeeService.js:155-158, 197), which the modal passes on (EmployeeModal.jsx:103) and the dashboard appends to its list, is not modelled.
- EmployeeModal.OpenForm: the departments reload when the modal opens is not modelled, because it is I/O.
- The submit handler (`handleSubmit`), `handleSave` in Settings, toasts and `window.confirm` are not modelled. Neither is any JSX rendering, framer-motion, routing, the date-fns `format` call or the unused mock-data imports.
- Attendance's `getEmployeeById` is not modelled. Only rendering uses it.
- EmployeesPage.DeleteEmployee: the page removes the employee whatever the service's delete answered. The model does the same, and the service's answer is modelled separately (Responses.DeleteSucceeded).
