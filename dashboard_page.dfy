/**
 * The counters and lists of the Dashboard page.
 */
module DashboardPage {
  import opened Seqs
  import opened AttendanceService
  import AttendancePage
  import EmployeeService

  type Employee = EmployeeService.Employee

  predicate IsActive(e: Employee) { e.status == "Active" }
  predicate IsOnLeave(e: Employee) { e.status == "On Leave" }

  /** The active and on-leave counters: exact status matches, never more than the staff together. */
  function StatusCounts(employees: seq<Employee>): (counts: (nat, nat))
    ensures counts.0 == CountWhere(employees, IsActive) && counts.1 == CountWhere(employees, IsOnLeave)
    ensures counts.0 + counts.1 <= |employees|
  {
    FilterPartition(employees, IsActive, (e: Employee) => !IsActive(e));
    FilterFilter(employees, (e: Employee) => !IsActive(e), IsOnLeave, IsOnLeave);
    (CountWhere(employees, IsActive), CountWhere(employees, IsOnLeave))
  }

  predicate PresentOn(a: AttendanceRecord, today: string) { a.date == today && IsPresent(a) }

  /** Present today: the records dated `today` whose status is 'Present'. */
  function PresentToday(records: seq<AttendanceRecord>, today: string): (n: nat)
    ensures n <= |records|
    ensures n == 0 <==> forall a :: a in records ==> !PresentOn(a, today)
  {
    CountWhere(records, (a: AttendanceRecord) => PresentOn(a, today))
  }

  /** The dashboard's present-today counter agrees with the Attendance page's present count for that day. */
  lemma PresentTodayMatchesAttendancePage(records: seq<AttendanceRecord>, today: string)
    ensures PresentToday(records, today) == AttendancePage.TodayStats(AttendancePage.FilterByDate(records, today)).present
  {
    FilterFilter(records, (a: AttendanceRecord) => a.date == today, IsPresent, (a: AttendanceRecord) => PresentOn(a, today));
  }

  /** `employees.slice(-5).reverse()`: the last five employees (or all, if fewer), newest first. */
  function RecentEmployees(employees: seq<Employee>): (recent: seq<Employee>)
    ensures |recent| == if |employees| < 5 then |employees| else 5
    ensures forall i :: 0 <= i < |recent| ==> recent[i] == employees[|employees| - 1 - i]
  {
    var start := if |employees| < 5 then 0 else |employees| - 5;
    Reverse(employees[start..])
  }

  /** `handleEmployeeSaved`: the saved employee is appended and the others stay as they were. */
  function HandleEmployeeSaved(prev: seq<Employee>, saved: Employee): (next: seq<Employee>)
    ensures |next| == |prev| + 1 && next[..|prev|] == prev && next[|prev|] == saved
  {
    prev + [saved]
  }

  /** A newly saved employee heads the recent list. */
  lemma SavedEmployeeIsMostRecent(prev: seq<Employee>, saved: Employee)
    ensures RecentEmployees(HandleEmployeeSaved(prev, saved))[0] == saved
  {
  }
}
