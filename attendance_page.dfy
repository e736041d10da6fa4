/**
 * The list logic of the Attendance page: the date filter, the day's status
 * counts, the displayed rate, the status badge and the per-employee row.
 */
module AttendancePage {
  import opened Wrappers
  import opened Text
  import opened Seqs
  import opened Rounding
  import opened AttendanceService

  /** `filterAttendanceByDate`: exactly the records dated `selectedDate`, in order. */
  function FilterByDate(records: seq<AttendanceRecord>, selectedDate: string): (onDate: seq<AttendanceRecord>)
    ensures forall a :: a in onDate <==> a in records && a.date == selectedDate
    ensures forall a: AttendanceRecord :: a.date == selectedDate ==> multiset(onDate)[a] == multiset(records)[a]
    ensures SubsequenceOf(onDate, records)
  {
    Filter(records, (a: AttendanceRecord) => a.date == selectedDate)
  }

  datatype DayStats = DayStats(present: nat, absent: nat, late: nat)

  /**
   * `todayStats`: exact status counts over the day's records, the same counts
   * the report's summary takes; together they never exceed the records.
   */
  function TodayStats(onDate: seq<AttendanceRecord>): (st: DayStats)
    ensures var summary := Summarize(onDate);
      st.present == summary.present && st.absent == summary.absent && st.late == summary.late
    ensures st.present + st.absent + st.late <= |onDate|
  {
    DayStats(CountWhere(onDate, IsPresent), CountWhere(onDate, IsAbsent), CountWhere(onDate, IsLate))
  }

  /**
   * The displayed rate: `Math.round(present / employees * 100)`, the nearest whole
   * percent with halves up, and 0 with no employees. Unlike the report's rate it
   * counts present records only and divides by the number of employees.
   */
  function DisplayedRate(present: nat, employeeCount: nat): (percent: nat)
    ensures employeeCount == 0 ==> percent == 0
    ensures employeeCount > 0 ==>
      2 * employeeCount * percent <= 200 * present + employeeCount < 2 * employeeCount * percent + 2 * employeeCount
    ensures present <= employeeCount ==> percent <= 100
  {
    if employeeCount > 0 then
      assert present <= employeeCount ==> RoundHalfUp(100 * present, employeeCount) <= 100 by {
        if present <= employeeCount {
          RoundHalfUpAtMost(100 * present, employeeCount, 100);
        }
      }
      RoundHalfUp(100 * present, employeeCount)
    else 0
  }

  /** Nothing bounds the displayed rate by 100: two present records against one employee show 200%. */
  lemma DisplayedRateCanExceedHundred()
    ensures DisplayedRate(2, 1) == 200
  {
  }

  /**
   * `getStatusVariant`: present, absent and late in any letter case give
   * success, danger and warning; anything else, a missing status included,
   * gives default.
   */
  function StatusVariant(status: Option<string>): (variant: string)
    ensures status.Some? && ToLower(status.value) == "present" <==> variant == "success"
    ensures status.Some? && ToLower(status.value) == "absent" <==> variant == "danger"
    ensures status.Some? && ToLower(status.value) == "late" <==> variant == "warning"
    ensures variant in {"success", "danger", "warning", "default"}
  {
    if status.None? then "default"
    else
      var s := ToLower(status.value);
      if s == "present" then "success"
      else if s == "absent" then "danger"
      else if s == "late" then "warning"
      else "default"
  }

  /** The badge does not depend on the letter case of the status. */
  lemma StatusVariantIgnoresCase(status: string)
    ensures StatusVariant(Some(ToUpper(status))) == StatusVariant(Some(status))
  {
    LowerIgnoresCase(status);
  }

  /**
   * `filteredAttendance.find(att => att.employeeId === employee.Id)`: the first
   * of the day's records for that employee, or none.
   */
  function FindRecord(onDate: seq<AttendanceRecord>, employeeId: Option<int>): (found: Option<AttendanceRecord>)
    ensures found.None? <==> forall i :: 0 <= i < |onDate| ==> onDate[i].employeeId != employeeId
    ensures found.Some? ==> exists i :: 0 <= i < |onDate| && onDate[i] == found.value && onDate[i].employeeId == employeeId
                                        && forall j :: 0 <= j < i ==> onDate[j].employeeId != employeeId
  {
    var matches := Filter(onDate, (a: AttendanceRecord) => a.employeeId == employeeId);
    FilterEmpty(onDate, (a: AttendanceRecord) => a.employeeId == employeeId);
    if |matches| == 0 then None
    else
      FilterFirst(onDate, (a: AttendanceRecord) => a.employeeId == employeeId);
      Some(matches[0])
  }

  /** What one employee's row shows: check-in, check-out and the status text. */
  datatype RowView = RowView(checkIn: string, checkOut: string, status: string, variant: string)

  /**
   * The row for an employee: the found record's times, or '-' when there is no
   * record or the time is empty, and its status, or 'Not Marked'.
   */
  function EmployeeRow(onDate: seq<AttendanceRecord>, employeeId: Option<int>): (row: RowView)
    ensures FindRecord(onDate, employeeId).None? ==> row == RowView("-", "-", "Not Marked", "default")
    ensures FindRecord(onDate, employeeId).Some? ==>
      var a := FindRecord(onDate, employeeId).value;
      row == RowView(OrString(a.checkIn, "-"), OrString(a.checkOut, "-"), OrString(a.status, "Not Marked"), StatusVariant(a.status))
  {
    var found := FindRecord(onDate, employeeId);
    var checkIn := if found.None? then None else found.value.checkIn;
    var checkOut := if found.None? then None else found.value.checkOut;
    var status := if found.None? then None else found.value.status;
    RowView(OrString(checkIn, "-"), OrString(checkOut, "-"), OrString(status, "Not Marked"), StatusVariant(status))
  }
}
