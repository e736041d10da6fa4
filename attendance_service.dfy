/**
 * The attendance service: the read mapping of attendance rows, the date-range
 * query, the hours-worked computation, the summary statistics and the
 * comma-separated attendance report.
 *
 * Floating point is replaced by exact integers: hours are computed in
 * hundredths of an hour, the attendance rate in tenths of a percent.
 */
module AttendanceService {
  import opened Wrappers
  import opened Text
  import opened Seqs
  import opened Responses
  import opened Rounding
  import EmployeeService

  type Employee = EmployeeService.Employee

  /** An attendance record as the pages and the report hold it. */
  datatype AttendanceRecord = AttendanceRecord(
    id: Option<int>,
    employeeId: Option<int>,
    date: string,
    checkIn: Option<string>,
    checkOut: Option<string>,
    status: Option<string>)

  /** A row of the `attendance` table; field names are the table's column names. */
  datatype AttendanceRow = AttendanceRow(
    Id: Option<int>,
    employee_id: Option<int>,
    date: string,
    check_in: Option<string>,
    check_out: Option<string>,
    status: Option<string>)

  /** The read mapping shared by `getAll` and `getByDateRange`. */
  function ReadAttendance(r: AttendanceRow): (a: AttendanceRecord)
    ensures a.id == r.Id && a.employeeId == r.employee_id && a.date == r.date
    ensures a.checkIn == r.check_in && a.checkOut == r.check_out && a.status == r.status
  {
    AttendanceRecord(r.Id, r.employee_id, r.date, r.check_in, r.check_out, r.status)
  }

  /** What `getAll` and `getByDateRange` return: the rows read back, or [] on any failure. */
  function FetchedAttendance(resp: FetchResponse<AttendanceRow>): (records: seq<AttendanceRecord>)
    ensures resp.FetchThrew? || !resp.success || resp.data.None? ==> records == []
    ensures resp.Fetched? && resp.success && resp.data.Some? ==>
      |records| == |resp.data.value|
      && forall i :: 0 <= i < |records| ==> records[i] == ReadAttendance(resp.data.value[i])
  {
    FetchedRows(resp, ReadAttendance)
  }

  // ---------------------------------------------------------------------------
  // The date-range query
  // ---------------------------------------------------------------------------

  datatype Operator = GreaterThanOrEqualTo | LessThanOrEqualTo

  /** One entry of the query's `where` list. */
  datatype Condition = Condition(fieldName: string, operator: Operator, value: string)

  /** Whether a record dated `date` satisfies a condition on the `date` field. */
  predicate Holds(c: Condition, date: string)
  {
    match c.operator
    case GreaterThanOrEqualTo => LexLe(c.value, date)
    case LessThanOrEqualTo => LexLe(date, c.value)
  }

  predicate HoldsAll(conditions: seq<Condition>, date: string)
  {
    forall k :: 0 <= k < |conditions| ==> Holds(conditions[k], date)
  }

  /** The `where` list `getByDateRange` sends: both ends of the range are inclusive. */
  function DateRangeWhere(startDate: string, endDate: string): (conditions: seq<Condition>)
    ensures forall k :: 0 <= k < |conditions| ==> conditions[k].fieldName == "date"
    ensures forall date :: HoldsAll(conditions, date) <==> LexLe(startDate, date) && LexLe(date, endDate)
  {
    var conditions := [Condition("date", GreaterThanOrEqualTo, startDate),
                       Condition("date", LessThanOrEqualTo, endDate)];
    assert forall date :: HoldsAll(conditions, date) ==> Holds(conditions[0], date) && Holds(conditions[1], date);
    conditions
  }

  /** A record dated exactly on either end of an ordered range satisfies the query. */
  lemma RangeEndsIncluded(startDate: string, endDate: string)
    requires LexLe(startDate, endDate)
    ensures HoldsAll(DateRangeWhere(startDate, endDate), startDate)
    ensures HoldsAll(DateRangeWhere(startDate, endDate), endDate)
  {
    LexLeReflexive(startDate);
    LexLeReflexive(endDate);
  }

  // ---------------------------------------------------------------------------
  // Hours worked
  // ---------------------------------------------------------------------------

  /**
   * JavaScript `Number(s)` on the forms a time part takes: surrounding
   * whitespace is ignored, the empty string is 0, an optional sign may precede
   * decimal digits; anything else is NaN (`None`).
   */
  function ToNumber(s: string): (n: Option<int>)
    ensures AllWhitespace(s) ==> n == Some(0)
  {
    var t := Trim(s);
    if t == "" then Some(0)
    else if (t[0] == '-' || t[0] == '+') && |t| > 1 && AllDigits(t[1..]) then
      var magnitude: int := DigitsValue(t[1..]);
      Some(if t[0] == '-' then -magnitude else magnitude)
    else if AllDigits(t) then Some(DigitsValue(t))
    else None
  }

  /** Decimal digits read as their value. */
  lemma ToNumberOfDigits(s: string)
    requires s != "" && AllDigits(s)
    ensures ToNumber(s) == Some(DigitsValue(s))
  {
    TrimUnchanged(s);
  }

  /**
   * `const [h, m] = t.split(':').map(Number)` followed by `h * 60 + m`: minutes
   * since midnight, NaN (`None`) when a part is not a number or there is no
   * minutes part. Parts after the second are ignored.
   */
  function TimeMinutes(t: string): (minutes: Option<int>)
    ensures ':' !in t ==> minutes.None?
  {
    var parts := Split(t, ':');
    if |parts| < 2 then None
    else
      var hours := ToNumber(parts[0]);
      var minutes := ToNumber(parts[1]);
      if hours.Some? && minutes.Some? then Some(hours.value * 60 + minutes.value) else None
  }

  /** A clock time `h:m` written in digits is `60 * h + m` minutes since midnight. */
  lemma ClockMinutes(h: string, m: string)
    requires h != "" && m != "" && AllDigits(h) && AllDigits(m)
    ensures TimeMinutes(h + [':'] + m).Some?
    ensures TimeMinutes(h + [':'] + m).value == 60 * DigitsValue(h) + DigitsValue(m)
  {
    NoColonInDigits(h);
    NoColonInDigits(m);
    SplitFirst(h, ':', m);
    ToNumberOfDigits(h);
    ToNumberOfDigits(m);
    TimeMinutesOfParts(h + [':'] + m, h, m, DigitsValue(h), DigitsValue(m));
  }

  lemma NoColonInDigits(s: string)
    requires AllDigits(s)
    ensures ':' !in s
  {
    assert forall k :: 0 <= k < |s| ==> s[k] != ':';
  }

  lemma TimeMinutesOfParts(t: string, p: string, q: string, hours: int, minutes: int)
    requires Split(t, ':') == [p, q]
    requires ToNumber(p) == Some(hours) && ToNumber(q) == Some(minutes)
    ensures TimeMinutes(t).Some? && TimeMinutes(t).value == 60 * hours + minutes
  {
    assert Split(t, ':')[0] == p;
    assert Split(t, ':')[1] == q;
  }

  /** `!checkIn || !checkOut`: a missing or empty time. */
  predicate TimeMissing(t: Option<string>) { t.None? || t.value == "" }

  /** Minutes from check-in to check-out, when both are present and parse. */
  function WorkedMinutes(checkIn: Option<string>, checkOut: Option<string>): (worked: Option<int>)
    ensures TimeMissing(checkIn) || TimeMissing(checkOut) ==> worked.None?
    ensures worked.Some? <==>
      !TimeMissing(checkIn) && !TimeMissing(checkOut) && TimeMinutes(checkIn.value).Some? && TimeMinutes(checkOut.value).Some?
    ensures worked.Some? ==> worked.value == TimeMinutes(checkOut.value).value - TimeMinutes(checkIn.value).value
  {
    if TimeMissing(checkIn) || TimeMissing(checkOut) then None
    else
      match (TimeMinutes(checkIn.value), TimeMinutes(checkOut.value))
      case (Some(a), Some(b)) => Some(b - a)
      case _ => None
  }

  /** Between two clock times `h1:m1` and `h2:m2` written in digits lie the minutes of the later less those of the earlier. */
  lemma ClockSpan(h1: string, m1: string, h2: string, m2: string)
    requires h1 != "" && m1 != "" && AllDigits(h1) && AllDigits(m1)
    requires h2 != "" && m2 != "" && AllDigits(h2) && AllDigits(m2)
    ensures WorkedMinutes(Some(h1 + [':'] + m1), Some(h2 + [':'] + m2)).Some?
    ensures WorkedMinutes(Some(h1 + [':'] + m1), Some(h2 + [':'] + m2)).value
            == (60 * DigitsValue(h2) + DigitsValue(m2)) - (60 * DigitsValue(h1) + DigitsValue(m1))
  {
    ClockMinutes(h1, m1);
    ClockMinutes(h2, m2);
    WorkedBetween(h1 + [':'] + m1, h2 + [':'] + m2);
  }

  lemma WorkedBetween(checkIn: string, checkOut: string)
    requires checkIn != "" && checkOut != ""
    requires TimeMinutes(checkIn).Some? && TimeMinutes(checkOut).Some?
    ensures WorkedMinutes(Some(checkIn), Some(checkOut)).Some?
    ensures WorkedMinutes(Some(checkIn), Some(checkOut)).value == TimeMinutes(checkOut).value - TimeMinutes(checkIn).value
  {
  }

  /**
   * Hours worked in hundredths of an hour: 0 unless the worked minutes `d` are
   * known and positive; then the integer nearest to `100 * d / 60`, which is
   * never a tie.
   */
  function HoursCenti(checkIn: Option<string>, checkOut: Option<string>): (c: nat)
    ensures TimeMissing(checkIn) || TimeMissing(checkOut) ==> c == 0
    ensures c > 0 <==> WorkedMinutes(checkIn, checkOut).Some? && WorkedMinutes(checkIn, checkOut).value > 0
    ensures WorkedMinutes(checkIn, checkOut).Some? && WorkedMinutes(checkIn, checkOut).value > 0 ==>
      var d := WorkedMinutes(checkIn, checkOut).value;
      -1 <= 5 * d - 3 * c <= 1
  {
    var worked := WorkedMinutes(checkIn, checkOut);
    if worked.Some? && worked.value > 0 then (5 * worked.value + 1) / 3 else 0
  }

  /**
   * `calculateHoursWorked`: the hours as text with exactly two decimals. It reads
   * back as `HoursCenti`, so it is never negative, and it is "0.00" when a time is
   * missing, the times are equal, check-out precedes check-in, or a part is NaN.
   * The literal '0.00' of those early returns is `toFixed(2)` of zero, so every
   * path formats the rounded hundredths.
   */
  function HoursWorked(checkIn: Option<string>, checkOut: Option<string>): (hours: string)
    ensures ParseFixed2(hours) == Some(HoursCenti(checkIn, checkOut))
    ensures |hours| >= 4 && hours[|hours| - 3] == '.'
    ensures HoursCenti(checkIn, checkOut) == 0 ==> hours == "0.00"
    ensures hours[..|hours| - 3] == NatToString(HoursCenti(checkIn, checkOut) / 100)
    ensures hours[0] != '0' || hours[1] == '.'
  {
    FormatFixed2(HoursCenti(checkIn, checkOut))
  }

  /** `toFixed(2)` of `c / 100` for a whole number of hundredths `c`. */
  function FormatFixed2(c: nat): (s: string)
    ensures ParseFixed2(s) == Some(c)
    ensures |s| >= 4 && s[|s| - 3] == '.'
    ensures c == 0 ==> s == "0.00"
    ensures s[..|s| - 3] == NatToString(c / 100)
    ensures s[0] != '0' || s[1] == '.'
  {
    var whole := NatToString(c / 100);
    var s := whole + "." + [DigitChar(c % 100 / 10), DigitChar(c % 10)];
    NatToStringRoundTrip(c / 100);
    assert s[..|s| - 3] == whole;
    assert s[|s| - 2..] == [DigitChar(c % 100 / 10), DigitChar(c % 10)];
    assert DigitsValue(s[|s| - 2..]) == c % 100 by {
      var f := s[|s| - 2..];
      assert f[..1][..0] == [];
      assert DigitsValue(f[..1]) == c % 100 / 10;
    }
    s
  }

  /** Reads text of the form `digits.dd` as a number of hundredths. */
  function ParseFixed2(s: string): Option<nat>
  {
    if |s| >= 4 && s[|s| - 3] == '.' && AllDigits(s[..|s| - 3]) && AllDigits(s[|s| - 2..]) then
      Some(DigitsValue(s[..|s| - 3]) * 100 + DigitsValue(s[|s| - 2..]))
    else None
  }

  /** `toFixed(1)` of `t / 10` for a whole number of tenths `t`. */
  function FormatFixed1(t: nat): (s: string)
    ensures ParseFixed1(s) == Some(t)
    ensures |s| >= 3 && s[|s| - 2] == '.'
    ensures t == 0 ==> s == "0.0"
    ensures s[..|s| - 2] == NatToString(t / 10)
    ensures s[0] != '0' || s[1] == '.'
  {
    var whole := NatToString(t / 10);
    var s := whole + "." + [DigitChar(t % 10)];
    NatToStringRoundTrip(t / 10);
    assert s[..|s| - 2] == whole;
    assert s[|s| - 1..] == [DigitChar(t % 10)];
    assert s[|s| - 1..][..0] == [];
    assert DigitsValue(s[|s| - 1..]) == t % 10;
    s
  }

  /** Reads text of the form `digits.d` as a number of tenths. */
  function ParseFixed1(s: string): Option<nat>
  {
    if |s| >= 3 && s[|s| - 2] == '.' && AllDigits(s[..|s| - 2]) && AllDigits(s[|s| - 1..]) then
      Some(DigitsValue(s[..|s| - 2]) * 10 + DigitsValue(s[|s| - 1..]))
    else None
  }

  // ---------------------------------------------------------------------------
  // Summary statistics
  // ---------------------------------------------------------------------------

  predicate IsPresent(a: AttendanceRecord) { a.status == Some("Present") }
  predicate IsAbsent(a: AttendanceRecord) { a.status == Some("Absent") }
  predicate IsLate(a: AttendanceRecord) { a.status == Some("Late") }

  datatype SummaryStats = SummaryStats(total: nat, present: nat, absent: nat, late: nat)

  /** The counts of `generateSummaryStats`: exact status matches, which never exceed the total together. */
  function Summarize(records: seq<AttendanceRecord>): (st: SummaryStats)
    ensures st.total == |records|
    ensures st.present == CountWhere(records, IsPresent)
    ensures st.absent == CountWhere(records, IsAbsent)
    ensures st.late == CountWhere(records, IsLate)
    ensures st.present + st.absent + st.late <= st.total
  {
    ExclusiveCountsBounded(records, IsPresent, IsAbsent, IsLate);
    SummaryStats(|records|, CountWhere(records, IsPresent), CountWhere(records, IsAbsent), CountWhere(records, IsLate))
  }

  /**
   * The attendance rate in tenths of a percent: 0 with no records, otherwise
   * `(present + late) / total * 100` rounded to the nearest tenth, halves up;
   * at most 100.0 whenever the counts come from the same records.
   */
  function AttendanceRate(st: SummaryStats): (tenths: nat)
    ensures st.total == 0 ==> tenths == 0
    ensures st.total > 0 ==>
      2 * st.total * tenths <= 2000 * (st.present + st.late) + st.total < 2 * st.total * tenths + 2 * st.total
    ensures st.present + st.late <= st.total ==> tenths <= 1000
  {
    if st.total > 0 then
      var attended := 1000 * (st.present + st.late);
      assert st.present + st.late <= st.total ==> RoundHalfUp(attended, st.total) <= 1000 by {
        if st.present + st.late <= st.total {
          RoundHalfUpAtMost(attended, st.total, 1000);
        }
      }
      RoundHalfUp(attended, st.total)
    else 0
  }

  /** A summary line: a name and a value separated by a comma. */
  function SummaryLine(name: string, value: string): string
  {
    name + "," + value
  }

  /** The seven summary lines, in fixed order; `today` is the generation date. */
  function SummaryLines(st: SummaryStats, startDate: string, endDate: string, today: string): (lines: seq<string>)
    ensures |lines| == 7
    ensures lines[0] == SummaryLine("Report Period", startDate + " to " + endDate)
    ensures lines[1] == SummaryLine("Total Records", NatToString(st.total))
    ensures lines[2] == SummaryLine("Present", NatToString(st.present))
    ensures lines[3] == SummaryLine("Absent", NatToString(st.absent))
    ensures lines[4] == SummaryLine("Late", NatToString(st.late))
    ensures lines[5] == SummaryLine("Attendance Rate", FormatFixed1(AttendanceRate(st)) + "%")
    ensures lines[6] == SummaryLine("Generated On", today)
  {
    [SummaryLine("Report Period", startDate + " to " + endDate),
     SummaryLine("Total Records", NatToString(st.total)),
     SummaryLine("Present", NatToString(st.present)),
     SummaryLine("Absent", NatToString(st.absent)),
     SummaryLine("Late", NatToString(st.late)),
     SummaryLine("Attendance Rate", FormatFixed1(AttendanceRate(st)) + "%"),
     SummaryLine("Generated On", today)]
  }

  /** A summary line whose parts hold no comma splits into exactly those two parts. */
  lemma SummaryLineSplits(name: string, value: string)
    requires ',' !in name && ',' !in value
    ensures Split(SummaryLine(name, value), ',') == [name, value]
  {
    SplitFirst(name, ',', value);
  }

  /**
   * The four count lines read back, through the same comma split a reader of the
   * report applies, as their name and the digits of the exact count.
   */
  lemma SummaryCountsReadBack(st: SummaryStats, startDate: string, endDate: string, today: string)
    ensures Split(SummaryLines(st, startDate, endDate, today)[1], ',') == ["Total Records", NatToString(st.total)]
    ensures Split(SummaryLines(st, startDate, endDate, today)[2], ',') == ["Present", NatToString(st.present)]
    ensures Split(SummaryLines(st, startDate, endDate, today)[3], ',') == ["Absent", NatToString(st.absent)]
    ensures Split(SummaryLines(st, startDate, endDate, today)[4], ',') == ["Late", NatToString(st.late)]
  {
    NoCommaInDigits(NatToString(st.total));
    NoCommaInDigits(NatToString(st.present));
    NoCommaInDigits(NatToString(st.absent));
    NoCommaInDigits(NatToString(st.late));
    SummaryLineSplits("Total Records", NatToString(st.total));
    SummaryLineSplits("Present", NatToString(st.present));
    SummaryLineSplits("Absent", NatToString(st.absent));
    SummaryLineSplits("Late", NatToString(st.late));
  }

  lemma NoCommaInDigits(s: string)
    requires AllDigits(s)
    ensures ',' !in s
  {
    assert forall k :: 0 <= k < |s| ==> s[k] != ',';
  }

  // ---------------------------------------------------------------------------
  // The report
  // ---------------------------------------------------------------------------

  const HeaderColumns := ["Employee ID", "Employee Name", "Department", "Date", "Check In", "Check Out", "Status", "Hours Worked"]

  const SummaryMarker := "--- SUMMARY STATISTICS ---"

  /** The header line: the eight column names, comma-separated. */
  function ReportHeader(): (header: string)
    ensures Split(header, ',') == HeaderColumns
  {
    assert forall k :: 0 <= k < |HeaderColumns| ==> ',' !in HeaderColumns[k];
    SplitJoin(HeaderColumns, ',');
    Join(HeaderColumns, ',')
  }

  ghost predicate HasId(employees: seq<Employee>, id: Option<int>)
  {
    exists i :: 0 <= i < |employees| && employees[i].id == id
  }

  ghost predicate LastWithId(employees: seq<Employee>, id: Option<int>, i: int)
  {
    0 <= i < |employees| && employees[i].id == id
    && forall j :: i < j < |employees| ==> employees[j].id != id
  }

  /**
   * The lookup `employees.reduce((map, emp) => { map[emp.Id] = emp; ... }, {})`:
   * its keys are exactly the ids in the list, each mapped to an employee with that id.
   */
  function EmployeeLookup(employees: seq<Employee>): (lookup: map<Option<int>, Employee>)
    ensures forall id :: id in lookup <==> HasId(employees, id)
    ensures forall id :: id in lookup ==> lookup[id].id == id
    decreases |employees|
  {
    if |employees| == 0 then map[]
    else
      var n := |employees| - 1;
      var prefix := EmployeeLookup(employees[..n]);
      assert forall id :: HasId(employees, id) <==> HasId(employees[..n], id) || employees[n].id == id by {
        forall id ensures HasId(employees, id) <==> HasId(employees[..n], id) || employees[n].id == id {
          if HasId(employees, id) {
            var i :| 0 <= i < |employees| && employees[i].id == id;
            if i < n { assert employees[..n][i] == employees[i]; }
          }
          if HasId(employees[..n], id) {
            var i :| 0 <= i < n && employees[..n][i].id == id;
            assert employees[i] == employees[..n][i];
          }
        }
      }
      prefix[employees[n].id := employees[n]]
  }

  /** When several employees share an id, the lookup holds the last of them. */
  lemma {:induction false} LookupFindsLast(employees: seq<Employee>, id: Option<int>, i: int)
    requires LastWithId(employees, id, i)
    ensures id in EmployeeLookup(employees) && EmployeeLookup(employees)[id] == employees[i]
    decreases |employees|
  {
    var n := |employees| - 1;
    var prefix := EmployeeLookup(employees[..n]);
    assert EmployeeLookup(employees) == prefix[employees[n].id := employees[n]];
    if i < n {
      assert employees[n].id != id;
      assert LastWithId(employees[..n], id, i);
      LookupFindsLast(employees[..n], id, i);
      assert employees[..n][i] == employees[i];
    }
  }

  /** `employeeMap[id] || {}`: the employee, or none. */
  function FindEmployee(lookup: map<Option<int>, Employee>, id: Option<int>): Option<Employee>
  {
    if id in lookup then Some(lookup[id]) else None
  }

  /** `String(x)` inside `join`: a missing id renders as an empty cell. */
  function IdCell(id: Option<int>): (cell: string)
    ensures cell == "" <==> id.None?
    ensures id.Some? && id.value >= 0 ==> AllDigits(cell) && DigitsValue(cell) == id.value
    ensures id.Some? && id.value < 0 ==> cell[0] == '-' && AllDigits(cell[1..]) && DigitsValue(cell[1..]) == -id.value
    ensures ',' !in cell
  {
    if id.None? then ""
    else
      var magnitude: nat := if id.value < 0 then -id.value else id.value;
      NatToStringRoundTrip(magnitude);
      NoCommaInDigits(NatToString(magnitude));
      assert id.value < 0 ==> IntToString(id.value)[1..] == NatToString(magnitude);
      IntToString(id.value)
  }

  function Quote(s: string): string { "\"" + s + "\"" }

  /**
   * The name cell as written: it reads `first_name`/`last_name`, which an
   * employee as `getAll` returns it never has (it has `firstName`/`lastName`),
   * so both halves are the '' fallback whatever the employee.
   */
  function NameCell(employee: Option<Employee>): (cell: string)
    ensures cell == "\" \""
  {
    var firstNameProperty: Option<string> := None;
    var lastNameProperty: Option<string> := None;
    Quote(OrString(firstNameProperty, "") + " " + OrString(lastNameProperty, ""))
  }

  /** The department cell: the employee's department in quotes, `""` when there is no employee. */
  function DepartmentCell(employee: Option<Employee>): (cell: string)
    ensures employee.None? ==> cell == "\"\""
    ensures employee.Some? ==> cell == "\"" + employee.value.department + "\""
  {
    Quote(OrString(if employee.None? then None else Some(employee.value.department), ""))
  }

  /**
   * The eight cells of one report row, in header order: the id, the name, the
   * department, the date, check-in, check-out and status (each empty when
   * absent), and the hours worked, which read back as hundredths.
   */
  function RowCells(a: AttendanceRecord, employee: Option<Employee>): (cells: seq<string>)
    ensures |cells| == |HeaderColumns|
    ensures cells[0] == IdCell(a.employeeId)
    ensures cells[1] == NameCell(employee)
    ensures cells[2] == DepartmentCell(employee)
    ensures cells[3] == a.date
    ensures a.checkIn.None? ==> cells[4] == ""
    ensures a.checkIn.Some? ==> cells[4] == a.checkIn.value
    ensures a.checkOut.None? ==> cells[5] == ""
    ensures a.checkOut.Some? ==> cells[5] == a.checkOut.value
    ensures a.status.None? ==> cells[6] == ""
    ensures a.status.Some? ==> cells[6] == a.status.value
    ensures ParseFixed2(cells[7]) == Some(HoursCenti(a.checkIn, a.checkOut))
  {
    EightCells(IdCell(a.employeeId), NameCell(employee), DepartmentCell(employee), a.date,
               OrString(a.checkIn, ""), OrString(a.checkOut, ""), OrString(a.status, ""),
               HoursWorked(a.checkIn, a.checkOut))
  }

  /** Eight cells in order, stated position by position. */
  function EightCells(c0: string, c1: string, c2: string, c3: string,
                      c4: string, c5: string, c6: string, c7: string): (cells: seq<string>)
    ensures |cells| == 8
    ensures cells[0] == c0 && cells[1] == c1 && cells[2] == c2 && cells[3] == c3
    ensures cells[4] == c4 && cells[5] == c5 && cells[6] == c6 && cells[7] == c7
  {
    [c0, c1, c2, c3, c4, c5, c6, c7]
  }

  /** One report row: the cells joined with commas; a row whose cells hold no comma splits back into them. */
  function ReportRow(a: AttendanceRecord, employee: Option<Employee>): (row: string)
    ensures (forall k :: 0 <= k < 8 ==> ',' !in RowCells(a, employee)[k]) ==> Split(row, ',') == RowCells(a, employee)
  {
    var cells := RowCells(a, employee);
    assert (forall k :: 0 <= k < 8 ==> ',' !in cells[k]) ==> Split(Join(cells, ','), ',') == cells by {
      if forall k :: 0 <= k < 8 ==> ',' !in cells[k] {
        SplitJoin(cells, ',');
      }
    }
    Join(cells, ',')
  }

  /** The layout of the report: header, rows, a blank line, the marker, the summary. */
  function Assemble(header: string, rows: seq<string>, summary: seq<string>): (lines: seq<string>)
    ensures |lines| == |rows| + |summary| + 3
    ensures lines[0] == header
    ensures lines[1..|rows| + 1] == rows
    ensures lines[|rows| + 1] == "" && lines[|rows| + 2] == SummaryMarker
    ensures lines[|rows| + 3..] == summary
  {
    [header] + rows + ["", SummaryMarker] + summary
  }

  /** The row lines: one per record, in input order, each joined to its employee through the lookup. */
  function RowLines(records: seq<AttendanceRecord>, employees: seq<Employee>): (rows: seq<string>)
    ensures |rows| == |records|
    ensures forall i :: 0 <= i < |records| ==>
      rows[i] == ReportRow(records[i], FindEmployee(EmployeeLookup(employees), records[i].employeeId))
  {
    var lookup := EmployeeLookup(employees);
    seq(|records|, i requires 0 <= i < |records| => ReportRow(records[i], FindEmployee(lookup, records[i].employeeId)))
  }

  /**
   * The lines of `generateReport`: the header, one row per record in input order
   * (each joined to the last employee with its id), a blank line, the summary
   * marker, and the seven summary lines, so `|records| + 10` lines in all.
   */
  function ReportLines(records: seq<AttendanceRecord>, employees: seq<Employee>,
                       startDate: string, endDate: string, today: string): (lines: seq<string>)
    ensures |lines| == |records| + 10
    ensures lines[0] == ReportHeader()
    ensures lines[1..|records| + 1] == RowLines(records, employees)
    ensures lines[|records| + 1] == "" && lines[|records| + 2] == SummaryMarker
    ensures lines[|records| + 3..] == SummaryLines(Summarize(records), startDate, endDate, today)
  {
    Assemble(ReportHeader(), RowLines(records, employees), SummaryLines(Summarize(records), startDate, endDate, today))
  }

  /**
   * The report text: the lines joined with `\n` (no CR, no trailing newline).
   * When no line holds a newline, the text splits back into exactly the
   * report's `|records| + 10` lines.
   */
  function ReportText(records: seq<AttendanceRecord>, employees: seq<Employee>,
                      startDate: string, endDate: string, today: string): (text: string)
    ensures (forall k :: 0 <= k < |records| + 10 ==> '\n' !in ReportLines(records, employees, startDate, endDate, today)[k]) ==>
      Split(text, '\n') == ReportLines(records, employees, startDate, endDate, today)
  {
    var lines := ReportLines(records, employees, startDate, endDate, today);
    assert (forall k :: 0 <= k < |records| + 10 ==> '\n' !in lines[k]) ==> Split(Join(lines, '\n'), '\n') == lines by {
      if forall k :: 0 <= k < |records| + 10 ==> '\n' !in lines[k] {
        SplitJoin(lines, '\n');
      }
    }
    Join(lines, '\n')
  }

  /**
   * `generateReport(startDate, endDate)` with the two fetches' answers and the
   * generation date as inputs: the attendance rows of the range and the
   * employees, each read as their service reads them, then assembled.
   */
  function GenerateReport(attendance: FetchResponse<AttendanceRow>, employees: FetchResponse<EmployeeService.EmployeeRecord>,
                          startDate: string, endDate: string, today: string): (report: string)
    ensures !(attendance.Fetched? && attendance.success && attendance.data.Some?) ==>
      report == Join(Assemble(ReportHeader(), [], SummaryLines(Summarize([]), startDate, endDate, today)), '\n')
    ensures var lines := ReportLines(FetchedAttendance(attendance), EmployeeService.GetAll(employees), startDate, endDate, today);
      (forall k :: 0 <= k < |lines| ==> '\n' !in lines[k]) ==> Split(report, '\n') == lines
  {
    var records := FetchedAttendance(attendance);
    assert RowLines(records, EmployeeService.GetAll(employees)) == [] <== records == [];
    ReportText(records, EmployeeService.GetAll(employees), startDate, endDate, today)
  }

  /** With no records the summary reports zero records and a 0.0% rate, not an error. */
  lemma EmptySummary(startDate: string, endDate: string, today: string)
    ensures SummaryLines(Summarize([]), startDate, endDate, today)[1] == SummaryLine("Total Records", "0")
    ensures SummaryLines(Summarize([]), startDate, endDate, today)[5] == SummaryLine("Attendance Rate", "0.0%")
  {
    var st := Summarize([]);
    assert st == SummaryStats(0, 0, 0, 0);
    assert NatToString(0) == "0";
    assert AttendanceRate(st) == 0;
  }
}
