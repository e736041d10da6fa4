/**
 * The list logic of the Departments page: the per-department head counts, the
 * search, and the average team size.
 */
module DepartmentsPage {
  import opened Wrappers
  import opened Text
  import opened Seqs
  import opened Rounding
  import opened DepartmentService
  import EmployeeService

  type Employee = EmployeeService.Employee

  /** The number of employees whose department is exactly `name`. */
  function Staff(employees: seq<Employee>, name: string): (n: nat)
    ensures n <= |employees|
    ensures n == 0 <==> forall e :: e in employees ==> e.department != name
  {
    CountWhere(employees, (e: Employee) => e.department == name)
  }

  /**
   * The enrichment in `loadData`: each department gets as `employeeCount` the
   * number of employees whose department equals its name; every other field,
   * the length and the order stay as they were.
   */
  function WithEmployeeCounts(departments: seq<Department>, employees: seq<Employee>): (enriched: seq<Department>)
    ensures |enriched| == |departments|
    ensures forall i :: 0 <= i < |departments| ==> enriched[i].employeeCount == Some(Staff(employees, departments[i].name))
    ensures forall i :: 0 <= i < |departments| ==>
      enriched[i].(employeeCount := departments[i].employeeCount) == departments[i]
  {
    seq(|departments|, i requires 0 <= i < |departments| =>
      departments[i].(employeeCount := Some(Staff(employees, departments[i].name))))
  }

  /** The sum of the head counts over a list of departments. */
  function TotalStaff(departments: seq<Department>, employees: seq<Employee>): nat
    decreases |departments|
  {
    if |departments| == 0 then 0 else Staff(employees, departments[0].name) + TotalStaff(departments[1..], employees)
  }

  ghost predicate DistinctNames(departments: seq<Department>)
  {
    forall i, j :: 0 <= i < j < |departments| ==> departments[i].name != departments[j].name
  }

  /** Removing the employees of one department leaves the head counts of the others unchanged. */
  lemma {:induction false} StaffElsewhereUnchanged(departments: seq<Department>, employees: seq<Employee>, name: string)
    requires forall i :: 0 <= i < |departments| ==> departments[i].name != name
    ensures TotalStaff(departments, Filter(employees, (e: Employee) => e.department != name)) == TotalStaff(departments, employees)
    decreases |departments|
  {
    if |departments| > 0 {
      var other := departments[0].name;
      FilterFilter(employees, (e: Employee) => e.department != name, (e: Employee) => e.department == other,
                   (e: Employee) => e.department == other);
      StaffElsewhereUnchanged(departments[1..], employees, name);
    }
  }

  /**
   * With distinct department names, no employee is counted twice: the head
   * counts add up to at most the number of employees (less when some employee's
   * department matches no department name).
   */
  lemma {:induction false} HeadCountsWithinStaff(departments: seq<Department>, employees: seq<Employee>)
    requires DistinctNames(departments)
    ensures TotalStaff(departments, employees) <= |employees|
    decreases |departments|
  {
    if |departments| > 0 {
      var name := departments[0].name;
      var others := Filter(employees, (e: Employee) => e.department != name);
      FilterPartition(employees, (e: Employee) => e.department == name, (e: Employee) => e.department != name);
      assert DistinctNames(departments[1..]) by {
        forall i, j | 0 <= i < j < |departments| - 1 ensures departments[1..][i].name != departments[1..][j].name {
          assert departments[1..][i] == departments[i + 1] && departments[1..][j] == departments[j + 1];
        }
      }
      HeadCountsWithinStaff(departments[1..], others);
      assert forall i :: 0 <= i < |departments| - 1 ==> departments[1..][i].name != name by {
        forall i | 0 <= i < |departments| - 1 ensures departments[1..][i].name != name {
          assert departments[1..][i] == departments[i + 1];
        }
      }
      StaffElsewhereUnchanged(departments[1..], employees, name);
    }
  }

  /**
   * The search test: the lower-cased term occurs in the lower-cased name or
   * description. The empty term matches every department, and a term longer
   * than both fields matches none.
   */
  predicate MatchesSearch(d: Department, term: string)
    ensures term == "" ==> MatchesSearch(d, term)
    ensures MatchesSearch(d, term) ==> |term| <= |d.name| || |term| <= |d.description|
  {
    assert term == "" ==> OccursAt(ToLower(d.name), ToLower(term), 0);
    Contains(ToLower(d.name), ToLower(term)) || Contains(ToLower(d.description), ToLower(term))
  }

  /**
   * `filterDepartments`: all departments for an empty term, otherwise exactly
   * those matching it, in their original order.
   */
  function FilterDepartments(departments: seq<Department>, searchTerm: string): (shown: seq<Department>)
    ensures searchTerm == "" ==> shown == departments
    ensures forall d :: d in shown <==> d in departments && (searchTerm == "" || MatchesSearch(d, searchTerm))
    ensures forall d: Department :: (searchTerm == "" || MatchesSearch(d, searchTerm)) ==>
      multiset(shown)[d] == multiset(departments)[d]
    ensures SubsequenceOf(shown, departments)
  {
    SubsequenceReflexive(departments);
    if searchTerm != "" then Filter(departments, (d: Department) => MatchesSearch(d, searchTerm)) else departments
  }

  /** The search is case-insensitive: an upper-cased term shows the same departments. */
  lemma SearchIgnoresCase(departments: seq<Department>, searchTerm: string)
    ensures FilterDepartments(departments, ToUpper(searchTerm)) == FilterDepartments(departments, searchTerm)
  {
    LowerIgnoresCase(searchTerm);
    assert ToUpper(searchTerm) == "" <==> searchTerm == "";
    FilterExt(departments, (d: Department) => MatchesSearch(d, ToUpper(searchTerm)),
                           (d: Department) => MatchesSearch(d, searchTerm));
  }

  /**
   * "Avg Team Size": employees per department rounded to the nearest integer,
   * halves up, and 0 when there are no departments.
   */
  function AverageTeamSize(employeeCount: nat, departmentCount: nat): (average: nat)
    ensures departmentCount == 0 ==> average == 0
    ensures departmentCount > 0 ==>
      2 * departmentCount * average <= 2 * employeeCount + departmentCount < 2 * departmentCount * average + 2 * departmentCount
  {
    if departmentCount > 0 then RoundHalfUp(employeeCount, departmentCount) else 0
  }
}
