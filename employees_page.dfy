/**
 * The list logic of the Employees page: the search and filter chain, and the
 * list updates after an employee is saved or deleted.
 */
module EmployeesPage {
  import opened Wrappers
  import opened Text
  import opened Seqs
  import opened EmployeeService

  /**
   * The search test: the lower-cased term occurs in the lower-cased full name,
   * email or role. The empty term matches every employee, and a term longer
   * than all three fields matches none.
   */
  predicate MatchesSearch(e: Employee, term: string)
    ensures term == "" ==> MatchesSearch(e, term)
    ensures MatchesSearch(e, term) ==> |term| <= |DisplayName(e)| || |term| <= |e.email| || |term| <= |e.role|
  {
    var t := ToLower(term);
    assert term == "" ==> OccursAt(ToLower(e.email), t, 0);
    Contains(ToLower(DisplayName(e)), t) || Contains(ToLower(e.email), t) || Contains(ToLower(e.role), t)
  }

  /** Whether an employee passes all three controls; an empty control passes everyone. */
  predicate Shown(e: Employee, searchTerm: string, departmentFilter: string, statusFilter: string)
  {
    && (searchTerm == "" || MatchesSearch(e, searchTerm))
    && (departmentFilter == "" || e.department == departmentFilter)
    && (statusFilter == "" || e.status == statusFilter)
  }

  /**
   * `filterEmployees`: the search, then the department filter, then the status
   * filter, each applied only when its control is non-empty. The result is the
   * single filter by `Shown`: exactly the employees passing all three controls,
   * in their original order.
   */
  function FilterEmployees(employees: seq<Employee>, searchTerm: string, departmentFilter: string, statusFilter: string): (shown: seq<Employee>)
    ensures shown == Filter(employees, (e: Employee) => Shown(e, searchTerm, departmentFilter, statusFilter))
    ensures forall e :: e in shown <==> e in employees && Shown(e, searchTerm, departmentFilter, statusFilter)
    ensures SubsequenceOf(shown, employees)
    ensures departmentFilter != "" ==> forall e :: e in shown ==> e.department == departmentFilter
    ensures statusFilter != "" ==> forall e :: e in shown ==> e.status == statusFilter
    ensures searchTerm == "" && departmentFilter == "" && statusFilter == "" ==> shown == employees
  {
    var bySearch := if searchTerm != "" then Filter(employees, (e: Employee) => MatchesSearch(e, searchTerm)) else employees;
    var byDepartment := if departmentFilter != "" then Filter(bySearch, (e: Employee) => e.department == departmentFilter) else bySearch;
    var shown := if statusFilter != "" then Filter(byDepartment, (e: Employee) => e.status == statusFilter) else byDepartment;
    ShownIsOneFilter(employees, searchTerm, departmentFilter, statusFilter, bySearch, byDepartment, shown);
    shown
  }

  lemma ShownIsOneFilter(employees: seq<Employee>, searchTerm: string, departmentFilter: string, statusFilter: string,
                         bySearch: seq<Employee>, byDepartment: seq<Employee>, shown: seq<Employee>)
    requires bySearch == if searchTerm != "" then Filter(employees, (e: Employee) => MatchesSearch(e, searchTerm)) else employees
    requires byDepartment == if departmentFilter != "" then Filter(bySearch, (e: Employee) => e.department == departmentFilter) else bySearch
    requires shown == if statusFilter != "" then Filter(byDepartment, (e: Employee) => e.status == statusFilter) else byDepartment
    ensures shown == Filter(employees, (e: Employee) => Shown(e, searchTerm, departmentFilter, statusFilter))
  {
    var p1 := (e: Employee) => searchTerm == "" || MatchesSearch(e, searchTerm);
    var p2 := (e: Employee) => departmentFilter == "" || e.department == departmentFilter;
    var p3 := (e: Employee) => statusFilter == "" || e.status == statusFilter;
    var p12 := (e: Employee) => p1(e) && p2(e);
    FilterWhen(employees, searchTerm != "", (e: Employee) => MatchesSearch(e, searchTerm), p1);
    FilterWhen(bySearch, departmentFilter != "", (e: Employee) => e.department == departmentFilter, p2);
    FilterWhen(byDepartment, statusFilter != "", (e: Employee) => e.status == statusFilter, p3);
    FilterFilter(employees, p1, p2, p12);
    FilterFilter(employees, p12, p3, (e: Employee) => Shown(e, searchTerm, departmentFilter, statusFilter));
  }

  /** The search is case-insensitive: an upper-cased term shows the same employees. */
  lemma SearchIgnoresCase(employees: seq<Employee>, searchTerm: string, departmentFilter: string, statusFilter: string)
    ensures FilterEmployees(employees, ToUpper(searchTerm), departmentFilter, statusFilter)
            == FilterEmployees(employees, searchTerm, departmentFilter, statusFilter)
  {
    LowerIgnoresCase(searchTerm);
    assert ToUpper(searchTerm) == "" <==> searchTerm == "";
    FilterExt(employees, (e: Employee) => Shown(e, ToUpper(searchTerm), departmentFilter, statusFilter),
                         (e: Employee) => Shown(e, searchTerm, departmentFilter, statusFilter));
  }

  /**
   * `handleEmployeeSaved`: when editing, every employee with the saved Id is
   * replaced by the saved one and the rest stay in place; when adding, the saved
   * employee is appended.
   */
  function HandleEmployeeSaved(prev: seq<Employee>, saved: Employee, editing: bool): (next: seq<Employee>)
    ensures editing ==> |next| == |prev|
    ensures editing ==> forall i :: 0 <= i < |prev| ==>
      (prev[i].id == saved.id ==> next[i] == saved) && (prev[i].id != saved.id ==> next[i] == prev[i])
    ensures !editing ==> |next| == |prev| + 1 && next[..|prev|] == prev && next[|prev|] == saved
  {
    if editing then
      seq(|prev|, i requires 0 <= i < |prev| => if prev[i].id == saved.id then saved else prev[i])
    else
      prev + [saved]
  }

  /** Saving the same employee twice while editing changes nothing more. */
  lemma EditIsIdempotent(prev: seq<Employee>, saved: Employee)
    ensures HandleEmployeeSaved(HandleEmployeeSaved(prev, saved, true), saved, true) == HandleEmployeeSaved(prev, saved, true)
  {
  }

  /** After an edit, the employees with the saved Id are exactly copies of the saved one. */
  lemma EditLeavesOnlySavedWithId(prev: seq<Employee>, saved: Employee)
    ensures forall e :: e in HandleEmployeeSaved(prev, saved, true) && e.id == saved.id ==> e == saved
  {
  }

  /**
   * The list update after `handleDeleteEmployee`: every employee with that Id is
   * removed, and each other employee keeps its place in order and its number of
   * occurrences.
   */
  function DeleteEmployee(prev: seq<Employee>, id: Option<int>): (next: seq<Employee>)
    ensures forall e :: e in next <==> e in prev && e.id != id
    ensures forall e: Employee :: e.id != id ==> multiset(next)[e] == multiset(prev)[e]
    ensures SubsequenceOf(next, prev)
  {
    Filter(prev, (e: Employee) => e.id != id)
  }

  /** Deleting an employee just added under a fresh Id gives back the list before the addition. */
  lemma DeleteUndoesAdd(prev: seq<Employee>, saved: Employee)
    requires forall e :: e in prev ==> e.id != saved.id
    ensures DeleteEmployee(HandleEmployeeSaved(prev, saved, false), saved.id) == prev
  {
    var keep := (e: Employee) => e.id != saved.id;
    FilterAppend(prev, [saved], keep);
    FilterKeepsAll(prev, keep);
    assert Filter([saved], keep) == [];
  }
}
