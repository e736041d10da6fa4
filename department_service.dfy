/**
 * The department service: the mapping between a department as the pages hold
 * it and a row of the `department` table, with the defaults `create` applies.
 */
module DepartmentService {
  import opened Wrappers
  import opened Responses

  /** A department as the pages hold it; `tags`/`owner` are write-only inputs. */
  datatype Department = Department(
    id: Option<int>,
    name: string,
    description: string,
    employeeCount: Option<int>,
    managerId: Option<int>,
    tags: Option<string>,
    owner: Option<string>)

  /** A row of the `department` table; field names are the table's column names. */
  datatype DepartmentRecord = DepartmentRecord(
    Id: Option<int>,
    Name: string,
    Tags: Option<string>,
    Owner: Option<string>,
    description: string,
    employee_count: Option<int>,
    manager_id: Option<int>)

  /**
   * The read mapping: `Id` and `description` are copied, `Name` becomes `name`,
   * `employee_count` `employeeCount`, `manager_id` `managerId`.
   */
  function ReadDepartment(r: DepartmentRecord): (d: Department)
    ensures d.id == r.Id && d.name == r.Name && d.employeeCount == r.employee_count
    ensures d.description == r.description
    ensures d.managerId == r.manager_id && d.tags.None? && d.owner.None?
  {
    Department(
      id := r.Id,
      name := r.Name,
      description := r.description,
      employeeCount := r.employee_count,
      managerId := r.manager_id,
      tags := None,
      owner := None)
  }

  /**
   * The row `create` sends: `employee_count` defaults to 0 and `Tags` to '' when
   * missing or falsy. Read back it keeps name, description and manager, and the
   * employee count whenever it was a non-zero number.
   */
  function CreateRequest(d: Department): (r: DepartmentRecord)
    ensures r.Id.None? && r.Tags == Some(OrString(d.tags, "")) && r.employee_count.Some?
    ensures r.Owner == d.owner
    ensures d.employeeCount.None? || d.employeeCount.value == 0 ==> r.employee_count == Some(0)
    ensures ReadDepartment(r) == d.(id := None, tags := None, owner := None,
      employeeCount := Some(OrInt(d.employeeCount, 0)))
    ensures d.employeeCount.Some? && d.employeeCount.value != 0 ==>
      ReadDepartment(r).employeeCount == d.employeeCount
  {
    DepartmentRecord(
      Id := None,
      Name := d.name,
      Tags := Some(OrString(d.tags, "")),
      Owner := d.owner,
      description := d.description,
      employee_count := Some(OrInt(d.employeeCount, 0)),
      manager_id := d.managerId)
  }

  /** The row `update` sends for record `id`: employee count and Tags pass through with no default. */
  function UpdateRequest(id: int, d: Department): (r: DepartmentRecord)
    ensures r.Id == Some(id) && r.Tags == d.tags && r.employee_count == d.employeeCount
    ensures r.Owner == d.owner
    ensures ReadDepartment(r) == d.(id := Some(id), tags := None, owner := None)
  {
    DepartmentRecord(
      Id := Some(id),
      Name := d.name,
      Tags := d.tags,
      Owner := d.owner,
      description := d.description,
      employee_count := d.employeeCount,
      manager_id := d.managerId)
  }

  /** What `getAll` returns: every fetched row read back, or [] on any failure. */
  function GetAll(resp: FetchResponse<DepartmentRecord>): (departments: seq<Department>)
    ensures resp.FetchThrew? || !resp.success || resp.data.None? ==> departments == []
    ensures resp.Fetched? && resp.success && resp.data.Some? ==>
      |departments| == |resp.data.value|
      && forall i :: 0 <= i < |departments| ==> departments[i] == ReadDepartment(resp.data.value[i])
  {
    FetchedRows(resp, ReadDepartment)
  }

  /** What `create` and `update` return: the first successful row read back, or nothing. */
  function SaveResult(resp: MutationResponse<DepartmentRecord>): (saved: Option<Department>)
    ensures saved.Some? <==>
      resp.Mutation? && resp.success && resp.results.Some?
      && exists i :: 0 <= i < |resp.results.value| && resp.results.value[i].success
    ensures saved.Some? ==>
      exists i :: 0 <= i < |resp.results.value| && resp.results.value[i].success
        && saved.value == ReadDepartment(resp.results.value[i].data)
        && forall j :: 0 <= j < i ==> !resp.results.value[j].success
  {
    match FirstSuccess(resp)
    case None => None
    case Some(row) => Some(ReadDepartment(row))
  }
}
