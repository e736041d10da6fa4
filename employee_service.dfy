/**
 * The employee service: the mapping between an employee as the pages hold it
 * (camelCase, emergency contact nested) and a row of the `employee` table
 * (snake_case columns, emergency contact flattened), and how each call reads
 * the API's answer.
 */
module EmployeeService {
  import opened Wrappers
  import opened Responses

  datatype Contact = Contact(name: Option<string>, phone: Option<string>, relationship: Option<string>)

  /**
   * An employee as the pages, cards and the employee form hold it. `tags` and
   * `owner` are the `Tags`/`Owner` inputs of create and update; the read
   * mapping never sets them.
   */
  datatype Employee = Employee(
    id: Option<int>,
    firstName: string,
    lastName: string,
    email: string,
    phone: string,
    role: string,
    department: string,
    startDate: string,
    status: string,
    photo: Option<string>,
    emergencyContact: Option<Contact>,
    tags: Option<string>,
    owner: Option<string>)

  /** A row of the `employee` table; field names are the table's column names. */
  datatype EmployeeRecord = EmployeeRecord(
    Id: Option<int>,
    Name: Option<string>,
    Tags: Option<string>,
    Owner: Option<string>,
    first_name: string,
    last_name: string,
    email: string,
    phone: string,
    role: string,
    department: string,
    start_date: string,
    status: string,
    photo: Option<string>,
    emergency_contact_name: Option<string>,
    emergency_contact_phone: Option<string>,
    emergency_contact_relationship: Option<string>)

  /** `contact?.name` and friends: a missing contact reads every sub-field as missing. */
  function ContactName(c: Option<Contact>): Option<string> { if c.None? then None else c.value.name }
  function ContactPhone(c: Option<Contact>): Option<string> { if c.None? then None else c.value.phone }
  function ContactRelationship(c: Option<Contact>): Option<string> { if c.None? then None else c.value.relationship }

  /** The `Name` column both create and update send: first name, a space, last name. */
  function DisplayName(e: Employee): (name: string)
    ensures |name| == |e.firstName| + 1 + |e.lastName|
    ensures name[..|e.firstName|] == e.firstName && name[|e.firstName|] == ' '
    ensures name[|e.firstName| + 1..] == e.lastName
  {
    e.firstName + " " + e.lastName
  }

  /**
   * The read mapping of every call that returns employees: columns renamed to
   * camelCase, the three emergency-contact columns nested under one contact
   * object, and `Name`, `Tags` and `Owner` dropped.
   */
  function ReadEmployee(r: EmployeeRecord): (e: Employee)
    ensures e.emergencyContact.Some? && e.tags.None? && e.owner.None?
    ensures e.emergencyContact.value == Contact(r.emergency_contact_name, r.emergency_contact_phone, r.emergency_contact_relationship)
    ensures e.id == r.Id && e.firstName == r.first_name && e.lastName == r.last_name
    ensures e.startDate == r.start_date && e.photo == r.photo
    ensures e.email == r.email && e.phone == r.phone && e.role == r.role
    ensures e.department == r.department && e.status == r.status
  {
    Employee(
      id := r.Id,
      firstName := r.first_name,
      lastName := r.last_name,
      email := r.email,
      phone := r.phone,
      role := r.role,
      department := r.department,
      startDate := r.start_date,
      status := r.status,
      photo := r.photo,
      emergencyContact := Some(Contact(r.emergency_contact_name, r.emergency_contact_phone, r.emergency_contact_relationship)),
      tags := None,
      owner := None)
  }

  /**
   * The row `create` sends. Tags, photo and the emergency-contact columns default
   * to '' when missing or empty; read back, the row restores every field the
   * form edits except that photo and contact come back with those defaults.
   */
  function CreateRequest(e: Employee): (r: EmployeeRecord)
    ensures r.Id.None? && r.Name == Some(DisplayName(e)) && r.Tags == Some(OrString(e.tags, ""))
    ensures r.Owner == e.owner
    ensures r.photo.Some? && r.emergency_contact_name.Some? && r.emergency_contact_phone.Some?
            && r.emergency_contact_relationship.Some?
    ensures ReadEmployee(r) == e.(id := None, tags := None, owner := None,
      photo := Some(OrString(e.photo, "")),
      emergencyContact := Some(Contact(Some(OrString(ContactName(e.emergencyContact), "")),
                                       Some(OrString(ContactPhone(e.emergencyContact), "")),
                                       Some(OrString(ContactRelationship(e.emergencyContact), "")))))
  {
    EmployeeRecord(
      Id := None,
      Name := Some(DisplayName(e)),
      Tags := Some(OrString(e.tags, "")),
      Owner := e.owner,
      first_name := e.firstName,
      last_name := e.lastName,
      email := e.email,
      phone := e.phone,
      role := e.role,
      department := e.department,
      start_date := e.startDate,
      status := e.status,
      photo := Some(OrString(e.photo, "")),
      emergency_contact_name := Some(OrString(ContactName(e.emergencyContact), "")),
      emergency_contact_phone := Some(OrString(ContactPhone(e.emergencyContact), "")),
      emergency_contact_relationship := Some(OrString(ContactRelationship(e.emergencyContact), "")))
  }

  /**
   * The row `update` sends for record `id`: the same `Name`, but Tags, photo and
   * the contact columns pass through with no defaults. Read back, it restores
   * the employee unchanged apart from the id it was sent under, the dropped
   * Tags/Owner, and a missing contact turned into a contact with missing fields.
   */
  function UpdateRequest(id: int, e: Employee): (r: EmployeeRecord)
    ensures r.Id == Some(id) && r.Name == Some(DisplayName(e)) && r.Tags == e.tags && r.photo == e.photo
    ensures r.Owner == e.owner
    ensures ReadEmployee(r) == e.(id := Some(id), tags := None, owner := None,
      emergencyContact := Some(if e.emergencyContact.None? then Contact(None, None, None) else e.emergencyContact.value))
  {
    EmployeeRecord(
      Id := Some(id),
      Name := Some(DisplayName(e)),
      Tags := e.tags,
      Owner := e.owner,
      first_name := e.firstName,
      last_name := e.lastName,
      email := e.email,
      phone := e.phone,
      role := e.role,
      department := e.department,
      start_date := e.startDate,
      status := e.status,
      photo := e.photo,
      emergency_contact_name := ContactName(e.emergencyContact),
      emergency_contact_phone := ContactPhone(e.emergencyContact),
      emergency_contact_relationship := ContactRelationship(e.emergencyContact))
  }

  /** Writing back a row just read (as an update of its own id) restores every column except Name, Tags and Owner. */
  lemma ReadThenUpdateRestoresColumns(r: EmployeeRecord)
    requires r.Id.Some?
    ensures UpdateRequest(r.Id.value, ReadEmployee(r)) ==
      r.(Name := Some(r.first_name + " " + r.last_name), Tags := None, Owner := None)
  {
  }

  /** What `getAll` returns: every fetched row read back, or [] on any failure. */
  function GetAll(resp: FetchResponse<EmployeeRecord>): (employees: seq<Employee>)
    ensures resp.FetchThrew? || !resp.success || resp.data.None? ==> employees == []
    ensures resp.Fetched? && resp.success && resp.data.Some? ==>
      |employees| == |resp.data.value|
      && forall i :: 0 <= i < |employees| ==> employees[i] == ReadEmployee(resp.data.value[i])
  {
    FetchedRows(resp, ReadEmployee)
  }

  /** What `create` and `update` return: the first successful row read back, or nothing. */
  function SaveResult(resp: MutationResponse<EmployeeRecord>): (saved: Option<Employee>)
    ensures saved.Some? <==>
      resp.Mutation? && resp.success && resp.results.Some?
      && exists i :: 0 <= i < |resp.results.value| && resp.results.value[i].success
    ensures saved.Some? ==>
      exists i :: 0 <= i < |resp.results.value| && resp.results.value[i].success
        && saved.value == ReadEmployee(resp.results.value[i].data)
        && forall j :: 0 <= j < i ==> !resp.results.value[j].success
  {
    match FirstSuccess(resp)
    case None => None
    case Some(row) => Some(ReadEmployee(row))
  }
}
