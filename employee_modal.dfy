/**
 * The employee form: opening it blank or prefilled, editing one field, and the
 * required-field check run before saving. The form holds an employee.
 */
module EmployeeModal {
  import opened Wrappers
  import opened Text
  import opened EmployeeService

  /** The form's editable fields; their input names are given by `Name`. */
  datatype FormField =
    | FirstName | LastName | Email | Phone | Role | Department | StartDate
    | Status | Photo | ContactName | ContactPhone | ContactRelationship

  /** The input name of a field, which is also its key in the error map. */
  function Name(f: FormField): string
  {
    match f
    case FirstName => "firstName"
    case LastName => "lastName"
    case Email => "email"
    case Phone => "phone"
    case Role => "role"
    case Department => "department"
    case StartDate => "startDate"
    case Status => "status"
    case Photo => "photo"
    case ContactName => ContactPrefix + ContactKey(f)
    case ContactPhone => ContactPrefix + ContactKey(f)
    case ContactRelationship => ContactPrefix + ContactKey(f)
  }

  /** The emergency-contact fields, edited through inputs named with the contact prefix. */
  predicate IsContactField(f: FormField)
  {
    f.ContactName? || f.ContactPhone? || f.ContactRelationship?
  }

  /** A contact field's key inside the emergency contact. */
  function ContactKey(f: FormField): string
    requires IsContactField(f)
  {
    match f
    case ContactName => "name"
    case ContactPhone => "phone"
    case ContactRelationship => "relationship"
  }

  const ContactParent := "emergencyContact"
  const ContactPrefix := ContactParent + "."

  /** The fields the form check covers. */
  predicate Required(f: FormField)
  {
    f in {FirstName, LastName, Email, Phone, Role, Department, StartDate}
  }

  /** The message stored for a missing required field. */
  function Message(f: FormField): string
    requires Required(f)
  {
    match f
    case FirstName => "First name is required"
    case LastName => "Last name is required"
    case Email => "Email is required"
    case Phone => "Phone is required"
    case Role => "Role is required"
    case Department => "Department is required"
    case StartDate => "Start date is required"
  }

  /** The form's value for a field; a missing photo or contact sub-field is `None`. */
  function FieldValue(form: Employee, f: FormField): Option<string>
  {
    match f
    case FirstName => Some(form.firstName)
    case LastName => Some(form.lastName)
    case Email => Some(form.email)
    case Phone => Some(form.phone)
    case Role => Some(form.role)
    case Department => Some(form.department)
    case StartDate => Some(form.startDate)
    case Status => Some(form.status)
    case Photo => form.photo
    case ContactName => EmployeeService.ContactName(form.emergencyContact)
    case ContactPhone => EmployeeService.ContactPhone(form.emergencyContact)
    case ContactRelationship => EmployeeService.ContactRelationship(form.emergencyContact)
  }

  /** Empty or all whitespace. */
  predicate Blank(s: string) { AllWhitespace(s) }

  /** Blank is exactly what `!s.trim()` tests: trimming leaves nothing. */
  lemma BlankIsTrimEmpty(s: string)
    ensures Blank(s) <==> Trim(s) == ""
  {
  }

  /** Whether the form check flags a field: a required text field when blank, the start date when empty (no trim). */
  predicate Missing(form: Employee, f: FormField)
  {
    match f
    case FirstName => Blank(form.firstName)
    case LastName => Blank(form.lastName)
    case Email => Blank(form.email)
    case Phone => Blank(form.phone)
    case Role => Blank(form.role)
    case Department => Blank(form.department)
    case StartDate => form.startDate == ""
    case _ => false
  }

  /**
   * `validateForm`: builds the error map one required field at a time. A field
   * is in the map, with its message, exactly when it is missing; no other field
   * (status, photo, the emergency contact) ever is; the form is valid exactly
   * when the map is empty.
   */
  method ValidateForm(form: Employee) returns (valid: bool, errors: map<FormField, string>)
    ensures forall f :: f in errors <==> Missing(form, f)
    ensures forall f :: f in errors ==> Required(f) && errors[f] == Message(f)
    ensures valid <==> errors == map[]
  {
    errors := map[];
    errors := CheckField(form, errors, FirstName);
    errors := CheckField(form, errors, LastName);
    errors := CheckField(form, errors, Email);
    errors := CheckField(form, errors, Phone);
    errors := CheckField(form, errors, Role);
    errors := CheckField(form, errors, Department);
    errors := CheckField(form, errors, StartDate);
    valid := |errors| == 0;
  }

  /** One `if` of the form check: records the message for `f` when it is missing. */
  method CheckField(form: Employee, errors: map<FormField, string>, f: FormField) returns (next: map<FormField, string>)
    requires Required(f)
    requires forall g :: g in errors ==> Required(g) && errors[g] == Message(g)
    ensures forall g :: g in next <==> g in errors || (g == f && Missing(form, f))
    ensures forall g :: g in next ==> Required(g) && next[g] == Message(g)
  {
    next := errors;
    if Missing(form, f) {
      next := errors[f := Message(f)];
    }
  }

  /** An input name under the contact prefix has a second dot-separated segment. */
  lemma ContactFieldHasSubField(input: string)
    requires StartsWith(input, ContactPrefix)
    ensures |Split(input, '.')| >= 2
  {
    assert input[|ContactPrefix| - 1] == ContactPrefix[|ContactPrefix| - 1] == '.';
    SplitAtSeparator(input, '.');
  }

  /**
   * The field an input name edits: under the contact prefix, the contact
   * sub-field named by the second dot-separated segment; otherwise the field of
   * that name. Names of no modelled field give `None`.
   */
  function FieldNamed(input: string): (f: Option<FormField>)
    ensures f.Some? && !StartsWith(input, ContactPrefix) ==> Name(f.value) == input && !IsContactField(f.value)
    ensures StartsWith(input, ContactPrefix) ==> |Split(input, '.')| >= 2
    ensures StartsWith(input, ContactPrefix) && f.Some? ==>
      IsContactField(f.value) && ContactKey(f.value) == Split(input, '.')[1]
  {
    if StartsWith(input, ContactPrefix) then
      ContactFieldHasSubField(input);
      var sub := Split(input, '.')[1];
      if sub == ContactKey(ContactName) then Some(ContactName)
      else if sub == ContactKey(ContactPhone) then Some(ContactPhone)
      else if sub == ContactKey(ContactRelationship) then Some(ContactRelationship)
      else None
    else if input == "firstName" then Some(FirstName)
    else if input == "lastName" then Some(LastName)
    else if input == "email" then Some(Email)
    else if input == "phone" then Some(Phone)
    else if input == "role" then Some(Role)
    else if input == "department" then Some(Department)
    else if input == "startDate" then Some(StartDate)
    else if input == "status" then Some(Status)
    else if input == "photo" then Some(Photo)
    else None
  }

  /** Each field outside the emergency contact is selected by its own input name. */
  lemma NameSelectsField(f: FormField)
    requires !IsContactField(f)
    ensures FieldNamed(Name(f)) == Some(f)
  {
    assert |Name(f)| < |ContactPrefix|;
  }

  /** An input name made of the contact prefix and a dot-free key starts with the prefix and has the key as its second segment. */
  lemma ContactInputSplits(key: string)
    requires '.' !in key
    ensures StartsWith(ContactPrefix + key, ContactPrefix)
    ensures Split(ContactPrefix + key, '.') == [ContactParent, key]
  {
    assert (ContactPrefix + key)[..|ContactPrefix|] == ContactPrefix;
    assert ContactPrefix + key == ContactParent + ['.'] + key;
    assert '.' !in ContactParent;
    SplitFirst(ContactParent, '.', key);
  }

  /** Each emergency-contact field is selected by its own input name. */
  lemma ContactNameSelectsField(f: FormField)
    requires IsContactField(f)
    ensures FieldNamed(Name(f)) == Some(f)
  {
    assert '.' !in ContactKey(f);
    ContactInputSplits(ContactKey(f));
  }

  /** One field of the form set to `value`. */
  function Assign(form: Employee, f: FormField, value: string): (next: Employee)
    ensures FieldValue(next, f) == Some(value)
    ensures forall g :: g != f ==> FieldValue(next, g) == FieldValue(form, g)
    ensures next.id == form.id && next.tags == form.tags && next.owner == form.owner
  {
    var contact := if form.emergencyContact.None? then Contact(None, None, None) else form.emergencyContact.value;
    match f
    case FirstName => form.(firstName := value)
    case LastName => form.(lastName := value)
    case Email => form.(email := value)
    case Phone => form.(phone := value)
    case Role => form.(role := value)
    case Department => form.(department := value)
    case StartDate => form.(startDate := value)
    case Status => form.(status := value)
    case Photo => form.(photo := Some(value))
    case ContactName => form.(emergencyContact := Some(contact.(name := Some(value))))
    case ContactPhone => form.(emergencyContact := Some(contact.(phone := Some(value))))
    case ContactRelationship => form.(emergencyContact := Some(contact.(relationship := Some(value))))
  }

  /**
   * The form update of `handleInputChange`: the named field takes the value and
   * every other field keeps its value. An input under the contact prefix
   * naming no sub-field still replaces a missing contact by an empty one.
   */
  function SetField(form: Employee, input: string, value: string): (next: Employee)
    ensures FieldNamed(input).Some? ==> FieldValue(next, FieldNamed(input).value) == Some(value)
    ensures forall g :: Some(g) != FieldNamed(input) ==> FieldValue(next, g) == FieldValue(form, g)
    ensures next.id == form.id && next.tags == form.tags && next.owner == form.owner
  {
    match FieldNamed(input)
    case Some(f) => Assign(form, f, value)
    case None =>
      if StartsWith(input, ContactPrefix) && form.emergencyContact.None? then
        form.(emergencyContact := Some(Contact(None, None, None)))
      else form
  }

  /**
   * `handleInputChange`: the form with one field set, and the error map with
   * that field's message cleared to '' when it had one; every other error stays.
   */
  function HandleInputChange(form: Employee, errors: map<FormField, string>, input: string, value: string): (next: (Employee, map<FormField, string>))
    ensures next.0 == SetField(form, input, value)
    ensures next.1.Keys == errors.Keys
    ensures FieldNamed(input).Some? && !StartsWith(input, ContactPrefix) && FieldNamed(input).value in errors ==>
      next.1[FieldNamed(input).value] == ""
    ensures forall g :: g in errors && Some(g) != FieldNamed(input) ==> next.1[g] == errors[g]
  {
    var key := if StartsWith(input, ContactPrefix) then None else FieldNamed(input);
    var nextErrors := if key.Some? && key.value in errors && errors[key.value] != "" then errors[key.value := ""] else errors;
    (SetField(form, input, value), nextErrors)
  }

  /** Filling a required field with something other than whitespace (any non-empty start date) clears its check. */
  lemma FilledFieldPasses(form: Employee, f: FormField, value: string)
    requires Required(f)
    requires if f == StartDate then value != "" else !Blank(value)
    ensures !Missing(SetField(form, Name(f), value), f)
  {
    NameSelectsField(f);
  }

  const EmptyContact := Contact(Some(""), Some(""), Some(""))

  /**
   * The form state when the modal opens: for a new employee, blank fields with
   * status 'Active', an empty photo and an empty contact; for an existing one, a
   * copy of it with an empty contact filled in when it has none. The error map
   * is reset either way.
   */
  function OpenForm(employee: Option<Employee>): (state: (Employee, map<FormField, string>))
    ensures state.1 == map[]
    ensures employee.None? ==> state.0.status == "Active" && state.0.emergencyContact == Some(EmptyContact)
    ensures employee.None? ==> forall f :: Required(f) <==> Missing(state.0, f)
    ensures employee.Some? ==> state.0.emergencyContact.Some?
    ensures employee.Some? ==> state.0.(emergencyContact := employee.value.emergencyContact) == employee.value
    ensures employee.Some? && employee.value.emergencyContact.Some? ==> state.0 == employee.value
    ensures employee.Some? && employee.value.emergencyContact.None? ==> state.0.emergencyContact == Some(EmptyContact)
    ensures employee.None? ==> state.0.id.None? && state.0.tags.None? && state.0.owner.None?
    ensures employee.None? ==> state.0.photo == Some("")
    ensures employee.None? ==> forall f :: f != Status ==> FieldValue(state.0, f) == Some("")
  {
    if employee.None? then
      var blank := Employee(None, "", "", "", "", "", "", "", "Active", Some(""), Some(EmptyContact), None, None);
      assert Blank("") by { assert AllWhitespace(""); }
      (blank, map[])
    else
      var e := employee.value;
      (e.(emergencyContact := if e.emergencyContact.None? then Some(EmptyContact) else e.emergencyContact), map[])
  }
}
