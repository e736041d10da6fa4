/** The employee card: its status badge and the initials shown when there is no photo. */
module EmployeeCard {
  import opened Wrappers
  import opened Text

  /**
   * `getStatusVariant`: active, inactive and on leave in any letter case give
   * the active, inactive and leave badges; any other status gives default.
   * The status is always defined here.
   */
  function StatusVariant(status: string): (variant: string)
    ensures ToLower(status) == "active" <==> variant == "active"
    ensures ToLower(status) == "inactive" <==> variant == "inactive"
    ensures ToLower(status) == "on leave" <==> variant == "leave"
    ensures variant in {"active", "inactive", "leave", "default"}
  {
    var s := ToLower(status);
    if s == "active" then "active"
    else if s == "inactive" then "inactive"
    else if s == "on leave" then "leave"
    else "default"
  }

  /** The badge does not depend on the letter case of the status. */
  lemma StatusVariantIgnoresCase(status: string)
    ensures StatusVariant(ToUpper(status)) == StatusVariant(status)
  {
    LowerIgnoresCase(status);
  }

  /** `name?.charAt(0) || ''`: the first character, or nothing for a missing or empty name. */
  function Initial(name: Option<string>): (r: string)
    ensures |r| <= 1
    ensures r == "" <==> name.None? || name.value == ""
    ensures r != "" ==> r[0] == name.value[0]
  {
    if name.Some? && |name.value| > 0 then [name.value[0]] else ""
  }

  /** Upper-casing an upper-cased string changes nothing. */
  lemma UpperIdempotent(s: string)
    ensures ToUpper(ToUpper(s)) == ToUpper(s)
  {
    assert forall i :: 0 <= i < |s| ==> UpperChar(UpperChar(s[i])) == UpperChar(s[i]);
  }

  /**
   * `getInitials`: the upper-cased first letters of the first and last name,
   * in that order, each one left out when its name is missing or empty.
   */
  function Initials(firstName: Option<string>, lastName: Option<string>): (r: string)
    ensures |r| == |Initial(firstName)| + |Initial(lastName)| && |r| <= 2
    ensures forall i :: 0 <= i < |r| ==> r[i] == UpperChar((Initial(firstName) + Initial(lastName))[i])
    ensures ToUpper(r) == r
  {
    var r := ToUpper(Initial(firstName) + Initial(lastName));
    UpperIdempotent(Initial(firstName) + Initial(lastName));
    r
  }

  /** With both names missing or empty there are no initials; with both present there are two. */
  lemma InitialsCount(firstName: Option<string>, lastName: Option<string>)
    ensures Initials(firstName, lastName) == "" <==>
      (firstName.None? || firstName.value == "") && (lastName.None? || lastName.value == "")
    ensures firstName.Some? && firstName.value != "" && lastName.Some? && lastName.value != "" ==>
      Initials(firstName, lastName) == [UpperChar(firstName.value[0]), UpperChar(lastName.value[0])]
  {
    var r := Initials(firstName, lastName);
    if firstName.Some? && firstName.value != "" && lastName.Some? && lastName.value != "" {
      assert r[0] == UpperChar((Initial(firstName) + Initial(lastName))[0]);
      assert r[1] == UpperChar((Initial(firstName) + Initial(lastName))[1]);
    }
  }
}
