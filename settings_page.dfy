/**
 * The settings page's local form state: a record of top-level keys whose
 * values are strings, flags or nested records, and the dotted-path update
 * its inputs apply.
 */
module SettingsPage {
  import opened Text

  /** A settings value: a string, a flag, or a nested record. */
  datatype Value = Str(s: string) | Flag(b: bool) | Record(fields: map<string, Value>)

  type Settings = map<string, Value>

  /** The state the page starts from. */
  const InitialSettings: Settings := map[
    "companyName" := Str("TeamHub Pro"),
    "companyEmail" := Str("admin@teamhub.com"),
    "timezone" := Str("UTC-5"),
    "dateFormat" := Str("MM/DD/YYYY"),
    "workingHours" := Record(map["start" := Str("09:00"), "end" := Str("17:00")]),
    "notifications" := Record(map["email" := Flag(true), "desktop" := Flag(true), "attendance" := Flag(true)])
  ]

  /** The working day starts at 09:00 and ends at 17:00, and every notification is on. */
  lemma InitialWorkingHoursAndNotifications()
    ensures InitialSettings["workingHours"] == Record(map["start" := Str("09:00"), "end" := Str("17:00")])
    ensures var n := InitialSettings["notifications"];
      n.Record? && n.fields.Keys == {"email", "desktop", "attendance"} &&
      forall k :: k in n.fields ==> n.fields[k] == Flag(true)
  {
  }

  /** `{...prev[parent]}`: the entries of a nested record; anything else spreads to no entries. */
  function Entries(settings: Settings, parent: string): (entries: map<string, Value>)
    ensures parent in settings && settings[parent].Record? ==> entries == settings[parent].fields
    ensures !(parent in settings && settings[parent].Record?) ==> entries == map[]
  {
    if parent in settings && settings[parent].Record? then settings[parent].fields else map[]
  }

  /** The parent and child a dotted field name addresses: its first two dot-separated segments. */
  function Path(field: string): (path: (string, string))
    requires '.' in field
    ensures '.' !in path.0 && '.' !in path.1
  {
    SplitAtSeparator(field, '.');
    var parts := Split(field, '.');
    (parts[0], parts[1])
  }

  /**
   * `handleInputChange`: a field name holding a dot addresses `parent.child`
   * (the first two dot-separated segments) and replaces that one entry of the
   * nested record; any other name replaces that top-level key.
   */
  function HandleInputChange(settings: Settings, field: string, value: Value): (next: Settings)
    ensures '.' !in field ==> field in next && next[field] == value
    ensures '.' in field ==> (
      && Path(field).0 in next && next[Path(field).0].Record?
      && Path(field).1 in next[Path(field).0].fields
      && next[Path(field).0].fields[Path(field).1] == value)
    ensures next.Keys == settings.Keys + {if '.' in field then Path(field).0 else field}
  {
    if '.' in field then
      var (parent, child) := Path(field);
      settings[parent := Record(Entries(settings, parent)[child := value])]
    else
      settings[field := value]
  }

  /**
   * A dotted update sets `settings[parent][child]` and nothing else: every other
   * top-level key, and every sibling of the child, keeps its value.
   */
  lemma {:induction false} DottedUpdateIsLocal(settings: Settings, field: string, value: Value)
    requires '.' in field
    ensures var (parent, child) := Path(field);
      var next := HandleInputChange(settings, field, value);
      && next.Keys == settings.Keys + {parent}
      && (forall k :: k in settings && k != parent ==> next[k] == settings[k])
      && next[parent].Record?
      && next[parent].fields.Keys == Entries(settings, parent).Keys + {child}
      && next[parent].fields[child] == value
      && (forall c :: c in Entries(settings, parent) && c != child ==> next[parent].fields[c] == Entries(settings, parent)[c])
  {
  }

  /** An update without a dot sets that top-level key and nothing else. */
  lemma UndottedUpdateIsLocal(settings: Settings, field: string, value: Value)
    requires '.' !in field
    ensures var next := HandleInputChange(settings, field, value);
      && next.Keys == settings.Keys + {field}
      && next[field] == value
      && (forall k :: k in settings && k != field ==> next[k] == settings[k])
  {
  }

  /** Only the first two segments count: `parent.child.more` addresses the same entry as `parent.child`. */
  lemma {:induction false} ExtraSegmentsIgnored(parent: string, child: string, more: string)
    requires '.' !in parent && '.' !in child
    ensures '.' in parent + "." + child + "." + more && '.' in parent + "." + child
    ensures Path(parent + "." + child + "." + more) == Path(parent + "." + child) == (parent, child)
  {
    var long := parent + "." + child + "." + more;
    var short := parent + "." + child;
    assert long == parent + ['.'] + (child + ['.'] + more);
    assert short == parent + ['.'] + child;
    assert long[|parent|] == '.' && short[|parent|] == '.';
    SplitFirst(parent, '.', child + ['.'] + more);
    SplitFirst(child, '.', more);
    SplitFirst(parent, '.', child);
  }

  /** Hence `parent.child.more` updates the settings exactly as `parent.child` does. */
  lemma ExtraSegmentsUpdateAlike(settings: Settings, parent: string, child: string, more: string, value: Value)
    requires '.' !in parent && '.' !in child
    ensures HandleInputChange(settings, parent + "." + child + "." + more, value)
         == HandleInputChange(settings, parent + "." + child, value)
  {
    ExtraSegmentsIgnored(parent, child, more);
  }

  /** Applying the same change twice is the same as applying it once. */
  lemma {:induction false} UpdateIdempotent(settings: Settings, field: string, value: Value)
    ensures HandleInputChange(HandleInputChange(settings, field, value), field, value)
         == HandleInputChange(settings, field, value)
  {
    var once := HandleInputChange(settings, field, value);
    if '.' in field {
      var (parent, child) := Path(field);
      var entries := Entries(settings, parent)[child := value];
      assert Entries(once, parent) == entries;
      assert entries[child := value] == entries;
    }
  }
}
