/**
 * The setting service: nested working hours and notification flags on the
 * page side, flat columns in the `setting` table, with the flags stored as
 * the strings 'true' and 'false'.
 */
module SettingService {
  import opened Wrappers
  import opened Responses

  datatype WorkingHours = WorkingHours(start: Option<string>, end: Option<string>)

  datatype Notifications = Notifications(email: bool, desktop: bool, attendance: bool)

  /** Settings as the pages hold them; `name`, `tags`, `owner` are write-only inputs. */
  datatype Setting = Setting(
    id: Option<int>,
    name: Option<string>,
    tags: Option<string>,
    owner: Option<string>,
    companyName: string,
    companyEmail: string,
    timezone: string,
    dateFormat: string,
    workingHours: Option<WorkingHours>,
    notifications: Option<Notifications>)

  /** A row of the `setting` table; field names are the table's column names. */
  datatype SettingRecord = SettingRecord(
    Id: Option<int>,
    Name: Option<string>,
    Tags: Option<string>,
    Owner: Option<string>,
    company_name: string,
    company_email: string,
    timezone: string,
    date_format: string,
    working_hours_start: Option<string>,
    working_hours_end: Option<string>,
    notifications_email: Option<string>,
    notifications_desktop: Option<string>,
    notifications_attendance: Option<string>)

  const DefaultName := "System Settings"

  /** `flag ? 'true' : 'false'`: the stored text reads back as the same flag. */
  function EncodeFlag(flag: bool): (stored: string)
    ensures stored == "true" || stored == "false"
    ensures DecodeFlag(Some(stored)) == flag
  {
    if flag then "true" else "false"
  }

  /** `stored === 'true'`: any other text, and a missing value, read as false. */
  function DecodeFlag(stored: Option<string>): (flag: bool)
    ensures flag <==> stored == Some("true")
  {
    stored.Some? && stored.value == "true"
  }

  /** `notifications?.email` and friends: a missing object makes every flag falsy. */
  function EmailFlag(n: Option<Notifications>): bool { n.Some? && n.value.email }
  function DesktopFlag(n: Option<Notifications>): bool { n.Some? && n.value.desktop }
  function AttendanceFlag(n: Option<Notifications>): bool { n.Some? && n.value.attendance }

  /** `workingHours?.start` and `workingHours?.end`. */
  function HoursStart(w: Option<WorkingHours>): Option<string> { if w.None? then None else w.value.start }
  function HoursEnd(w: Option<WorkingHours>): Option<string> { if w.None? then None else w.value.end }

  /**
   * The read mapping: `Id` copied, the company columns renamed to camelCase,
   * `Name`, `Tags` and `Owner` dropped, working hours nested again, flags decoded.
   */
  function ReadSetting(r: SettingRecord): (s: Setting)
    ensures s.id == r.Id && s.companyName == r.company_name && s.companyEmail == r.company_email
    ensures s.timezone == r.timezone && s.dateFormat == r.date_format
    ensures s.name.None? && s.tags.None? && s.owner.None?
    ensures s.workingHours == Some(WorkingHours(r.working_hours_start, r.working_hours_end))
    ensures s.notifications.Some?
    ensures s.notifications.value.email <==> r.notifications_email == Some("true")
    ensures s.notifications.value.desktop <==> r.notifications_desktop == Some("true")
    ensures s.notifications.value.attendance <==> r.notifications_attendance == Some("true")
  {
    Setting(
      id := r.Id,
      name := None,
      tags := None,
      owner := None,
      companyName := r.company_name,
      companyEmail := r.company_email,
      timezone := r.timezone,
      dateFormat := r.date_format,
      workingHours := Some(WorkingHours(r.working_hours_start, r.working_hours_end)),
      notifications := Some(Notifications(
        DecodeFlag(r.notifications_email),
        DecodeFlag(r.notifications_desktop),
        DecodeFlag(r.notifications_attendance))))
  }

  /** The columns create and update share; `id` is absent on create. */
  function WriteRecord(id: Option<int>, tags: Option<string>, s: Setting): (r: SettingRecord)
    ensures r.Name == Some(OrString(s.name, DefaultName))
    ensures r.working_hours_start == HoursStart(s.workingHours) && r.working_hours_end == HoursEnd(s.workingHours)
    ensures s.notifications.None? ==>
      r.notifications_email == r.notifications_desktop == r.notifications_attendance == Some("false")
    ensures r.notifications_email == Some(EncodeFlag(EmailFlag(s.notifications)))
    ensures r.notifications_desktop == Some(EncodeFlag(DesktopFlag(s.notifications)))
    ensures r.notifications_attendance == Some(EncodeFlag(AttendanceFlag(s.notifications)))
    ensures r.Id == id && r.Tags == tags && r.Owner == s.owner
    ensures ReadSetting(r) == s.(id := id, name := None, tags := None, owner := None,
      workingHours := Some(WorkingHours(HoursStart(s.workingHours), HoursEnd(s.workingHours))),
      notifications := Some(Notifications(EmailFlag(s.notifications), DesktopFlag(s.notifications),
                                          AttendanceFlag(s.notifications))))
  {
    SettingRecord(
      Id := id,
      Name := Some(OrString(s.name, DefaultName)),
      Tags := tags,
      Owner := s.owner,
      company_name := s.companyName,
      company_email := s.companyEmail,
      timezone := s.timezone,
      date_format := s.dateFormat,
      working_hours_start := HoursStart(s.workingHours),
      working_hours_end := HoursEnd(s.workingHours),
      notifications_email := Some(EncodeFlag(EmailFlag(s.notifications))),
      notifications_desktop := Some(EncodeFlag(DesktopFlag(s.notifications))),
      notifications_attendance := Some(EncodeFlag(AttendanceFlag(s.notifications))))
  }

  /** The row `create` sends: Name defaults to 'System Settings', Tags to ''. */
  function CreateRequest(s: Setting): (r: SettingRecord)
    ensures r.Id.None? && r.Name == Some(OrString(s.name, DefaultName)) && r.Tags == Some(OrString(s.tags, ""))
    ensures r.Owner == s.owner
    ensures s.notifications.Some? ==> ReadSetting(r).notifications == s.notifications
    ensures s.workingHours.Some? ==> ReadSetting(r).workingHours == s.workingHours
  {
    WriteRecord(None, Some(OrString(s.tags, "")), s)
  }

  /** The row `update` sends for record `id`: the same Name default, Tags passed through. */
  function UpdateRequest(id: int, s: Setting): (r: SettingRecord)
    ensures r.Id == Some(id) && r.Name == Some(OrString(s.name, DefaultName)) && r.Tags == s.tags
    ensures r.Owner == s.owner
    ensures s.notifications.Some? ==> ReadSetting(r).notifications == s.notifications
    ensures s.workingHours.Some? ==> ReadSetting(r).workingHours == s.workingHours
  {
    WriteRecord(Some(id), s.tags, s)
  }

  /** What `getAll` returns: every fetched row read back, or [] on any failure. */
  function GetAll(resp: FetchResponse<SettingRecord>): (settings: seq<Setting>)
    ensures resp.FetchThrew? || !resp.success || resp.data.None? ==> settings == []
    ensures resp.Fetched? && resp.success && resp.data.Some? ==>
      |settings| == |resp.data.value|
      && forall i :: 0 <= i < |settings| ==> settings[i] == ReadSetting(resp.data.value[i])
  {
    FetchedRows(resp, ReadSetting)
  }

  /** What `create` and `update` return: the first successful row read back, or nothing. */
  function SaveResult(resp: MutationResponse<SettingRecord>): (saved: Option<Setting>)
    ensures saved.Some? <==>
      resp.Mutation? && resp.success && resp.results.Some?
      && exists i :: 0 <= i < |resp.results.value| && resp.results.value[i].success
    ensures saved.Some? ==>
      exists i :: 0 <= i < |resp.results.value| && resp.results.value[i].success
        && saved.value == ReadSetting(resp.results.value[i].data)
        && forall j :: 0 <= j < i ==> !resp.results.value[j].success
  {
    match FirstSuccess(resp)
    case None => None
    case Some(row) => Some(ReadSetting(row))
  }
}
