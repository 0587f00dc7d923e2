/**
 * What the tool sends to create a window (`create_maint_window`) and where
 * it sends it: the organizer URIs built by `maint_components`,
 * `maint_group`, `maint_system` and `maint_device`.
 */
module Requests {
  import opened Base
  import opened Text
  import opened StartTime
  import opened Duration

  /** The four organizer kinds of the handler table, with the key each has in a context. */
  datatype Kind = Components | Groups | Systems | Devices {
    function Key(): string {
      match this
      case Components => "components"
      case Groups => "groups"
      case Systems => "systems"
      case Devices => "devices"
    }
  }

  function Prefix(kind: Kind): string {
    match kind
    case Components => "/zport/dmd/ComponentGroups"
    case Groups => "/zport/dmd/Groups"
    case Systems => "/zport/dmd/Systems"
    case Devices => "/zport/dmd/Devices"
  }

  /** The organizer URI: the kind's prefix followed by the path exactly as given. */
  function OrganizerUid(kind: Kind, path: string): (u: string)
    ensures |u| == |Prefix(kind)| + |path|
    ensures u[..|Prefix(kind)|] == Prefix(kind) && u[|Prefix(kind)|..] == path
  {
    Prefix(kind) + path
  }

  /** The URI keeps the path verbatim after the prefix, and different kinds or paths never share a URI. */
  lemma OrganizerUidInjective(k1: Kind, p1: string, k2: Kind, p2: string)
    ensures OrganizerUid(k1, p1)[..|Prefix(k1)|] == Prefix(k1)
    ensures OrganizerUid(k1, p1)[|Prefix(k1)|..] == p1
    ensures OrganizerUid(k1, p1) == OrganizerUid(k2, p2) ==> k1 == k2 && p1 == p2
  {
    var u1, u2 := OrganizerUid(k1, p1), OrganizerUid(k2, p2);
    assert u1[..|Prefix(k1)|] == Prefix(k1) && u1[|Prefix(k1)|..] == p1;
    if u1 == u2 {
      assert u1[11] == Prefix(k1)[11] && u2[11] == Prefix(k2)[11];
      assert k1 == k2;
      assert p1 == u1[|Prefix(k1)|..] == u2[|Prefix(k2)|..] == p2;
    }
  }

  /** The parameters of `addMaintWindow`. */
  datatype NewWindow = NewWindow(
    uid: string,
    id: string,
    name: string,
    startDate: string,
    startHours: string,
    startMinutes: string,
    timezone: string,
    durationDays: string,
    durationHours: string,
    durationMinutes: string,
    repeat: string,
    startProductionState: int,
    enabled: bool)

  /** The digits of `s[i..j]` denote `n`. */
  predicate ReadsAs(s: string, i: nat, j: nat, n: nat) {
    i <= j <= |s| && AllDigits(s[i..j]) && NatOf(s[i..j]) == n
  }

  /**
   * The create request of `create_maint_window`: a blank id for the server to
   * assign, the start split with strftime into "MM/DD/YYYY", hours and
   * minutes, and fixed timezone, repeat, production state and enabled flag.
   * Python 2's strftime refuses years before 1900, so such a start is fatal.
   */
  function NewWindowParams(uid: string, name: string, start: DateTime, duration: DurationText): (r: Result<NewWindow>)
    ensures r.Fail? <==> start.year < 1900
    ensures r.Ok? ==> r.value.id == "" && r.value.timezone == "Europe/Brussels" && r.value.repeat == "Never"
    ensures r.Ok? ==> r.value.startProductionState == 300 && r.value.enabled
    ensures r.Ok? ==> r.value.uid == uid && r.value.name == name
    ensures r.Ok? ==> Shaped(r.value.startDate, "DD/DD/DDDD") && Shaped(r.value.startHours, "DD") && Shaped(r.value.startMinutes, "DD")
    ensures r.Ok? && Valid(start) ==>
      ReadsAs(r.value.startDate, 0, 2, start.month) && ReadsAs(r.value.startDate, 3, 5, start.day) &&
      ReadsAs(r.value.startDate, 6, 10, start.year) &&
      ReadsAs(r.value.startHours, 0, 2, start.hour) && ReadsAs(r.value.startMinutes, 0, 2, start.minute)
    ensures r.Ok? ==>
      r.value.durationDays == duration.days && r.value.durationHours == duration.hours && r.value.durationMinutes == duration.minutes
  {
    if start.year < 1900 then Fail(StartBefore1900)
    else
      assert Fixed(start.hour, 2)[0..2] == Fixed(start.hour, 2) && Fixed(start.minute, 2)[0..2] == Fixed(start.minute, 2);
      StartFieldsRead(start);
      Ok(NewWindow(
        uid := uid,
        id := "",
        name := name,
        startDate := StartDate(start),
        startHours := Fixed(start.hour, 2),
        startMinutes := Fixed(start.minute, 2),
        timezone := "Europe/Brussels",
        durationDays := duration.days,
        durationHours := duration.hours,
        durationMinutes := duration.minutes,
        repeat := "Never",
        startProductionState := 300,
        enabled := true))
  }

  /** strftime's "%m/%d/%Y" for a date-time. */
  function StartDate(t: DateTime): (date: string)
    ensures Shaped(date, "DD/DD/DDDD")
    ensures Valid(t) ==> ReadsAs(date, 0, 2, t.month) && ReadsAs(date, 3, 5, t.day) && ReadsAs(date, 6, 10, t.year)
  {
    DateSlices(Fixed(t.month, 2), Fixed(t.day, 2), Fixed(t.year, 4));
    StartFieldsRead(t);
    Fixed(t.month, 2) + "/" + Fixed(t.day, 2) + "/" + Fixed(t.year, 4)
  }

  /** Where the three fields of "MM/DD/YYYY" sit. */
  lemma DateSlices(mm: string, dd: string, yyyy: string)
    requires |mm| == 2 && |dd| == 2 && |yyyy| == 4
    ensures var date := mm + "/" + dd + "/" + yyyy;
      |date| == 10 && date[0..2] == mm && date[3..5] == dd && date[6..10] == yyyy
  {
  }

  /** The fields of a valid date-time, written at their strftime widths, read back as themselves. */
  lemma StartFieldsRead(t: DateTime)
    ensures Valid(t) ==>
      NatOf(Fixed(t.month, 2)) == t.month && NatOf(Fixed(t.day, 2)) == t.day && NatOf(Fixed(t.year, 4)) == t.year &&
      NatOf(Fixed(t.hour, 2)) == t.hour && NatOf(Fixed(t.minute, 2)) == t.minute
  {
    if Valid(t) {
      NatOfFixed(t.month, 2);
      NatOfFixed(t.day, 2);
      NatOfFixed(t.year, 4);
      NatOfFixed(t.hour, 2);
      NatOfFixed(t.minute, 2);
    }
  }

  /**
   * From the command line to the request: a start written "DD/MM/YYYY HH:MM"
   * (year 1900 or later) is sent as "MM/DD/YYYY" with the written hours and
   * minutes, and the duration fields are those of the duration argument.
   */
  lemma CreateFromFullStart(uid: string, name: string, start: string, now: DateTime, duration: string)
    requires Shaped(start, FullForm) && ParseStart(start, now).Ok? && ParseDuration(duration).Ok?
    requires ParseStart(start, now).value.year >= 1900
    ensures var r := NewWindowParams(uid, name, ParseStart(start, now).value, ParseDuration(duration).value);
      r.Ok? &&
      r.value.startDate == start[3..5] + "/" + start[0..2] + "/" + start[6..10] &&
      r.value.startHours == start[11..13] && r.value.startMinutes == start[14..16] &&
      r.value.durationDays == ParseDuration(duration).value.days &&
      r.value.durationHours == ParseDuration(duration).value.hours &&
      r.value.durationMinutes == ParseDuration(duration).value.minutes
  {
    FullFormFields(start, now);
  }

  /**
   * A start written "HH:MM" (with a clock in 1900 or later) is sent on the
   * clock's date, in MM/DD/YYYY order, with the written hours and minutes.
   */
  lemma CreateFromTimeStart(uid: string, name: string, start: string, now: DateTime, dur: DurationText)
    requires Shaped(start, TimeForm) && ParseStart(start, now).Ok? && Valid(now) && now.year >= 1900
    ensures var r := NewWindowParams(uid, name, ParseStart(start, now).value, dur);
      r.Ok? &&
      ReadsAs(r.value.startDate, 0, 2, now.month) && ReadsAs(r.value.startDate, 3, 5, now.day) &&
      ReadsAs(r.value.startDate, 6, 10, now.year) &&
      r.value.startHours == start[0..2] && r.value.startMinutes == start[3..5]
  {
    TimeFormFields(start, now);
  }

  /**
   * A start written "DD/MM HH:MM" (with a clock in 1900 or later) is sent in
   * the clock's year, with the written day and month reordered to
   * MM/DD/YYYY and the written hours and minutes.
   */
  lemma CreateFromDayMonthStart(uid: string, name: string, start: string, now: DateTime, dur: DurationText)
    requires Shaped(start, DayMonthForm) && ParseStart(start, now).Ok? && Valid(now) && now.year >= 1900
    ensures var r := NewWindowParams(uid, name, ParseStart(start, now).value, dur);
      r.Ok? &&
      r.value.startDate[0..2] == start[3..5] && r.value.startDate[3..5] == start[0..2] &&
      ReadsAs(r.value.startDate, 6, 10, now.year) &&
      r.value.startHours == start[6..8] && r.value.startMinutes == start[9..11]
  {
    DayMonthFormFields(start, now);
  }
}
