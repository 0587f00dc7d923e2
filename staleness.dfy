/**
 * The staleness sweep (`clean_maint_windows`): every enabled, non-repeating
 * window of an organizer whose end lies in the past is disabled with an
 * edit request that otherwise repeats the window's own settings. The window
 * list is the `data` of the getMaintWindows reply and `now` is the reading
 * of `time.time()`, both passed in.
 */
module Staleness {
  import opened Base
  import opened Text

  /** A window record as getMaintWindows returns it (only the fields the sweep reads). */
  datatype Window = Window(
    id: string,
    name: string,
    enabled: bool,
    repeat: string,
    duration: string,       // "N days HH:MM:SS" or "HH:MM..."
    start: int,             // epoch seconds
    startTime: string,      // "YYYY/MM/DD HH:MM:SS <zone>"
    timezone: string,
    startProdState: int)

  /** A decoded window duration: its length in seconds and the fields an edit sends back. */
  datatype WindowDuration = WindowDuration(seconds: nat, days: Option<string>, hours: string, minutes: string)

  /** The days group as the length computation reads it: absent or empty counts as 0. */
  function DaysValue(days: Option<string>): nat
    requires days.Some? ==> AllDigits(days.value)
  {
    match days
    case None => 0
    case Some(d) => NatOf(d)
  }

  /** `(\d*)\sdays\s` at the start of `d`: the digits, and where the text after it begins. */
  function DaysPrefix(d: string): (r: Option<(string, nat)>)
    ensures r.Some? ==> AllDigits(r.value.0) && r.value.1 <= |d|
  {
    var i := Span(d);
    if i + 6 <= |d| && IsSpace(d[i]) && d[i + 1..i + 5] == "days" && IsSpace(d[i + 5]) then
      Some((d[..i], i + 6))
    else None
  }

  /** The fields read from "HH:MM..." after the given days group; the seconds are ignored. */
  function ClockOf(c: string, days: Option<string>): (r: WindowDuration)
    requires StartsShaped(c, "DD:DD") && (days.Some? ==> AllDigits(days.value))
    ensures r.days == days && r.hours == c[0..2] && r.minutes == c[3..5]
    ensures Shaped(r.hours, "DD") && Shaped(r.minutes, "DD")
    ensures r.seconds == DaysValue(days) * 86400 + NatOf(r.hours) * 3600 + NatOf(r.minutes) * 60
  {
    ClockDigits(c);
    WindowDuration(DaysValue(days) * 86400 + NatOf(c[0..2]) * 3600 + NatOf(c[3..5]) * 60, days, c[0..2], c[3..5])
  }

  lemma ClockDigits(c: string)
    requires StartsShaped(c, "DD:DD")
    ensures Shaped(c[0..2], "DD") && Shaped(c[3..5], "DD") && AllDigits(c[0..2]) && AllDigits(c[3..5])
  {
    assert c[0..2] == c[..5][0..2] && c[3..5] == c[..5][3..5];
  }

  /** "HH:MM:SS..." also begins with "HH:MM". */
  lemma ClockPrefix(c: string)
    requires StartsShaped(c, "DD:DD:DD")
    ensures StartsShaped(c, "DD:DD")
  {
    assert c[..5] == c[..8][..5];
  }

  /**
   * The duration decoding of `clean_maint_windows`: first
   * `((\d*)\sdays\s)?(\d\d):(\d\d):(\d\d)`, then `(\d\d):(\d\d)`, both matched
   * at the start only. Seconds are ignored; the days group may be absent
   * (reported as None) or empty, and then counts as 0; the bare "HH:MM" form
   * reports its days as "00". Any other text is unreadable.
   */
  function DecodeWindowDuration(d: string): (r: Option<WindowDuration>)
    ensures r.Some? ==> Shaped(r.value.hours, "DD") && Shaped(r.value.minutes, "DD")
    ensures r.Some? && r.value.days.Some? ==> AllDigits(r.value.days.value)
    ensures r.Some? ==> r.value.seconds == DaysValue(r.value.days) * 86400 + NatOf(r.value.hours) * 3600 + NatOf(r.value.minutes) * 60
    ensures r.None? <==>
      !StartsShaped(d, "DD:DD") && !(DaysPrefix(d).Some? && StartsShaped(d[DaysPrefix(d).value.1..], "DD:DD:DD"))
  {
    var pre := DaysPrefix(d);
    if pre.Some? && StartsShaped(d[pre.value.1..], "DD:DD:DD") then
      ClockPrefix(d[pre.value.1..]);
      Some(ClockOf(d[pre.value.1..], Some(pre.value.0)))
    else if StartsShaped(d, "DD:DD:DD") then
      ClockPrefix(d);
      Some(ClockOf(d, None))
    else if StartsShaped(d, "DD:DD") then
      Some(ClockOf(d, Some("00")))
    else None
  }

  /** `(\d{4})/(\d{2})/(\d{2})\s(\d{2}):(\d{2}):\d{2} ` at the start of startTime. */
  const StartTimeForm := "DDDD/DD/DDSDD:DD:DD "

  /** The parameters of `editMaintWindow`. */
  datatype WindowEdit = WindowEdit(
    uid: string,
    id: string,
    startDate: string,
    startHours: string,
    startMinutes: string,
    timezone: string,
    durationDays: Option<string>,   // None where the tool sends Python's None
    durationHours: string,
    durationMinutes: string,
    repeat: string,
    startProductionState: int,
    enabled: bool)

  /** The edit that disables `w`: its own settings, the date reordered to MM/DD/YYYY, and enabled false. */
  function DisableEdit(uid: string, w: Window, dur: WindowDuration): (e: WindowEdit)
    requires StartsShaped(w.startTime, StartTimeForm)
    ensures e.uid == uid && e.id == w.id && e.repeat == w.repeat && !e.enabled
    ensures Shaped(e.startDate, "DD/DD/DDDD") && Shaped(e.startHours, "DD") && Shaped(e.startMinutes, "DD")
  {
    var st := w.startTime;
    StartTimeDigits(st);
    WindowEdit(
      uid := uid,
      id := w.id,
      startDate := st[5..7] + "/" + st[8..10] + "/" + st[0..4],
      startHours := st[11..13],
      startMinutes := st[14..16],
      timezone := w.timezone,
      durationDays := dur.days,
      durationHours := dur.hours,
      durationMinutes := dur.minutes,
      repeat := w.repeat,
      startProductionState := w.startProdState,
      enabled := false)
  }

  /** Where the date and time digits of a server startTime sit. */
  lemma StartTimeDigits(st: string)
    requires StartsShaped(st, StartTimeForm)
    ensures |st| >= 20 && forall k :: 0 <= k < 16 && k != 4 && k != 7 && k != 10 && k != 13 ==> IsDigit(st[k])
  {
    forall k | 0 <= k < 16 && k != 4 && k != 7 && k != 10 && k != 13 ensures IsDigit(st[k]) {
      assert st[k] == st[..20][k];
    }
  }

  /** What the sweep does with one window. */
  datatype Verdict = Keep | Disable(edit: WindowEdit) | Unreadable(failure: Failure)

  /**
   * One iteration of the sweep: disabled and repeating windows are skipped
   * before anything is read; the duration of every other window must be
   * readable; the window is stale when start + duration < now; only then is
   * its startTime read, and it must be readable too.
   */
  function Assess(uid: string, w: Window, now: int): (v: Verdict)
    ensures !w.enabled || w.repeat != "Never" ==> v == Keep
    ensures v.Unreadable? ==> v.failure == UnreadableWindowDuration || v.failure == UnreadableWindowStart
    ensures v.Disable? ==> v.edit.uid == uid && v.edit.id == w.id && v.edit.repeat == "Never" && !v.edit.enabled
  {
    if !w.enabled || w.repeat != "Never" then Keep
    else
      match DecodeWindowDuration(w.duration)
      case None => Unreadable(UnreadableWindowDuration)
      case Some(dur) =>
        if w.start + dur.seconds < now then
          if StartsShaped(w.startTime, StartTimeForm) then Disable(DisableEdit(uid, w, dur))
          else Unreadable(UnreadableWindowStart)
        else Keep
  }

  /**
   * A window is disabled exactly when it is enabled, does not repeat, ends
   * strictly before now and has readable duration and start; the edit keeps
   * the window's id, timezone, repeat, production state and duration fields,
   * moves the date into MM/DD/YYYY order, and sets enabled to false.
   */
  lemma DisableExactlyStale(uid: string, w: Window, now: int)
    ensures Assess(uid, w, now).Disable? <==>
      w.enabled && w.repeat == "Never" && DecodeWindowDuration(w.duration).Some? &&
      w.start + DecodeWindowDuration(w.duration).value.seconds < now &&
      StartsShaped(w.startTime, StartTimeForm)
    ensures Assess(uid, w, now).Disable? ==>
      var e, dur, st := Assess(uid, w, now).edit, DecodeWindowDuration(w.duration).value, w.startTime;
      e.uid == uid && e.id == w.id && e.timezone == w.timezone && e.repeat == "Never" &&
      e.startProductionState == w.startProdState && !e.enabled &&
      e.durationDays == dur.days && e.durationHours == dur.hours && e.durationMinutes == dur.minutes &&
      e.startDate == st[5..7] + "/" + st[8..10] + "/" + st[0..4] &&
      e.startHours == st[11..13] && e.startMinutes == st[14..16]
  {
  }

  /** Disabled windows and repeating windows are never examined, whatever their duration or timing. */
  lemma IgnoredWindowsKept(uid: string, w: Window, now: int)
    requires !w.enabled || w.repeat != "Never"
    ensures Assess(uid, w, now) == Keep
  {
  }

  /** A window that ends at or after now is kept. */
  lemma CurrentWindowKept(uid: string, w: Window, now: int)
    requires DecodeWindowDuration(w.duration).Some?
    requires w.start + DecodeWindowDuration(w.duration).value.seconds >= now
    ensures Assess(uid, w, now) == Keep
  {
  }

  /** How the server writes a days count: the digits, white space, "days", white space. */
  function DaysText(days: string, sp1: char, sp2: char): string {
    days + [sp1] + "days" + [sp2]
  }

  /** How the server writes a time of day: "HH:MM:SS". */
  function ClockText(hh: string, mm: string, ss: string): string {
    hh + ":" + mm + ":" + ss
  }

  /** The days prefix is found where the digits end, and the clock text follows it. */
  lemma DaysPrefixOf(days: string, sp1: char, sp2: char, clock: string)
    requires AllDigits(days) && IsSpace(sp1) && IsSpace(sp2)
    ensures var d := DaysText(days, sp1, sp2) + clock;
      DaysPrefix(d) == Some((days, |days| + 6)) && d[|days| + 6..] == clock
  {
    var tail := [sp1] + "days" + [sp2] + clock;
    var d := days + tail;
    assert DaysText(days, sp1, sp2) + clock == d;
    SpanOf(days, tail);
    var i := |days|;
    assert d[i] == sp1 && d[i + 5] == sp2;
    assert d[i + 1..i + 5] == "days";
    assert d[..i] == days && d[i + 6..] == clock;
  }

  /** The clock fields of "HH:MM:SS..." are where the pattern reads them. */
  lemma ClockFields(hh: string, mm: string, ss: string, rest: string)
    requires Shaped(hh, "DD") && Shaped(mm, "DD") && Shaped(ss, "DD")
    ensures var c := ClockText(hh, mm, ss) + rest;
      StartsShaped(c, "DD:DD:DD") && c[0..2] == hh && c[3..5] == mm
  {
    var c := ClockText(hh, mm, ss) + rest;
    assert c[..8] == ClockText(hh, mm, ss);
    assert c[0..2] == hh && c[3..5] == mm;
  }

  /** With a days prefix before "HH:MM:SS", the fields are read from the text after the prefix. */
  lemma DecodeAfterDays(d: string, days: string, k: nat)
    requires DaysPrefix(d) == Some((days, k)) && StartsShaped(d[k..], "DD:DD:DD")
    ensures StartsShaped(d[k..], "DD:DD") && AllDigits(days)
    ensures DecodeWindowDuration(d) == Some(ClockOf(d[k..], Some(days)))
  {
    ClockPrefix(d[k..]);
  }

  /** Without a days prefix, "HH:MM:SS" is read from the start and the days are absent. */
  lemma DecodeWithoutDays(d: string)
    requires DaysPrefix(d) == None && StartsShaped(d, "DD:DD:DD")
    ensures StartsShaped(d, "DD:DD")
    ensures DecodeWindowDuration(d) == Some(ClockOf(d, None))
  {
    ClockPrefix(d);
  }

  /** "N days HH:MM:SS..." lasts N days, HH hours and MM minutes; the seconds field and anything after it are ignored. */
  lemma DecodeDaysForm(days: string, sp1: char, sp2: char, hh: string, mm: string, ss: string, rest: string)
    requires AllDigits(days) && IsSpace(sp1) && IsSpace(sp2)
    requires Shaped(hh, "DD") && Shaped(mm, "DD") && Shaped(ss, "DD")
    ensures var r := DecodeWindowDuration(DaysText(days, sp1, sp2) + (ClockText(hh, mm, ss) + rest));
      r.Some? && r.value.days == Some(days) && r.value.hours == hh && r.value.minutes == mm &&
      r.value.seconds == NatOf(days) * 86400 + NatOf(hh) * 3600 + NatOf(mm) * 60
  {
    var clock := ClockText(hh, mm, ss) + rest;
    var d := DaysText(days, sp1, sp2) + clock;
    DaysPrefixOf(days, sp1, sp2, clock);
    ClockFields(hh, mm, ss, rest);
    DecodeAfterDays(d, days, |days| + 6);
  }

  /** How the server writes a short duration: "HH:MM". */
  function ShortText(hh: string, mm: string): string {
    hh + ":" + mm
  }

  /** A seconds field after "HH:MM" can only come from the text that follows. */
  lemma SecondsAfterShort(hh: string, mm: string, rest: string)
    requires |hh| == 2 && |mm| == 2
    ensures StartsShaped(ShortText(hh, mm) + rest, "DD:DD:DD") ==> StartsShaped(rest, ":DD")
  {
    var d := ShortText(hh, mm) + rest;
    if StartsShaped(d, "DD:DD:DD") {
      assert d[5..8] == rest[..3];
    }
  }

  /** "HH:MM" followed by anything but ":SS" has no days prefix and no seconds field. */
  lemma ShortFormShape(hh: string, mm: string, rest: string)
    requires Shaped(hh, "DD") && Shaped(mm, "DD")
    requires !StartsShaped(rest, ":DD")
    ensures var d := ShortText(hh, mm) + rest;
      DaysPrefix(d) == None && !StartsShaped(d, "DD:DD:DD") && StartsShaped(d, "DD:DD") &&
      d[0..2] == hh && d[3..5] == mm
  {
    var d := ShortText(hh, mm) + rest;
    assert d == hh + ([':'] + mm + rest);
    SpanOf(hh, [':'] + mm + rest);
    SecondsAfterShort(hh, mm, rest);
    assert d[..5] == ShortText(hh, mm);
    assert d[0..2] == hh && d[3..5] == mm;
  }

  /** A bare "HH:MM" (not followed by ":SS") lasts HH hours and MM minutes, with days reported as "00". */
  lemma DecodeClockForm(hh: string, mm: string, rest: string)
    requires Shaped(hh, "DD") && Shaped(mm, "DD")
    requires !StartsShaped(rest, ":DD")
    ensures var r := DecodeWindowDuration(ShortText(hh, mm) + rest);
      r.Some? && r.value.days == Some("00") && r.value.hours == hh && r.value.minutes == mm &&
      r.value.seconds == NatOf(hh) * 3600 + NatOf(mm) * 60
  {
    ShortFormShape(hh, mm, rest);
    assert NatOf("00") == 0;
  }

  /** A duration that begins with neither form is unreadable. */
  lemma DecodeRefusesThreeDigitHours()
    ensures DecodeWindowDuration("123:45") == None
  {
    var d := "123:45";
    assert Span(d) == 3;
    assert !StartsShaped(d, "DD:DD:DD") && !StartsShaped(d, "DD:DD");
  }

  /** The outcome of a sweep: the edits issued, in order, and the fatal failure that stopped it, if any. */
  datatype Sweep = Sweep(edits: seq<WindowEdit>, failure: Option<Failure>)

  /** The verdict on each window of the list, in list order. */
  function Verdicts(uid: string, windows: seq<Window>, now: int): (vs: seq<Verdict>)
    ensures |vs| == |windows| && forall i :: 0 <= i < |windows| ==> vs[i] == Assess(uid, windows[i], now)
  {
    seq(|windows|, i requires 0 <= i < |windows| => Assess(uid, windows[i], now))
  }

  /**
   * Running the verdicts in order, as the tool evidently intends it: a stale
   * window is disabled and the sweep goes on whatever the edit's reply; an
   * unreadable window stops the run.
   */
  function Run(vs: seq<Verdict>): Sweep
    decreases |vs|
  {
    if vs == [] then Sweep([], None)
    else
      var prev := Run(vs[..|vs| - 1]);
      if prev.failure.Some? then prev
      else
        match vs[|vs| - 1]
        case Keep => prev
        case Disable(e) => Sweep(prev.edits + [e], None)
        case Unreadable(f) => Sweep(prev.edits, Some(f))
  }

  /** The intended sweep of an organizer's windows. */
  function Swept(uid: string, windows: seq<Window>, now: int): (r: Sweep)
    ensures r.failure.Some? ==> r.failure.value == UnreadableWindowDuration || r.failure.value == UnreadableWindowStart
  {
    RunFails(Verdicts(uid, windows, now));
    Run(Verdicts(uid, windows, now))
  }

  /**
   * Running the verdicts as the tool is written: the diagnostic for a refused
   * edit (`'{}}'.format`) raises, so a refused edit ends the run. `editOk(i)`
   * is the reply to the edit of window `i`.
   */
  function RunAsWritten(vs: seq<Verdict>, editOk: nat -> bool): (r: Sweep)
    ensures |r.edits| <= |vs|
    ensures r.failure.Some? ==>
      exists i :: 0 <= i < |vs| && (vs[i] == Unreadable(r.failure.value) || (vs[i].Disable? && !editOk(i) && r.failure.value == DisableFailed))
    decreases |vs|
  {
    if vs == [] then Sweep([], None)
    else
      var prev := RunAsWritten(vs[..|vs| - 1], editOk);
      if prev.failure.Some? then prev
      else
        match vs[|vs| - 1]
        case Keep => prev
        case Disable(e) => Sweep(prev.edits + [e], if editOk(|vs| - 1) then None else Some(DisableFailed))
        case Unreadable(f) => Sweep(prev.edits, Some(f))
  }

  /** The sweep of an organizer's windows as the tool is written. */
  function SweptAsWritten(uid: string, windows: seq<Window>, now: int, editOk: nat -> bool): (r: Sweep)
    ensures |r.edits| <= |windows|
    ensures r.failure.Some? ==>
      r.failure.value == UnreadableWindowDuration || r.failure.value == UnreadableWindowStart || r.failure.value == DisableFailed
  {
    RunAsWritten(Verdicts(uid, windows, now), editOk)
  }

  /** The sweep stops only at an unreadable window, with that window's failure. */
  lemma {:induction false} RunFails(vs: seq<Verdict>)
    ensures Run(vs).failure.Some? ==> exists i :: 0 <= i < |vs| && vs[i] == Unreadable(Run(vs).failure.value)
  {
    if vs != [] {
      var p := vs[..|vs| - 1];
      RunFails(p);
      if Run(p).failure.Some? {
        var i :| 0 <= i < |p| && p[i] == Unreadable(Run(p).failure.value);
        assert vs[i] == p[i];
      }
    }
  }

  /** Once the sweep has stopped, later windows change nothing. */
  lemma {:induction false} RunStops(vs: seq<Verdict>, k: nat)
    requires k <= |vs| && Run(vs[..k]).failure.Some?
    ensures Run(vs) == Run(vs[..k])
  {
    if k < |vs| {
      var p := vs[..|vs| - 1];
      assert p[..k] == vs[..k];
      RunStops(p, k);
    } else {
      assert vs[..k] == vs;
    }
  }

  /** The sweep completes exactly when no window is unreadable. */
  lemma {:induction false} RunCompletes(vs: seq<Verdict>)
    ensures Run(vs).failure.None? <==> forall i :: 0 <= i < |vs| ==> !vs[i].Unreadable?
  {
    if vs != [] {
      var p := vs[..|vs| - 1];
      RunCompletes(p);
      assert forall i :: 0 <= i < |p| ==> p[i] == vs[i];
    }
  }

  /** Every edit issued disables a window that was due for it. */
  lemma {:induction false} RunSound(vs: seq<Verdict>)
    ensures forall e :: e in Run(vs).edits ==> Disable(e) in vs
  {
    if vs != [] {
      var p := vs[..|vs| - 1];
      RunSound(p);
      assert forall v :: v in p ==> v in vs;
    }
  }

  /** A sweep that completes disables every window that is due, one edit per such window. */
  lemma {:induction false} RunComplete(vs: seq<Verdict>)
    requires Run(vs).failure.None?
    ensures forall i :: 0 <= i < |vs| && vs[i].Disable? ==> vs[i].edit in Run(vs).edits
    ensures |Run(vs).edits| == |set i | 0 <= i < |vs| && vs[i].Disable?|
  {
    var due := set i | 0 <= i < |vs| && vs[i].Disable?;
    if vs != [] {
      var n := |vs| - 1;
      var p := vs[..n];
      RunComplete(p);
      var duePrev := set i | 0 <= i < |p| && p[i].Disable?;
      if vs[n].Disable? {
        assert due == duePrev + {n};
      } else {
        assert due == duePrev;
      }
    } else {
      assert due == {};
    }
  }

  /** When every edit is accepted, the sweep as written and the intended sweep agree. */
  lemma {:induction false} AsWrittenAgreesWhenEditsSucceed(vs: seq<Verdict>, editOk: nat -> bool)
    requires forall i :: 0 <= i < |vs| ==> editOk(i)
    ensures RunAsWritten(vs, editOk) == Run(vs)
  {
    if vs != [] {
      AsWrittenAgreesWhenEditsSucceed(vs[..|vs| - 1], editOk);
    }
  }

  /**
   * As written, the sweep issues a prefix of the intended edits: a refused
   * edit can only cut the intended sweep short, and until then both agree.
   */
  lemma {:induction false} AsWrittenEditsPrefix(vs: seq<Verdict>, editOk: nat -> bool)
    ensures RunAsWritten(vs, editOk).edits <= Run(vs).edits
    ensures RunAsWritten(vs, editOk).failure.None? ==> RunAsWritten(vs, editOk) == Run(vs)
  {
    if vs != [] {
      AsWrittenEditsPrefix(vs[..|vs| - 1], editOk);
    }
  }

  /**
   * The discrepancy: two stale windows, and the server refuses the first
   * edit. As written the run dies after that edit and the second window is
   * never disabled; as intended both edits are issued and the sweep completes.
   */
  lemma RefusedEditStopsAsWritten(e0: WindowEdit, e1: WindowEdit, editOk: nat -> bool)
    requires !editOk(0)
    ensures RunAsWritten([Disable(e0), Disable(e1)], editOk) == Sweep([e0], Some(DisableFailed))
    ensures Run([Disable(e0), Disable(e1)]) == Sweep([e0, e1], None)
  {
    var vs := [Disable(e0), Disable(e1)];
    assert vs[..1] == [Disable(e0)];
    assert [Disable(e0)][..0] == [];
    assert RunAsWritten([Disable(e0)], editOk) == Sweep([e0], Some(DisableFailed));
    assert Run([Disable(e0)]) == Sweep([e0], None);
  }

  /**
   * The intended sweep: issues the edits one window at a time and stops at
   * the first unreadable window.
   */
  method CleanWindows(uid: string, windows: seq<Window>, now: int) returns (edits: seq<WindowEdit>, failure: Option<Failure>)
    ensures Sweep(edits, failure) == Swept(uid, windows, now)
  {
    ghost var vs := Verdicts(uid, windows, now);
    edits, failure := [], None;
    var i := 0;
    while i < |windows|
      invariant 0 <= i <= |windows|
      invariant Run(vs[..i]) == Sweep(edits, None)
    {
      var w := windows[i];
      assert vs[..i + 1][..i] == vs[..i];
      if !w.enabled || w.repeat != "Never" {
        i := i + 1;
        continue;
      }
      var dur := DecodeWindowDuration(w.duration);
      if dur.None? {
        failure := Some(UnreadableWindowDuration);
        RunStops(vs, i + 1);
        return;
      }
      var end := w.start + dur.value.seconds;
      if end < now {
        if !StartsShaped(w.startTime, StartTimeForm) {
          failure := Some(UnreadableWindowStart);
          RunStops(vs, i + 1);
          return;
        }
        edits := edits + [DisableEdit(uid, w, dur.value)];
      }
      i := i + 1;
    }
    assert vs[..i] == vs;
  }

  /** "HH:MM:SS..." without a days count lasts HH hours and MM minutes, with the days group absent. */
  lemma DecodeNoDaysForm(hh: string, mm: string, ss: string, rest: string)
    requires Shaped(hh, "DD") && Shaped(mm, "DD") && Shaped(ss, "DD")
    ensures var r := DecodeWindowDuration(ClockText(hh, mm, ss) + rest);
      r.Some? && r.value.days == None && r.value.hours == hh && r.value.minutes == mm &&
      r.value.seconds == NatOf(hh) * 3600 + NatOf(mm) * 60
  {
    var tail := [':'] + mm + ":" + ss + rest;
    var d := ClockText(hh, mm, ss) + rest;
    assert d == hh + tail;
    ClockFields(hh, mm, ss, rest);
    SpanOf(hh, tail);
    assert !IsSpace(d[2]);
    DecodeWithoutDays(d);
  }

  /** "01:00:00" lasts one hour. */
  lemma OneHourDuration()
    ensures var r := DecodeWindowDuration("01:00:00"); r.Some? && r.value.seconds == 3600
  {
    DecodeNoDaysForm("01", "00", "00", "");
    assert ClockText("01", "00", "00") + "" == "01:00:00";
    assert NatOf("01") == 1 && NatOf("00") == 0;
  }

  /** The worked example: a one-hour window two hours old is disabled; half an hour in, it is kept. */
  lemma OneHourWindow(uid: string, w: Window, t: int)
    requires w.enabled && w.repeat == "Never" && w.start == t && w.duration == "01:00:00"
    requires StartsShaped(w.startTime, StartTimeForm)
    ensures Assess(uid, w, t + 7200).Disable?
    ensures Assess(uid, w, t + 1800) == Keep
  {
    OneHourDuration();
  }

}
