/**
 * One handler call (`maint_components`, `maint_group`, `maint_system`,
 * `maint_device`): resolve the organizer URI, check that it exists
 * (`check_org_exists`), sweep its stale windows, parse the start and
 * duration arguments, and create the new window. The remote calls are
 * recorded in order; their replies and the clock readings are inputs.
 */
module Targets {
  import opened Base
  import opened Text
  import opened StartTime
  import opened Duration
  import opened Requests
  import opened Staleness

  /** A remote call the tool issues. */
  datatype Call =
    | GetDevices(name: string)
    | ObjectExists(uid: string)
    | GetMaintWindows(uid: string)
    | EditMaintWindow(edit: WindowEdit)
    | AddMaintWindow(window: NewWindow)

  /** The calls issued, in order, and the failure that ended the run, if any. */
  datatype Trace = Trace(calls: seq<Call>, failure: Option<Failure>)

  /** The reply to getDevices, reduced to what maint_device reads. */
  datatype LookupReply = LookupReply(success: bool, totalCount: int, uids: seq<string>)
  /** The reply to objectExists. */
  datatype ExistsReply = ExistsReply(success: bool, found: bool)
  /** The reply to getMaintWindows. */
  datatype ListingReply = ListingReply(success: bool, data: seq<Window>)

  /**
   * Everything from outside the tool that one handler call sees: the replies
   * to its remote calls and its two clock readings (`time.time()` in the
   * sweep, `datetime.now()` in start_format).
   */
  datatype TargetEnv = TargetEnv(
    lookup: LookupReply,
    existence: ExistsReply,
    listing: ListingReply,
    addOk: bool,
    epoch: int,
    clock: DateTime)

  /** A leaf of a context: the organizer kind and the path (or, for a device, possibly a hostname). */
  datatype Target = Target(kind: Kind, leaf: string)

  /** The leaf is used as a path: every kind but devices, and devices given as "/..." */
  predicate IsPath(t: Target) {
    t.kind != Devices || (|t.leaf| > 0 && t.leaf[0] == '/')
  }

  /**
   * The organizer URI and the calls made to find it. A hostname is looked up
   * with getDevices: a failed lookup is fatal; more than one match leaves the
   * URI unbound, which crashes at the existence check; no device at all
   * crashes on the empty list; otherwise the first device's URI is used.
   */
  function Resolve(t: Target, lookup: LookupReply): (r: (seq<Call>, Result<string>))
    ensures IsPath(t) ==> r == ([], Ok(OrganizerUid(t.kind, t.leaf)))
    ensures !IsPath(t) ==> r.0 == [GetDevices(t.leaf)]
    ensures !IsPath(t) ==> (r.1.Ok? <==> lookup.success && lookup.totalCount <= 1 && |lookup.uids| > 0)
    ensures !IsPath(t) && r.1.Ok? ==> r.1.value == lookup.uids[0]
    ensures !IsPath(t) && r.1.Fail? ==>
      r.1.failure == (if !lookup.success then LookupFailed
                      else if lookup.totalCount > 1 then AmbiguousHostname else UnknownHostname)
  {
    if IsPath(t) then ([], Ok(OrganizerUid(t.kind, t.leaf)))
    else
      var calls := [GetDevices(t.leaf)];
      if !lookup.success then (calls, Fail(LookupFailed))
      else if lookup.totalCount > 1 then (calls, Fail(AmbiguousHostname))
      else if lookup.uids == [] then (calls, Fail(UnknownHostname))
      else (calls, Ok(lookup.uids[0]))
  }

  function EditCalls(edits: seq<WindowEdit>): (calls: seq<Call>)
    ensures |calls| == |edits| && forall i :: 0 <= i < |edits| ==> calls[i] == EditMaintWindow(edits[i])
  {
    seq(|edits|, i requires 0 <= i < |edits| => EditMaintWindow(edits[i]))
  }

  /** What one handler call does, step by step: resolve, check, sweep, parse, create. */
  function TargetRun(t: Target, name: string, start: string, duration: string, env: TargetEnv): (tr: Trace)
    ensures tr.failure.None? ==> |tr.calls| >= 3 && tr.calls[|tr.calls| - 1].AddMaintWindow?
    ensures tr.failure != Some(DisableFailed)
  {
    var (found, uid) := Resolve(t, env.lookup);
    if uid.Fail? then Trace(found, Some(uid.failure))
    else
      var u := uid.value;
      var checked := found + [ObjectExists(u)];
      if !env.existence.success then Trace(checked, Some(ExistenceCheckFailed))
      else if !env.existence.found then Trace(checked, Some(OrganizerMissing))
      else
        var listed := checked + [GetMaintWindows(u)];
        if !env.listing.success then Trace(listed, Some(ListingFailed))
        else
          var sweep := Swept(u, env.listing.data, env.epoch);
          var swept := listed + EditCalls(sweep.edits);
          if sweep.failure.Some? then Trace(swept, sweep.failure)
          else Create(swept, u, name, start, duration, env)
  }

  /** The last steps of a handler call: parse start and duration, then send the create request. */
  function Create(swept: seq<Call>, u: string, name: string, start: string, duration: string, env: TargetEnv): (tr: Trace)
    ensures swept <= tr.calls && |tr.calls| <= |swept| + 1
    ensures tr.failure.None? ==> |tr.calls| == |swept| + 1 && tr.calls[|swept|].AddMaintWindow?
    ensures tr.failure.Some? ==>
      tr.failure.value in {MalformedStart, MalformedDuration, StartBefore1900, CreateFailed}
  {
    match ParseStart(start, env.clock)
    case Fail(f) => Trace(swept, Some(f))
    case Ok(when) =>
      match ParseDuration(duration)
      case Fail(f) => Trace(swept, Some(f))
      case Ok(dur) =>
        match NewWindowParams(u, name, when, dur)
        case Fail(f) => Trace(swept, Some(f))
        case Ok(p) => Trace(swept + [AddMaintWindow(p)], if env.addOk then None else Some(CreateFailed))
  }

  /** One handler call, issuing its calls one after the other. */
  method HandleTarget(t: Target, name: string, start: string, duration: string, env: TargetEnv) returns (trace: Trace)
    ensures trace == TargetRun(t, name, start, duration, env)
  {
    var (found, uid) := Resolve(t, env.lookup);
    var calls := found;
    if uid.Fail? {
      return Trace(calls, Some(uid.failure));
    }
    var u := uid.value;
    calls := calls + [ObjectExists(u)];
    if !env.existence.success {
      return Trace(calls, Some(ExistenceCheckFailed));
    }
    if !env.existence.found {
      return Trace(calls, Some(OrganizerMissing));
    }
    calls := calls + [GetMaintWindows(u)];
    if !env.listing.success {
      return Trace(calls, Some(ListingFailed));
    }
    var edits, failure := CleanWindows(u, env.listing.data, env.epoch);
    calls := calls + EditCalls(edits);
    if failure.Some? {
      return Trace(calls, failure);
    }
    var when := ParseStart(start, env.clock);
    if when.Fail? {
      return Trace(calls, Some(when.failure));
    }
    var dur := ParseDuration(duration);
    if dur.Fail? {
      return Trace(calls, Some(dur.failure));
    }
    var params := NewWindowParams(u, name, when.value, dur.value);
    if params.Fail? {
      return Trace(calls, Some(params.failure));
    }
    calls := calls + [AddMaintWindow(params.value)];
    trace := Trace(calls, if env.addOk then None else Some(CreateFailed));
  }

  /** What every request the tool sends must look like: creates carry the fixed fields, edits disable. */
  predicate Sane(c: Call) {
    match c
    case AddMaintWindow(p) =>
      p.id == "" && p.timezone == "Europe/Brussels" && p.repeat == "Never" &&
      p.startProductionState == 300 && p.enabled
    case EditMaintWindow(e) => !e.enabled && e.repeat == "Never"
    case _ => true
  }

  /** The request a call addresses, if it addresses one. */
  predicate Addresses(c: Call, u: string) {
    match c
    case GetDevices(_) => false
    case ObjectExists(x) => x == u
    case GetMaintWindows(x) => x == u
    case EditMaintWindow(e) => e.uid == u
    case AddMaintWindow(p) => p.uid == u
  }

  /** Every edit the sweep of `u` issues disables a non-repeating window of `u`. */
  lemma SweepEditsSane(u: string, windows: seq<Window>, now: int)
    ensures forall e :: e in Swept(u, windows, now).edits ==> !e.enabled && e.repeat == "Never" && e.uid == u
  {
    var vs := Verdicts(u, windows, now);
    RunSound(vs);
    forall e | e in Swept(u, windows, now).edits
      ensures !e.enabled && e.repeat == "Never" && e.uid == u
    {
      var i :| 0 <= i < |vs| && vs[i] == Disable(e);
      DisableExactlyStale(u, windows[i], now);
    }
  }

  /** After the lookup, the existence check, the listing and the disabling edits all address `u` and are sane. */
  lemma SweptCallsSane(found: seq<Call>, u: string, edits: seq<WindowEdit>)
    requires forall e :: e in edits ==> !e.enabled && e.repeat == "Never" && e.uid == u
    ensures forall c :: c in found + [ObjectExists(u)] + [GetMaintWindows(u)] + EditCalls(edits) ==>
      c in found || (Sane(c) && Addresses(c, u))
  {
    var swept := found + [ObjectExists(u)] + [GetMaintWindows(u)] + EditCalls(edits);
    forall c | c in swept ensures c in found || (Sane(c) && Addresses(c, u)) {
      if c !in found && c != ObjectExists(u) && c != GetMaintWindows(u) {
        var i :| 0 <= i < |swept| && swept[i] == c;
        assert c == EditMaintWindow(edits[i - |found| - 2]);
      }
    }
  }

  /** The create step adds at most one call, a sane create request for `u`. */
  lemma CreateSane(swept: seq<Call>, u: string, name: string, start: string, duration: string, env: TargetEnv)
    ensures forall c :: c in Create(swept, u, name, start, duration, env).calls ==>
      c in swept || (Sane(c) && Addresses(c, u))
  {
  }

  /**
   * Whatever the arguments and replies, every request a handler call sends is
   * sane, and every request after the lookup addresses one organizer: for a
   * path, the URI built from the kind's prefix and the path.
   */
  lemma TargetCallsSane(t: Target, name: string, start: string, duration: string, env: TargetEnv)
    ensures var tr := TargetRun(t, name, start, duration, env);
      forall c :: c in tr.calls ==> Sane(c)
    ensures var tr := TargetRun(t, name, start, duration, env);
      IsPath(t) ==> forall c :: c in tr.calls ==> Addresses(c, OrganizerUid(t.kind, t.leaf))
  {
    var (found, uid) := Resolve(t, env.lookup);
    if uid.Ok? && env.existence.success && env.existence.found && env.listing.success {
      var u := uid.value;
      SweepEditsSane(u, env.listing.data, env.epoch);
      var sweep := Swept(u, env.listing.data, env.epoch);
      SweptCallsSane(found, u, sweep.edits);
      CreateSane(found + [ObjectExists(u)] + [GetMaintWindows(u)] + EditCalls(sweep.edits), u, name, start, duration, env);
    }
  }

  /**
   * The arguments are read only after the sweep: with a malformed start or
   * duration, the stale windows of the organizer have already been disabled
   * when the run stops, and nothing is created.
   */
  lemma BadArgumentsAfterSweep(t: Target, name: string, start: string, duration: string, env: TargetEnv)
    requires Resolve(t, env.lookup).1.Ok? && env.existence.success && env.existence.found && env.listing.success
    requires Swept(Resolve(t, env.lookup).1.value, env.listing.data, env.epoch).failure.None?
    requires ParseStart(start, env.clock).Fail? || ParseDuration(duration).Fail?
    ensures var u := Resolve(t, env.lookup).1.value;
      TargetRun(t, name, start, duration, env) ==
        Trace(Resolve(t, env.lookup).0 + [ObjectExists(u), GetMaintWindows(u)] +
              EditCalls(Swept(u, env.listing.data, env.epoch).edits),
              Some(if ParseStart(start, env.clock).Fail? then MalformedStart else MalformedDuration))
  {
    var u := Resolve(t, env.lookup).1.value;
    assert Resolve(t, env.lookup).0 + [ObjectExists(u), GetMaintWindows(u)] ==
      Resolve(t, env.lookup).0 + [ObjectExists(u)] + [GetMaintWindows(u)];
  }

  /** If the organizer cannot be confirmed, no window is listed, edited or created. */
  lemma ExistenceCheckedFirst(t: Target, name: string, start: string, duration: string, env: TargetEnv)
    requires Resolve(t, env.lookup).1.Ok? && !(env.existence.success && env.existence.found)
    ensures var tr := TargetRun(t, name, start, duration, env);
      tr.calls == Resolve(t, env.lookup).0 + [ObjectExists(Resolve(t, env.lookup).1.value)] &&
      tr.failure.Some? && tr.failure.value in {ExistenceCheckFailed, OrganizerMissing}
  {
  }

  /**
   * A handler call that completes ends with exactly one create request, sent
   * after every other call, for the organizer's URI and with the parsed
   * start and duration.
   */
  lemma CompletedTargetCreatesLast(t: Target, name: string, start: string, duration: string, env: TargetEnv)
    requires TargetRun(t, name, start, duration, env).failure.None?
    ensures var tr := TargetRun(t, name, start, duration, env);
      var u := Resolve(t, env.lookup).1.value;
      |tr.calls| > 0 && Resolve(t, env.lookup).1.Ok? &&
      ParseStart(start, env.clock).Ok? && ParseDuration(duration).Ok? &&
      tr.calls[|tr.calls| - 1] == AddMaintWindow(NewWindowParams(u, name, ParseStart(start, env.clock).value, ParseDuration(duration).value).value) &&
      forall i :: 0 <= i < |tr.calls| - 1 ==> !tr.calls[i].AddMaintWindow?
  {
    var (found, uid) := Resolve(t, env.lookup);
    SweptHasNoCreate(found, uid.value, Swept(uid.value, env.listing.data, env.epoch).edits);
  }

  /**
   * A handler call that completes issued, in this order: the lookup (for a
   * hostname), the existence check, the listing, the sweep's edits and the
   * create request for the parsed start and duration.
   */
  lemma CompletedTargetTrace(t: Target, name: string, start: string, duration: string, env: TargetEnv)
    requires TargetRun(t, name, start, duration, env).failure.None?
    ensures Resolve(t, env.lookup).1.Ok? && ParseStart(start, env.clock).Ok? && ParseDuration(duration).Ok?
    ensures var u := Resolve(t, env.lookup).1.value;
      NewWindowParams(u, name, ParseStart(start, env.clock).value, ParseDuration(duration).value).Ok? &&
      TargetRun(t, name, start, duration, env).calls ==
        Resolve(t, env.lookup).0 + [ObjectExists(u), GetMaintWindows(u)] +
        EditCalls(Swept(u, env.listing.data, env.epoch).edits) +
        [AddMaintWindow(NewWindowParams(u, name, ParseStart(start, env.clock).value, ParseDuration(duration).value).value)]
  {
    var u := Resolve(t, env.lookup).1.value;
    assert Resolve(t, env.lookup).0 + [ObjectExists(u), GetMaintWindows(u)] ==
      Resolve(t, env.lookup).0 + [ObjectExists(u)] + [GetMaintWindows(u)];
  }

  /** Up to the end of the sweep, no call is a create request. */
  lemma SweptHasNoCreate(found: seq<Call>, u: string, edits: seq<WindowEdit>)
    requires forall i :: 0 <= i < |found| ==> !found[i].AddMaintWindow?
    ensures var swept := found + [ObjectExists(u)] + [GetMaintWindows(u)] + EditCalls(edits);
      forall i :: 0 <= i < |swept| ==> !swept[i].AddMaintWindow?
  {
    var swept := found + [ObjectExists(u)] + [GetMaintWindows(u)] + EditCalls(edits);
    forall i | 0 <= i < |swept| ensures !swept[i].AddMaintWindow? {
      if i >= |found| + 2 {
        assert swept[i] == EditMaintWindow(edits[i - |found| - 2]);
      }
    }
  }
}
