/**
 * The driver (`maintenance`): look the context up in the applications file
 * and run the handler of each organizer kind over the leaves listed for it.
 * The parsed file, the dictionary order of the handler table and, per
 * handler call, the replies and clock readings are parameters.
 */
module Maintenance {
  import opened Base
  import opened Requests
  import opened Targets

  /** The `Applications` section: context name to organizer key to the list of leaves. */
  type Applications = map<string, map<string, seq<string>>>

  /** An order of the handler table: every kind exactly once. */
  predicate KindOrder(order: seq<Kind>) {
    (forall k: Kind :: k in order) && Distinct(order)
  }

  predicate Distinct(order: seq<Kind>) {
    forall i, j :: 0 <= i < j < |order| ==> order[i] != order[j]
  }

  /** The leaves of one kind, in list order. */
  function Leaves(kind: Kind, leaves: seq<string>): (ts: seq<Target>)
    ensures |ts| == |leaves| && forall i :: 0 <= i < |leaves| ==> ts[i] == Target(kind, leaves[i])
  {
    seq(|leaves|, i requires 0 <= i < |leaves| => Target(kind, leaves[i]))
  }

  /** What the context lists for one kind; a kind the context does not mention is skipped. */
  function Group(ctx: map<string, seq<string>>, kind: Kind): seq<Target> {
    if kind.Key() in ctx then Leaves(kind, ctx[kind.Key()]) else []
  }

  /** The targets of a context, kind by kind in the order given. */
  function Expand(ctx: map<string, seq<string>>, order: seq<Kind>): seq<Target> {
    if order == [] then []
    else Expand(ctx, order[..|order| - 1]) + Group(ctx, order[|order| - 1])
  }

  /** Every target of a context is a leaf listed in it under a kind of the order. */
  lemma {:induction false} ExpandListed(ctx: map<string, seq<string>>, order: seq<Kind>)
    ensures forall t :: t in Expand(ctx, order) ==> t.kind in order && t.kind.Key() in ctx && t.leaf in ctx[t.kind.Key()]
  {
    if order != [] {
      var p := order[..|order| - 1];
      ExpandListed(ctx, p);
      assert forall k :: k in p ==> k in order;
    }
  }

  /** Where the o-th kind's group starts among the targets. */
  function Offset(ctx: map<string, seq<string>>, order: seq<Kind>, o: nat): nat
    requires o <= |order|
  {
    if o == 0 then 0 else Offset(ctx, order, o - 1) + |Group(ctx, order[o - 1])|
  }

  /**
   * A handler of the `context_defs` table applied to one target: the trace of
   * the i-th handler call of a run. The tool's handlers are TargetHandler.
   */
  type Handler = (Target, nat) -> Trace

  /** The four handlers, the i-th call seeing the replies and clocks `envs(i)`. */
  function TargetHandler(name: string, start: string, duration: string, envs: nat -> TargetEnv): (h: Handler)
    ensures forall t: Target, i: nat, c :: c in h(t, i).calls ==> Sane(c)
  {
    AllTargetCallsSane(name, start, duration, envs);
    (t: Target, i: nat) => TargetRun(t, name, start, duration, envs(i))
  }

  /** Every handler call, whatever its target and replies, sends only sane requests. */
  lemma AllTargetCallsSane(name: string, start: string, duration: string, envs: nat -> TargetEnv)
    ensures forall t: Target, i: nat, c :: c in TargetRun(t, name, start, duration, envs(i)).calls ==> Sane(c)
  {
    forall t: Target, i: nat ensures forall c :: c in TargetRun(t, name, start, duration, envs(i)).calls ==> Sane(c) {
      TargetCallsSane(t, name, start, duration, envs(i));
    }
  }

  /**
   * The handler calls for the first k targets, one after the other, the i-th
   * target's call being `run(ts[i], i)`. The first fatal one ends the whole
   * run: there is no isolation between targets.
   */
  function RunUpTo(ts: seq<Target>, run: Handler, k: nat): Trace
    requires k <= |ts|
  {
    if k == 0 then Trace([], None)
    else
      var prev := RunUpTo(ts, run, k - 1);
      var tr := run(ts[k - 1], k - 1);
      if prev.failure.Some? then prev
      else Trace(prev.calls + tr.calls, tr.failure)
  }

  /** The handler calls for all the targets. */
  function RunTargets(ts: seq<Target>, run: Handler): Trace {
    RunUpTo(ts, run, |ts|)
  }

  /**
   * `maintenance`: a file without an `Applications` section (None) or a
   * context it does not list is fatal before any remote call; otherwise the
   * targets of the context are handled in turn.
   */
  function MaintenanceRun(apps: Option<Applications>, context: string, order: seq<Kind>, run: Handler): (r: Trace)
    ensures apps.None? ==> r == Trace([], Some(NoApplications))
    ensures apps.Some? && context !in apps.value ==> r == Trace([], Some(UnknownContext))
  {
    if apps.None? then Trace([], Some(NoApplications))
    else if context !in apps.value then Trace([], Some(UnknownContext))
    else RunTargets(Expand(apps.value[context], order), run)
  }

  /** The driver: the lookups of the file and the context, then the two nested loops of the tool (HandleContext). */
  method Maintain(apps: Option<Applications>, context: string, order: seq<Kind>, run: Handler) returns (trace: Trace)
    ensures trace == MaintenanceRun(apps, context, order, run)
  {
    if apps.None? {
      return Trace([], Some(NoApplications));
    }
    if context !in apps.value {
      return Trace([], Some(UnknownContext));
    }
    trace := HandleContext(apps.value[context], order, run);
  }

  /** The outer loop, over the kinds in the order of the handler table; one pass of it is HandleKind. */
  method HandleContext(ctx: map<string, seq<string>>, order: seq<Kind>, run: Handler) returns (trace: Trace)
    ensures trace == RunTargets(Expand(ctx, order), run)
  {
    ghost var ts := Expand(ctx, order);
    var calls: seq<Call> := [];
    var n := 0;
    var o := 0;
    while o < |order|
      invariant 0 <= o <= |order|
      invariant n == Offset(ctx, order, o) <= |ts|
      invariant RunUpTo(ts, run, n) == Trace(calls, None)
    {
      var failure;
      KindStep(ctx, order, o);
      calls, failure, n := HandleKind(ctx, order[o], ts, n, run, calls);
      if failure.Some? {
        return Trace(calls, failure);
      }
      o := o + 1;
    }
    OffsetEnd(ctx, order);
    trace := Trace(calls, None);
  }

  /**
   * One pass of the outer loop: a kind the context does not list is skipped;
   * otherwise its handler runs over each of its leaves (HandleLeaves), which
   * sit in the targets from position `n` on. A failure ends the whole run.
   */
  method HandleKind(ctx: map<string, seq<string>>, kind: Kind, ghost ts: seq<Target>, n: nat,
                    run: Handler, sofar: seq<Call>) returns (calls: seq<Call>, failure: Option<Failure>, next: nat)
    requires n <= |ts| && RunUpTo(ts, run, n) == Trace(sofar, None) && Placed(ctx, kind, ts, n)
    ensures next == n + (if kind.Key() in ctx then |ctx[kind.Key()]| else 0) <= |ts|
    ensures failure.None? ==> RunUpTo(ts, run, next) == Trace(calls, None)
    ensures failure.Some? ==> RunTargets(ts, run) == Trace(calls, failure)
  {
    if kind.Key() !in ctx {
      return sofar, None, n;
    }
    var leaves := ctx[kind.Key()];
    calls, failure := HandleLeaves(ts, n, kind, leaves, run, sofar);
    next := n + |leaves|;
    if failure.Some? {
      RunStops(ts, run, next, |ts|);
    }
  }

  /**
   * The inner loop: the handler over each leaf of `kind`, once the first
   * `first` handler calls have completed with the calls `sofar`; the first
   * failure stops it.
   */
  method HandleLeaves(ghost ts: seq<Target>, first: nat, kind: Kind, leaves: seq<string>,
                      run: Handler, sofar: seq<Call>) returns (calls: seq<Call>, failure: Option<Failure>)
    requires first + |leaves| <= |ts|
    requires forall j :: 0 <= j < |leaves| ==> ts[first + j] == Target(kind, leaves[j])
    requires RunUpTo(ts, run, first) == Trace(sofar, None)
    ensures Trace(calls, failure) == RunUpTo(ts, run, first + |leaves|)
  {
    calls := sofar;
    var j := 0;
    while j < |leaves|
      invariant 0 <= j <= |leaves|
      invariant RunUpTo(ts, run, first + j) == Trace(calls, None)
    {
      var tr := run(Target(kind, leaves[j]), first + j);
      calls := calls + tr.calls;
      if tr.failure.Some? {
        RunStops(ts, run, first + j + 1, first + |leaves|);
        return calls, tr.failure;
      }
      j := j + 1;
    }
    failure := None;
  }

  /** The next kind in the order adds its group after the targets before it. */
  lemma ExpandNext(ctx: map<string, seq<string>>, order: seq<Kind>, o: nat)
    requires o < |order|
    ensures Expand(ctx, order[..o + 1]) == Expand(ctx, order[..o]) + Group(ctx, order[o])
    ensures |Expand(ctx, order[..o + 1])| <= |Expand(ctx, order)|
    ensures Expand(ctx, order)[..|Expand(ctx, order[..o + 1])|] == Expand(ctx, order[..o + 1])
  {
    assert order[..o + 1][..o] == order[..o];
    ExpandPrefix(ctx, order, o + 1);
  }

  /** How many targets the o-th kind adds. */
  lemma ExpandLength(ctx: map<string, seq<string>>, order: seq<Kind>, o: nat)
    requires o < |order|
    ensures |Expand(ctx, order[..o + 1])| == |Expand(ctx, order[..o])| + |Group(ctx, order[o])| <= |Expand(ctx, order)|
  {
    ExpandNext(ctx, order, o);
  }

  /** The leaves the context lists for `kind`, if any, sit in `ts` from position `n` on. */
  predicate Placed(ctx: map<string, seq<string>>, kind: Kind, ts: seq<Target>, n: nat) {
    kind.Key() in ctx ==>
      n + |ctx[kind.Key()]| <= |ts| &&
      forall j :: 0 <= j < |ctx[kind.Key()]| ==> ts[n + j] == Target(kind, ctx[kind.Key()][j])
  }

  /** One step of the outer loop: the o-th kind's leaves, if the context lists it, sit from its offset on. */
  lemma KindStep(ctx: map<string, seq<string>>, order: seq<Kind>, o: nat)
    requires o < |order|
    ensures var key := order[o].Key();
      Offset(ctx, order, o + 1) == Offset(ctx, order, o) + (if key in ctx then |ctx[key]| else 0) <= |Expand(ctx, order)|
    ensures Placed(ctx, order[o], Expand(ctx, order), Offset(ctx, order, o))
  {
    OffsetIs(ctx, order, o);
    OffsetIs(ctx, order, o + 1);
    ExpandLength(ctx, order, o);
    if order[o].Key() in ctx {
      KindTargets(ctx, order, o);
    }
  }

  /** The offset of the o-th kind is the number of targets of the kinds before it. */
  lemma {:induction false} OffsetIs(ctx: map<string, seq<string>>, order: seq<Kind>, o: nat)
    requires o <= |order|
    ensures Offset(ctx, order, o) == |Expand(ctx, order[..o])|
  {
    if o > 0 {
      OffsetIs(ctx, order, o - 1);
      ExpandLength(ctx, order, o - 1);
    }
  }

  /** Past the last kind, the offset is the number of all the targets. */
  lemma OffsetEnd(ctx: map<string, seq<string>>, order: seq<Kind>)
    ensures Offset(ctx, order, |order|) == |Expand(ctx, order)|
  {
    OffsetIs(ctx, order, |order|);
    assert order[..|order|] == order;
  }

  /** The leaves of the o-th kind, as they sit among all the targets. */
  lemma KindTargets(ctx: map<string, seq<string>>, order: seq<Kind>, o: nat)
    requires o < |order| && order[o].Key() in ctx
    ensures var n, leaves := |Expand(ctx, order[..o])|, ctx[order[o].Key()];
      n + |leaves| <= |Expand(ctx, order)| &&
      forall j :: 0 <= j < |leaves| ==> Expand(ctx, order)[n + j] == Target(order[o], leaves[j])
  {
    ExpandNext(ctx, order, o);
    GroupAt(Expand(ctx, order), Expand(ctx, order[..o]), order[o], ctx[order[o].Key()]);
  }

  /** Where a group sits in the targets once the targets before it are known. */
  lemma GroupAt(all: seq<Target>, before: seq<Target>, kind: Kind, leaves: seq<string>)
    requires |before| + |leaves| <= |all| && all[..|before| + |leaves|] == before + Leaves(kind, leaves)
    ensures forall j :: 0 <= j < |leaves| ==> all[|before| + j] == Target(kind, leaves[j])
  {
    forall j | 0 <= j < |leaves|
      ensures all[|before| + j] == Target(kind, leaves[j])
    {
      assert all[..|before| + |leaves|][|before| + j] == Leaves(kind, leaves)[j];
    }
  }

  /** A shorter order expands to a prefix of the targets. */
  lemma {:induction false} ExpandPrefix(ctx: map<string, seq<string>>, order: seq<Kind>, p: nat)
    requires p <= |order|
    ensures |Expand(ctx, order[..p])| <= |Expand(ctx, order)|
    ensures Expand(ctx, order)[..|Expand(ctx, order[..p])|] == Expand(ctx, order[..p])
  {
    if p < |order| {
      var init := order[..|order| - 1];
      assert init[..p] == order[..p];
      ExpandPrefix(ctx, init, p);
      var whole, front := Expand(ctx, init), Expand(ctx, order[..p]);
      assert Expand(ctx, order) == whole + Group(ctx, order[|order| - 1]);
      assert Expand(ctx, order)[..|front|] == whole[..|front|];
    } else {
      assert order[..p] == order;
    }
  }

  /** Once the first n handler calls have produced a failure, the later ones never run. */
  lemma {:induction false} RunStops(ts: seq<Target>, run: Handler, n: nat, m: nat)
    requires n <= m <= |ts| && RunUpTo(ts, run, n).failure.Some?
    ensures RunUpTo(ts, run, m) == RunUpTo(ts, run, n)
  {
    if m > n {
      RunStops(ts, run, n, m - 1);
    }
  }

  /**
   * No isolation between targets: when the i-th handler call fails after all
   * the earlier ones completed, the run ends with its failure and no later
   * target issues any call.
   */
  lemma FirstFatalStops(ts: seq<Target>, run: Handler, i: nat)
    requires i < |ts| && RunUpTo(ts, run, i).failure.None? && run(ts[i], i).failure.Some?
    ensures RunTargets(ts, run).failure == run(ts[i], i).failure
    ensures RunTargets(ts, run).calls == RunUpTo(ts, run, i).calls + run(ts[i], i).calls
  {
    RunStops(ts, run, i + 1, |ts|);
  }

  /** The calls of the handler calls for the first k targets, one after the other. */
  function AllCalls(ts: seq<Target>, run: Handler, k: nat): seq<Call>
    requires k <= |ts|
  {
    if k == 0 then [] else AllCalls(ts, run, k - 1) + run(ts[k - 1], k - 1).calls
  }

  /** RunCompletes, for the first k targets. */
  lemma {:induction false} RunCompletesUpTo(ts: seq<Target>, run: Handler, k: nat)
    requires k <= |ts|
    ensures RunUpTo(ts, run, k).failure.None? <==> forall i :: 0 <= i < k ==> run(ts[i], i).failure.None?
    ensures RunUpTo(ts, run, k).failure.None? ==> RunUpTo(ts, run, k).calls == AllCalls(ts, run, k)
  {
    if k > 0 {
      RunCompletesUpTo(ts, run, k - 1);
    }
  }

  /**
   * A run completes exactly when every handler call completes, and then it
   * has issued each one's calls in target order.
   */
  lemma RunCompletes(ts: seq<Target>, run: Handler)
    ensures RunTargets(ts, run).failure.None? <==> forall i :: 0 <= i < |ts| ==> run(ts[i], i).failure.None?
    ensures RunTargets(ts, run).failure.None? ==> RunTargets(ts, run).calls == AllCalls(ts, run, |ts|)
  {
    RunCompletesUpTo(ts, run, |ts|);
  }

  /** A run that fails carries the failure of one of its handler calls. */
  lemma {:induction false} RunFailureFrom(ts: seq<Target>, run: Handler, k: nat)
    requires k <= |ts|
    ensures RunUpTo(ts, run, k).failure.Some? ==> exists i :: 0 <= i < k && run(ts[i], i).failure == RunUpTo(ts, run, k).failure
  {
    if k > 0 {
      RunFailureFrom(ts, run, k - 1);
    }
  }

  /** A run issues only calls that some handler call issued. */
  lemma {:induction false} RunCallsFrom(ts: seq<Target>, run: Handler, k: nat)
    requires k <= |ts|
    ensures forall c :: c in RunUpTo(ts, run, k).calls ==> exists i :: 0 <= i < k && c in run(ts[i], i).calls
  {
    if k > 0 {
      RunCallsFrom(ts, run, k - 1);
    }
  }

  /** Whatever the file, the context, the arguments and the replies, the tool sends only sane requests. */
  lemma MaintenanceSane(apps: Option<Applications>, context: string, order: seq<Kind>,
                        name: string, start: string, duration: string, envs: nat -> TargetEnv)
    ensures forall c :: c in MaintenanceRun(apps, context, order, TargetHandler(name, start, duration, envs)).calls ==> Sane(c)
  {
    if apps.Some? && context in apps.value {
      var ts := Expand(apps.value[context], order);
      var run := TargetHandler(name, start, duration, envs);
      RunCallsFrom(ts, run, |ts|);
      forall c | c in RunTargets(ts, run).calls ensures Sane(c) {
        var i :| 0 <= i < |ts| && c in run(ts[i], i).calls;
        TargetCallsSane(ts[i], name, start, duration, envs(i));
      }
    }
  }

  /** The targets of one kind. */
  function Select(ts: seq<Target>, kind: Kind): seq<Target> {
    if ts == [] then []
    else (if ts[0].kind == kind then [ts[0]] else []) + Select(ts[1..], kind)
  }

  lemma {:induction false} SelectAppend(a: seq<Target>, b: seq<Target>, kind: Kind)
    ensures Select(a + b, kind) == Select(a, kind) + Select(b, kind)
  {
    if a != [] {
      var ab := a + b;
      assert ab[0] == a[0] && ab[1..] == a[1..] + b;
      SelectAppend(a[1..], b, kind);
      assert Select(ab, kind) == (if a[0].kind == kind then [a[0]] else []) + Select(a[1..] + b, kind);
    } else {
      assert a + b == b;
    }
  }

  lemma {:induction false} SelectLeaves(k: Kind, leaves: seq<string>, kind: Kind)
    ensures Select(Leaves(k, leaves), kind) == if k == kind then Leaves(k, leaves) else []
  {
    if leaves != [] {
      assert Leaves(k, leaves)[1..] == Leaves(k, leaves[1..]);
      SelectLeaves(k, leaves[1..], kind);
    }
  }

  /** Each kind's targets in the expansion are exactly what the context lists for it, if the order has that kind. */
  lemma {:induction false} ExpandSelect(ctx: map<string, seq<string>>, order: seq<Kind>, kind: Kind)
    requires Distinct(order)
    ensures Select(Expand(ctx, order), kind) == if kind in order then Group(ctx, kind) else []
  {
    if order != [] {
      var init, last := order[..|order| - 1], order[|order| - 1];
      assert Distinct(init);
      ExpandSelect(ctx, init, kind);
      SelectAppend(Expand(ctx, init), Group(ctx, last), kind);
      if last.Key() in ctx {
        SelectLeaves(last, ctx[last.Key()], kind);
      }
      assert kind in order <==> kind in init || kind == last;
      if kind == last {
        assert kind !in init;
      }
    }
  }

  /**
   * Every leaf the context lists under a handled kind is handled, in list
   * order; a kind it does not mention contributes nothing; keys that are not
   * one of the four kinds are ignored.
   */
  lemma ExpandPerKind(ctx: map<string, seq<string>>, order: seq<Kind>, kind: Kind)
    requires KindOrder(order)
    ensures kind.Key() in ctx ==> Select(Expand(ctx, order), kind) == Leaves(kind, ctx[kind.Key()])
    ensures kind.Key() !in ctx ==> Select(Expand(ctx, order), kind) == []
  {
    ExpandSelect(ctx, order, kind);
  }
}
