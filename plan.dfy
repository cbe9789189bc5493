/**
 * The bundle execution plan: a fixed, ordered list of units driven through
 * bring-up, any number of bundles, and tear-down.  Every hook call goes through
 * one guarded call (Invoke), and the ghost `trace` records each of them, so the
 * contracts can say which hooks ran and in which order.
 */
module Exec {

  import opened Wrappers
  import opened Types
  import opened Discovery
  import opened Lifecycle

  class Plan {
    const id: string
    const units: seq<Unit>
    /** Indices into `units` of the units that are roots, in list order. */
    const roots: seq<nat>
    const parDoIDs: seq<string>
    /** Index into `units` of the data source, if there is one. */
    const source: Option<nat>

    var status: Status
    /** Every guarded hook call made on this plan's units, oldest first. */
    ghost var trace: seq<Call>

    /** What NewPlan established about the unit list; it never changes. */
    predicate WellFormed() {
      && NoNil(units)
      && roots == Where(units, IsRoot)
      && roots != []
      && source == LastSource(units)
      && parDoIDs == PIDs(units)
    }

    /** The plan's invariant: units are brought up only once the plan leaves
        Initializing, no unit is ever brought up twice, and an Up plan has brought
        every unit up. */
    ghost predicate Valid()
      reads this
    {
      && WellFormed()
      && (status == Initializing ==> trace == [])
      && UpOnce(trace)
      && (status == Up ==> AllUp(trace, |units|))
    }

    constructor Create(id: string, units: seq<Unit>, roots: seq<nat>, source: Option<nat>, parDoIDs: seq<string>)
      requires NoNil(units) && roots == Where(units, IsRoot) && roots != []
      requires source == LastSource(units) && parDoIDs == PIDs(units)
      ensures Valid()
      ensures this.id == id && this.units == units && this.roots == roots
      ensures this.source == source && this.parDoIDs == parDoIDs
      ensures status == Initializing && trace == []
    {
      this.id := id;
      this.units := units;
      this.roots := roots;
      this.source := source;
      this.parDoIDs := parDoIDs;
      status := Initializing;
      trace := [];
    }

    /** Builds a plan from the unit list: fails on a nil unit, else fails when no unit
        is a root; otherwise records the roots, the last data source and the GetPID()
        values, and starts Initializing. */
    static method NewPlan(id: string, units: seq<Unit>) returns (r: Result<Plan, Error>)
      ensures r.Failure? ==> r.error == NilUnits || r.error == NoRootUnits
      ensures r == Failure(NilUnits) <==> !NoNil(units)
      ensures r == Failure(NoRootUnits) <==> NoNil(units) && Where(units, IsRoot) == []
      ensures r.Success? ==>
        && fresh(r.value) && r.value.Valid()
        && r.value.id == id && r.value.units == units
        && r.value.roots == Where(units, IsRoot) && r.value.source == LastSource(units)
        && r.value.parDoIDs == PIDs(units)
        && r.value.status == Initializing && r.value.trace == []
    {
      var roots: seq<nat> := [];
      var source: Option<nat> := None;
      var pardoIDs: seq<string> := [];
      for i := 0 to |units|
        invariant NoNil(units[..i])
        invariant roots == Where(units[..i], IsRoot)
        invariant source == LastSource(units[..i])
        invariant pardoIDs == PIDs(units[..i])
      {
        DiscoverStep(units, i);
        var u := units[i];
        if u.Nil? {
          return Failure(NilUnits);
        }
        if IsRoot(u) {
          roots := roots + [i];
        }
        if IsSource(u) {
          source := Some(i);
        }
        if HasPID(u) {
          pardoIDs := pardoIDs + [u.pid.value];
        }
      }
      assert units[..|units|] == units;
      if |roots| == 0 {
        return Failure(NoRootUnits);
      }
      var p := new Plan.Create(id, units, roots, source, pardoIDs);
      return Success(p);
    }

    /** The transform the data source reads for: the target of the last data source's SID. */
    function SourcePTransformID(): (tid: string)
      requires WellFormed() && source.Some?
      ensures exists i :: 0 <= i < |units| && units[i].kind == DataSource(tid)
                && forall j :: i < j < |units| ==> !IsSource(units[j])
    {
      units[source.value].kind.sourceTarget
    }

    /** The guarded call: runs one hook and reports its error or recovered panic.
        Invoke, CallInOrder and RunBundle are internal steps of Execute and Down, which
        alone keep Valid; they are not operations of the plan on their own. */
    method Invoke(c: Call, env: Env) returns (o: Outcome)
      modifies this`trace
      ensures trace == old(trace) + [c] && o == env(c)
    {
      trace := trace + [c];
      o := env(c);
    }

    /** Calls the hooks of `planned` in order and stops at the first failure. */
    method CallInOrder(planned: seq<Call>, env: Env) returns (o: Outcome)
      modifies this`trace
      ensures var r := RunInOrder(planned, env); trace == old(trace) + r.calls && o == r.outcome
    {
      var i := 0;
      while i < |planned|
        invariant 0 <= i <= |planned|
        invariant trace == old(trace) + planned[..i]
        invariant forall k :: 0 <= k < i ==> env(planned[k]).Ok?
      {
        o := Invoke(planned[i], env);
        assert planned[..i + 1] == planned[..i] + [planned[i]];
        if o.Fail? {
          RunInOrderStopsAt(planned, env, i);
          return;
        }
        i := i + 1;
      }
      assert planned[..i] == planned;
      RunInOrderAllOk(planned, env);
      o := Ok;
    }

    /** The three bundle phases, each across all roots in order: StartBundle with the
        bundle id, then Process, then FinishBundle; the first failure ends the bundle. */
    method RunBundle(bundle: string, env: Env) returns (o: Outcome)
      modifies this`trace
      ensures var r := BundleRun(roots, bundle, env); trace == old(trace) + r.calls && o == r.outcome
    {
      o := CallInOrder(Calls(StartBundle(bundle), roots), env);
      if o.Fail? {
        return;
      }
      o := CallInOrder(Calls(Process, roots), env);
      if o.Fail? {
        return;
      }
      o := CallInOrder(Calls(FinishBundle, roots), env);
    }

    /** Processes one bundle: brings the units up on the first call, then runs the
        bundle phases.  Any failure breaks the plan and is returned; Execute on a plan
        that is not Up after bring-up changes nothing and returns an invalid-status error. */
    method Execute(bundle: string, env: Env) returns (err: Option<Error>)
      requires Valid()
      modifies this
      ensures Valid()
      ensures var step := ExecuteSpec(id, |units|, roots, old(status), bundle, env);
              status == step.status && trace == old(trace) + step.calls && err == step.err
    {
      ghost var step := ExecuteSpec(id, |units|, roots, status, bundle, env);
      ghost var t0 := trace;
      ExecuteKeepsUpOnce(t0, id, |units|, roots, status, bundle, env);
      ExecuteKeepsAllUp(t0, id, |units|, roots, status, bundle, env);
      ghost var up := Run([], Ok);
      if status == Initializing {
        up := RunInOrder(Calls(BringUp, Range(|units|)), env);
        var o := CallInOrder(Calls(BringUp, Range(|units|)), env);
        if o.Fail? {
          status := Broken;
          return Some(o.err);
        }
        status := Up;
      }
      if status != Up {
        return Some(InvalidStatus(id, status));
      }
      assert step == Conclude(Then(up, BundleRun(roots, bundle, env))) by {
        ExecuteStages(id, |units|, roots, old(status), bundle, env);
      }

      status := Active;
      ghost var bundleRun := BundleRun(roots, bundle, env);
      var o := RunBundle(bundle, env);
      assert trace == t0 + step.calls;
      if o.Fail? {
        status := Broken;
        return Some(o.err);
      }
      status := Up;
      return None;
    }

    /** Takes the plan and its units down.  Already Down: nothing happens.  Otherwise
        the plan is Down from then on, every unit gets its tear-down whatever the others
        do, and the errors collected become nil, one wrapped error, or one aggregate. */
    method Down(env: Env) returns (err: Option<Error>)
      requires Valid()
      modifies this
      ensures Valid()
      ensures var step := DownSpec(id, |units|, old(status), env);
              status == step.status && trace == old(trace) + step.calls && err == step.err
    {
      DownKeepsUpOnce(trace, id, |units|, status, env);
      if status == Status.Down {
        return None;
      }
      status := Status.Down;

      ghost var planned := Calls(TearDown, Range(|units|));
      var errs: seq<Error> := [];
      for i := 0 to |units|
        invariant status == Status.Down
        invariant trace == old(trace) + planned[..i]
        invariant errs == Failures(planned[..i], env)
      {
        assert planned[..i + 1][..i] == planned[..i];
        assert planned[..i + 1] == planned[..i] + [Call(TearDown, i)];
        var o := Invoke(Call(TearDown, i), env);
        if o.Fail? {
          errs := errs + [o.err];
        }
      }
      assert planned[..|units|] == planned;
      return Aggregate(id, errs);
    }

    /** A snapshot of the plan's metrics, keyed by transform id: the data source's
        processed-element count under its progress id, then the registry's user metrics
        for every GetPID() value, which replace the source entry on a shared id. */
    method Metrics(progress: ProgressSnapshot, registry: Registry) returns (transforms: map<string, TransformMetrics>)
      ensures transforms.Keys == (set pt | pt in parDoIDs) + (if source.Some? then {progress.id} else {})
      ensures forall pt :: pt in parDoIDs ==> transforms[pt] == User(registry(id, pt))
      ensures source.Some? && progress.id !in parDoIDs ==>
                transforms[progress.id] == ProcessedElements(map[progress.name := progress.count])
    {
      transforms := map[];
      if source.Some? {
        transforms := transforms[progress.id := ProcessedElements(map[progress.name := progress.count])];
      }
      ghost var base := transforms;
      for i := 0 to |parDoIDs|
        invariant transforms.Keys == base.Keys + (set k | 0 <= k < i :: parDoIDs[k])
        invariant forall k :: 0 <= k < i ==> transforms[parDoIDs[k]] == User(registry(id, parDoIDs[k]))
        invariant forall pt :: pt in base && pt !in parDoIDs[..i] ==> transforms[pt] == base[pt]
      {
        var pt := parDoIDs[i];
        transforms := transforms[pt := User(registry(id, pt))];
      }
      assert parDoIDs[..|parDoIDs|] == parDoIDs;
      assert (set k | 0 <= k < |parDoIDs| :: parDoIDs[k]) == (set pt | pt in parDoIDs) by {
        forall pt | pt in parDoIDs ensures exists k :: 0 <= k < |parDoIDs| && parDoIDs[k] == pt {
          var k :| 0 <= k < |parDoIDs| && parDoIDs[k] == pt;
        }
      }
    }

    /** Forwards a split request to the data source, unchanged, and returns what the
        source decides; without a data source, fails and changes nothing. */
    method Split(s: SplitPoints, sourceSplit: SourceSplit) returns (offset: int64, err: Option<Error>)
      ensures source.None? ==> offset == 0 && err == Some(SourceNotInitialized(s))
      ensures source.Some? ==> (offset, err) == sourceSplit(s.splits, s.frac)
    {
      if source.Some? {
        offset, err := sourceSplit(s.splits, s.frac).0, sourceSplit(s.splits, s.frac).1;
        return;
      }
      return 0, Some(SourceNotInitialized(s));
    }
  }
}
