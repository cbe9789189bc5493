/**
 * The plan's lifecycle as pure functions of its status and of how its units
 * behave: which guarded hook calls Execute and Down make, in which order, what
 * status they leave behind and which error they return.  The class in module
 * Exec is proved to follow these functions; the lemmas here state what the
 * functions promise.
 */
module Lifecycle {

  import opened Wrappers
  import opened Types
  import opened Discovery

  /** The indices of a list of n units. */
  function Range(n: nat): seq<nat> {
    seq(n, i => i)
  }

  /** `hook` on each of `targets`, in order. */
  function Calls(hook: Hook, targets: seq<nat>): seq<Call> {
    seq(|targets|, k requires 0 <= k < |targets| => Call(hook, targets[k]))
  }

  /** The hook calls that processing one bundle plans: StartBundle on every root,
      then Process on every root, then FinishBundle on every root. */
  function BundleCalls(roots: seq<nat>, bundle: string): seq<Call> {
    Calls(StartBundle(bundle), roots) + Calls(Process, roots) + Calls(FinishBundle, roots)
  }

  /** The calls made and the outcome of a run of guarded calls. */
  datatype Run = Run(calls: seq<Call>, outcome: Outcome)

  /** Guarded calls of `planned`, in order, up to and including the first that fails. */
  function RunInOrder(planned: seq<Call>, env: Env): Run {
    if planned == [] then Run([], Ok)
    else match env(planned[0])
      case Fail(e) => Run([planned[0]], Fail(e))
      case Ok =>
        var rest := RunInOrder(planned[1..], env);
        Run([planned[0]] + rest.calls, rest.outcome)
  }

  /** A run makes a prefix of the planned calls, every one but the last succeeded,
      and it ends either after all of them, all successful, or at the first that
      failed, with that call's error. */
  lemma {:induction false} RunInOrderSpec(planned: seq<Call>, env: Env)
    ensures var r := RunInOrder(planned, env);
      && |r.calls| <= |planned| && r.calls == planned[..|r.calls|]
      && (forall k :: 0 <= k < |r.calls| - 1 ==> env(planned[k]).Ok?)
      && (r.outcome.Ok? ==> r.calls == planned && forall k :: 0 <= k < |planned| ==> env(planned[k]).Ok?)
      && (r.outcome.Fail? ==> r.calls != [] && env(planned[|r.calls| - 1]) == r.outcome)
  {
    if planned != [] && env(planned[0]).Ok? {
      var tail := planned[1..];
      RunInOrderSpec(tail, env);
      var rest := RunInOrder(tail, env);
      assert RunInOrder(planned, env) == Run([planned[0]] + rest.calls, rest.outcome);
      assert planned[..|rest.calls| + 1] == [planned[0]] + tail[..|rest.calls|];
      assert forall k :: 1 <= k < |planned| ==> planned[k] == tail[k - 1];
    }
  }

  /** When every planned call succeeds, all of them are made. */
  lemma {:induction false} RunInOrderAllOk(planned: seq<Call>, env: Env)
    requires forall k :: 0 <= k < |planned| ==> env(planned[k]).Ok?
    ensures RunInOrder(planned, env) == Run(planned, Ok)
  {
    if planned != [] {
      RunInOrderAllOk(planned[1..], env);
      assert [planned[0]] + planned[1..] == planned;
    }
  }

  /** A run over calls that succeed up to `i` and fail at `i` makes exactly the calls up to `i`. */
  lemma {:induction false} RunInOrderStopsAt(planned: seq<Call>, env: Env, i: nat)
    requires i < |planned| && env(planned[i]).Fail?
    requires forall k :: 0 <= k < i ==> env(planned[k]).Ok?
    ensures RunInOrder(planned, env) == Run(planned[..i + 1], env(planned[i]))
  {
    if i > 0 {
      RunInOrderStopsAt(planned[1..], env, i - 1);
      assert [planned[0]] + planned[1..][..i] == planned[..i + 1];
    }
  }

  /** `first`, followed by `next` only when `first` succeeded. */
  function Then(first: Run, next: Run): Run {
    if first.outcome.Fail? then first else Run(first.calls + next.calls, next.outcome)
  }

  /** Running two lists one after the other is running their concatenation. */
  lemma {:induction false} RunInOrderConcat(a: seq<Call>, b: seq<Call>, env: Env)
    ensures RunInOrder(a + b, env) == Then(RunInOrder(a, env), RunInOrder(b, env))
  {
    if a == [] {
      assert a + b == b;
    } else {
      assert (a + b)[1..] == a[1..] + b;
      if env(a[0]).Ok? {
        RunInOrderConcat(a[1..], b, env);
      }
    }
  }

  /** The three bundle phases, each across all roots, each short-circuiting. */
  function BundleRun(roots: seq<nat>, bundle: string, env: Env): Run {
    Then(Then(RunInOrder(Calls(StartBundle(bundle), roots), env),
              RunInOrder(Calls(Process, roots), env)),
         RunInOrder(Calls(FinishBundle, roots), env))
  }

  /** What a call of Execute or Down does: the status it leaves, the guarded
      calls it makes and the error it returns (None for nil). */
  datatype Step = Step(status: Status, calls: seq<Call>, err: Option<Error>)

  /** A run that ends Execute: Up on success, Broken with the failing call's error otherwise. */
  function Conclude(r: Run): Step {
    match r.outcome
    case Ok => Step(Up, r.calls, None)
    case Fail(e) => Step(Broken, r.calls, Some(e))
  }

  /** Execute on a plan with `n` units and the given roots, in `status`. */
  function ExecuteSpec(id: string, n: nat, roots: seq<nat>, status: Status, bundle: string, env: Env): Step {
    match status
    case Initializing =>
      Conclude(Then(RunInOrder(Calls(BringUp, Range(n)), env), BundleRun(roots, bundle, env)))
    case Up => Conclude(BundleRun(roots, bundle, env))
    case _ => Step(status, [], Some(InvalidStatus(id, status)))
  }

  /** Execute from Initializing or Up read stage by stage, as the plan runs it:
      bring-up (the first time only), then the three bundle phases. */
  lemma ExecuteStages(id: string, n: nat, roots: seq<nat>, status: Status, bundle: string, env: Env)
    requires status == Initializing || status == Up
    ensures ExecuteSpec(id, n, roots, status, bundle, env) ==
              Conclude(Then(if status == Initializing then RunInOrder(Calls(BringUp, Range(n)), env) else Run([], Ok),
                            BundleRun(roots, bundle, env)))
  {
    if status == Up {
      var b := BundleRun(roots, bundle, env);
      assert [] + b.calls == b.calls;
    }
  }

  /** The guarded calls Execute attempts from `status`: the bring-up of every
      unit the first time, then the bundle phases. */
  function ExecutePlan(n: nat, roots: seq<nat>, status: Status, bundle: string): seq<Call> {
    (if status == Initializing then Calls(BringUp, Range(n)) else []) + BundleCalls(roots, bundle)
  }

  /** Execute from Initializing or Up is one run of guarded calls over its plan. */
  lemma ExecuteRunsPlan(id: string, n: nat, roots: seq<nat>, status: Status, bundle: string, env: Env)
    requires status == Initializing || status == Up
    ensures ExecuteSpec(id, n, roots, status, bundle, env)
         == Conclude(RunInOrder(ExecutePlan(n, roots, status, bundle), env))
  {
    var s, p, f := Calls(StartBundle(bundle), roots), Calls(Process, roots), Calls(FinishBundle, roots);
    RunInOrderConcat(s, p, env);
    RunInOrderConcat(s + p, f, env);
    if status == Initializing {
      var u := Calls(BringUp, Range(n));
      RunInOrderConcat(u, s + p + f, env);
    } else {
      assert ExecutePlan(n, roots, status, bundle) == s + p + f;
    }
  }

  /** Execute succeeds exactly when it starts in Initializing or Up and every planned
      hook succeeds; it then has called every planned hook, in order, and is Up again. */
  lemma ExecuteSucceedsIff(id: string, n: nat, roots: seq<nat>, status: Status, bundle: string, env: Env)
    ensures var step := ExecuteSpec(id, n, roots, status, bundle, env);
            var plan := ExecutePlan(n, roots, status, bundle);
            step.err.None? <==> (status == Initializing || status == Up) && forall k :: 0 <= k < |plan| ==> env(plan[k]).Ok?
    ensures var step := ExecuteSpec(id, n, roots, status, bundle, env);
            step.err.None? ==> step.status == Up && step.calls == ExecutePlan(n, roots, status, bundle)
  {
    if status == Initializing || status == Up {
      ExecuteRunsPlan(id, n, roots, status, bundle, env);
      RunInOrderSpec(ExecutePlan(n, roots, status, bundle), env);
    }
  }

  /** A failing Execute from Initializing or Up breaks the plan: it stopped at the first
      failing hook, returned that hook's error, and called nothing after it. */
  lemma ExecuteFailureBreaks(id: string, n: nat, roots: seq<nat>, status: Status, bundle: string, env: Env)
    requires status == Initializing || status == Up
    ensures var step := ExecuteSpec(id, n, roots, status, bundle, env);
            var plan := ExecutePlan(n, roots, status, bundle);
            step.err.Some? ==>
              && step.status == Broken
              && 0 < |step.calls| <= |plan|
              && step.calls == plan[..|step.calls|]
              && env(plan[|step.calls| - 1]) == Fail(step.err.value)
              && forall k :: 0 <= k < |step.calls| - 1 ==> env(plan[k]).Ok?
  {
    ExecuteRunsPlan(id, n, roots, status, bundle, env);
    RunInOrderSpec(ExecutePlan(n, roots, status, bundle), env);
  }

  /** Execute on an Active, Broken or Down plan is refused: the status is kept and no hook runs. */
  lemma ExecuteRejectsUnusable(id: string, n: nat, roots: seq<nat>, status: Status, bundle: string, env: Env)
    requires status != Initializing && status != Up
    ensures ExecuteSpec(id, n, roots, status, bundle, env) == Step(status, [], Some(InvalidStatus(id, status)))
  {
  }

  /** A failed Execute leaves the plan Broken for good: the next Execute is refused
      with an invalid-status error and runs no hook. */
  lemma FailedExecuteRefusesNext(id: string, n: nat, roots: seq<nat>, status: Status, bundle: string, env: Env,
                                 nextBundle: string, nextEnv: Env)
    requires status == Initializing || status == Up
    requires ExecuteSpec(id, n, roots, status, bundle, env).err.Some?
    ensures var after := ExecuteSpec(id, n, roots, status, bundle, env).status;
            ExecuteSpec(id, n, roots, after, nextBundle, nextEnv) == Step(Broken, [], Some(InvalidStatus(id, Broken)))
  {
    ExecuteFailureBreaks(id, n, roots, status, bundle, env);
  }

  /** No two bring-up calls on the same unit. */
  ghost predicate UpOnce(trace: seq<Call>) {
    forall i, j :: 0 <= i < j < |trace| && trace[i].hook.BringUp? ==> trace[i] != trace[j]
  }

  ghost predicate NoBringUp(trace: seq<Call>) {
    forall k :: 0 <= k < |trace| ==> !trace[k].hook.BringUp?
  }

  lemma UpOnceAppend(trace: seq<Call>, more: seq<Call>)
    requires UpOnce(trace) && NoBringUp(more)
    ensures UpOnce(trace + more)
  {
    var t := trace + more;
    forall i, j | 0 <= i < j < |t| && t[i].hook.BringUp?
      ensures t[i] != t[j]
    {
      if j >= |trace| {
        assert t[j] == more[j - |trace|];
      }
    }
  }

  lemma UpOncePrefix(trace: seq<Call>, k: nat)
    requires UpOnce(trace) && k <= |trace|
    ensures UpOnce(trace[..k])
  {
    assert forall i :: 0 <= i < k ==> trace[..k][i] == trace[i];
  }

  lemma BringUpCallsDistinct(n: nat)
    ensures UpOnce(Calls(BringUp, Range(n)))
  {
    var t := Calls(BringUp, Range(n));
    forall i, j | 0 <= i < j < |t| ensures t[i] != t[j] {
      assert t[i].unit == i && t[j].unit == j;
    }
  }

  lemma BundleCallsNoBringUp(roots: seq<nat>, bundle: string)
    ensures NoBringUp(BundleCalls(roots, bundle))
  {
    var s, p, f := Calls(StartBundle(bundle), roots), Calls(Process, roots), Calls(FinishBundle, roots);
    assert BundleCalls(roots, bundle) == s + p + f;
    forall k | 0 <= k < |s + p + f| ensures !(s + p + f)[k].hook.BringUp? {
      if k < |s| {
      } else if k < |s| + |p| {
        assert (s + p + f)[k] == p[k - |s|];
      } else {
        assert (s + p + f)[k] == f[k - |s| - |p|];
      }
    }
  }

  /** Execute brings units up only from Initializing, each at most once, and never
      leaves the plan Initializing: over a plan's life no unit is brought up twice. */
  lemma ExecuteBringsUpOnce(id: string, n: nat, roots: seq<nat>, status: Status, bundle: string, env: Env)
    ensures var step := ExecuteSpec(id, n, roots, status, bundle, env);
            && step.status != Initializing
            && UpOnce(step.calls)
            && (status != Initializing ==> NoBringUp(step.calls))
  {
    if status == Initializing || status == Up {
      ExecuteRunsPlan(id, n, roots, status, bundle, env);
      var plan := ExecutePlan(n, roots, status, bundle);
      var run := RunInOrder(plan, env);
      RunInOrderSpec(plan, env);
      var k := |run.calls|;
      assert run.calls == plan[..k];
      var bc := BundleCalls(roots, bundle);
      BundleCallsNoBringUp(roots, bundle);
      if status == Initializing {
        var ups := Calls(BringUp, Range(n));
        BringUpCallsDistinct(n);
        UpOnceAppend(ups, bc);
        assert plan == ups + bc;
        UpOncePrefix(plan, k);
      } else {
        assert plan == bc;
        assert NoBringUp(plan[..k]);
        UpOnceAppend([], plan[..k]);
        assert [] + plan[..k] == plan[..k];
      }
    }
  }

  /** Execute keeps a plan's record of hook calls free of a second bring-up of any unit. */
  lemma ExecuteKeepsUpOnce(trace: seq<Call>, id: string, n: nat, roots: seq<nat>, status: Status, bundle: string, env: Env)
    requires status == Initializing ==> trace == []
    requires UpOnce(trace)
    ensures var step := ExecuteSpec(id, n, roots, status, bundle, env);
            step.status != Initializing && UpOnce(trace + step.calls)
  {
    var step := ExecuteSpec(id, n, roots, status, bundle, env);
    ExecuteBringsUpOnce(id, n, roots, status, bundle, env);
    if status == Initializing {
      assert trace + step.calls == step.calls;
    } else {
      UpOnceAppend(trace, step.calls);
    }
  }

  /** Every one of the `n` units has been brought up somewhere in `trace`. */
  ghost predicate AllUp(trace: seq<Call>, n: nat) {
    forall u :: 0 <= u < n ==> Call(BringUp, u) in trace
  }

  /** A plan that Execute leaves Up has brought every unit up: either during this
      Execute, from Initializing, or already before it, when it started Up. */
  lemma {:induction false} ExecuteKeepsAllUp(trace: seq<Call>, id: string, n: nat, roots: seq<nat>, status: Status, bundle: string, env: Env)
    requires status == Up ==> AllUp(trace, n)
    ensures var step := ExecuteSpec(id, n, roots, status, bundle, env);
            step.status == Up ==> AllUp(trace + step.calls, n)
  {
    var step := ExecuteSpec(id, n, roots, status, bundle, env);
    if step.status == Up {
      assert status == Initializing || status == Up;
      ExecuteSucceedsIff(id, n, roots, status, bundle, env);
      assert step.err.None?;
      forall u | 0 <= u < n
        ensures Call(BringUp, u) in trace + step.calls
      {
        if status == Initializing {
          var plan := ExecutePlan(n, roots, status, bundle);
          assert plan[u] == Call(BringUp, u);
          assert step.calls[u] == plan[u];
          assert (trace + step.calls)[|trace| + u] == Call(BringUp, u);
        } else {
          assert Call(BringUp, u) in trace;
          var i :| 0 <= i < |trace| && trace[i] == Call(BringUp, u);
          assert (trace + step.calls)[i] == Call(BringUp, u);
        }
      }
    }
  }

  /** The errors of the calls of `planned` that fail, collected in order. */
  function Failures(planned: seq<Call>, env: Env): seq<Error> {
    if planned == [] then []
    else
      var last := planned[|planned| - 1];
      Failures(planned[..|planned| - 1], env) + (if env(last).Fail? then [env(last).err] else [])
  }

  /** The collected errors are those of the failing calls, one each, in order. */
  lemma {:induction false} FailuresSpec(planned: seq<Call>, env: Env)
    ensures var errs := Failures(planned, env);
            var failed := Where(planned, FailsUnder(env));
            |errs| == |failed| && forall k :: 0 <= k < |errs| ==> env(planned[failed[k]]) == Fail(errs[k])
  {
    if planned != [] {
      FailuresSpec(planned[..|planned| - 1], env);
    }
  }

  function FailsUnder(env: Env): Call -> bool {
    c => env(c).Fail?
  }

  /** The error Down returns for the tear-down errors it collected. */
  function Aggregate(id: string, errs: seq<Error>): Option<Error> {
    if |errs| == 0 then None
    else if |errs| == 1 then Some(PlanFailed(id, errs[0]))
    else Some(PlanFailedMultiple(id, errs))
  }

  /** Down on a plan with `n` units, in `status`. */
  function DownSpec(id: string, n: nat, status: Status, env: Env): Step {
    if status == Down then Step(Down, [], None)
    else
      var planned := Calls(TearDown, Range(n));
      Step(Down, planned, Aggregate(id, Failures(planned, env)))
  }

  /** Down on a plan that is already Down touches no unit and returns nil. */
  lemma DownIsIdempotent(id: string, n: nat, env: Env)
    ensures DownSpec(id, n, Down, env) == Step(Down, [], None)
  {
  }

  /** Down on any other plan marks it Down, attempts tear-down on every unit in order
      whatever fails, and returns nil exactly when every tear-down succeeds. */
  lemma DownTearsDownAll(id: string, n: nat, status: Status, env: Env)
    requires status != Down
    ensures var step := DownSpec(id, n, status, env);
            && step.status == Down
            && step.calls == Calls(TearDown, Range(n))
            && (step.err.None? <==> forall u :: 0 <= u < n ==> env(Call(TearDown, u)).Ok?)
  {
    var planned := Calls(TearDown, Range(n));
    var ix := Where(planned, FailsUnder(env));
    FailuresSpec(planned, env);
    if exists u :: 0 <= u < n && env(Call(TearDown, u)).Fail? {
      var u :| 0 <= u < n && env(Call(TearDown, u)).Fail?;
      assert planned[u] == Call(TearDown, u);
      assert u in ix;
    } else {
      forall k | 0 <= k < |planned| ensures !FailsUnder(env)(planned[k]) {
        assert planned[k] == Call(TearDown, k);
      }
      WhereNone(planned, FailsUnder(env));
    }
  }

  /** With exactly one failing tear-down, Down returns that error wrapped with the plan id. */
  lemma DownWrapsSingleFailure(id: string, n: nat, status: Status, env: Env, u: nat)
    requires status != Down
    requires u < n && env(Call(TearDown, u)).Fail?
    requires forall v :: 0 <= v < n && v != u ==> env(Call(TearDown, v)).Ok?
    ensures DownSpec(id, n, status, env).err == Some(PlanFailed(id, env(Call(TearDown, u)).err))
  {
    var planned := Calls(TearDown, Range(n));
    FailuresSpec(planned, env);
    forall w | 0 <= w < |planned| && w != u ensures !FailsUnder(env)(planned[w]) {
      assert planned[w] == Call(TearDown, w);
    }
    WhereOnly(planned, FailsUnder(env), u);
  }

  /** With two or more failing tear-downs, Down returns one aggregate error that lists
      the error of every failing unit, in unit order, and nothing else. */
  lemma DownAggregatesFailures(id: string, n: nat, status: Status, env: Env, u: nat, v: nat)
    requires status != Down
    requires u < v < n && env(Call(TearDown, u)).Fail? && env(Call(TearDown, v)).Fail?
    ensures var err := DownSpec(id, n, status, env).err;
            var failed := Where(Calls(TearDown, Range(n)), FailsUnder(env));
            && err.Some? && err.value.PlanFailedMultiple? && err.value.plan == id
            && |err.value.causes| == |failed|
            && forall k :: 0 <= k < |failed| ==> env(Call(TearDown, failed[k])) == Fail(err.value.causes[k])
  {
    var planned := Calls(TearDown, Range(n));
    var ix := Where(planned, FailsUnder(env));
    FailuresSpec(planned, env);
    assert planned[u] == Call(TearDown, u) && planned[v] == Call(TearDown, v);
    assert u in ix && v in ix;
    var a, b :| 0 <= a < |ix| && 0 <= b < |ix| && ix[a] == u && ix[b] == v;
    assert a != b;
    forall k | 0 <= k < |ix| ensures planned[ix[k]] == Call(TearDown, ix[k]) {
    }
  }

  /** Down never brings a unit up, so it keeps a plan's record of hook calls free of
      a second bring-up, and it leaves the plan Down. */
  lemma DownKeepsUpOnce(trace: seq<Call>, id: string, n: nat, status: Status, env: Env)
    requires UpOnce(trace)
    ensures var step := DownSpec(id, n, status, env);
            step.status == Down && UpOnce(trace + step.calls)
  {
    var step := DownSpec(id, n, status, env);
    assert NoBringUp(step.calls);
    UpOnceAppend(trace, step.calls);
  }
}
