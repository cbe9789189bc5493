# Bundle execution plan of the Beam Go SDK, in Dafny

This project models `Plan`, the bundle execution plan of the Apache Beam Go SDK's
runtime (`sdks/go/pkg/beam/core/runtime/exec/plan.go`), and proves what it promises.

A plan holds a fixed, ordered list of units. `NewPlan` checks the list and extracts
three things from it: the roots, the data source, and the transform ids used for
metrics. `Execute` processes one bundle. The first time, it brings every unit up.
Then it runs StartBundle, Process and FinishBundle, each phase across all roots.
Every hook call is guarded, so a panic becomes an error. The first failure breaks
the plan for good. `Down` tears every unit down, whatever fails. It then returns nil,
the one error wrapped with the plan id, or one aggregate error. `Metrics` builds a
snapshot keyed by transform id. `Split` forwards a split request to the data source.

Files:

- `wrappers.dfy`: `Option` and `Result`.
- `types.dfy` (module `Types`): the data model. It has the status, the units and
  their capabilities, the hooks, the errors, and the oracle types for the units'
  behaviour, the progress snapshot, the metrics registry and the source's split.
- `discovery.dfy` (module `Discovery`): what `NewPlan` extracts from the unit list,
  as functions with characterising contracts.
- `lifecycle.dfy` (module `Lifecycle`): `Execute` and `Down` as pure functions of the
  status and of how the units behave (`ExecuteSpec`, `DownSpec`), with the lemmas
  that state the lifecycle's guarantees.
- `plan.dfy` (module `Exec`): the class `Plan`. Its methods update `status` step by
  step, as the Go code does, and are proved to follow `ExecuteSpec` and `DownSpec`.
  A ghost field `trace` records every guarded hook call. It is used to state which
  hooks ran, in what order, that no unit is ever brought up twice, and that an Up
  plan has brought every unit up (the class invariant `Valid`).

How the model represents things:

- A unit is a value `Unit(kind, pid)`, and `Nil` stands for a nil entry. `kind` says
  whether the unit is a plain unit, a root or a data source (a data source is a root).
  `pid` is the `GetPID()` value when the unit has that method.
- `roots` and `source` are indices into `units`. The Go plan holds references to the
  same unit objects.
- How units behave during one `Execute` or `Down` call is a parameter
  `env: Call -> Outcome`. It gives the result of each guarded hook call. A hook that
  panics is `Fail(HookPanicked(..))`, the error the guard produces.
- The plan's id is the constant field `id`, which is Go's `ID()`.

## Model

| member | source | states |
|---|---|---|
| `Exec.Plan.NewPlan` | sdks/go/pkg/beam/core/runtime/exec/plan.go:52-83 | A nil unit gives `NilUnits`. Otherwise, no root gives `NoRootUnits`. Otherwise the result is a fresh plan in `Initializing` with an empty trace, `roots = Where(units, IsRoot)`, `source = LastSource(units)` and `parDoIDs = PIDs(units)`. The failure cases are both directions of an iff. |
| `Exec.Plan.Create` | sdks/go/pkg/beam/core/runtime/exec/plan.go:75-82 | The plan literal: the given fields, status `Initializing`, and the invariant `Valid`. |
| `Discovery.Where` | sdks/go/pkg/beam/core/runtime/exec/plan.go:61-63 | The roots filter. It returns exactly the indices of the elements that satisfy the predicate, each in range, strictly increasing, and none missing. |
| `Discovery.LastSource` | sdks/go/pkg/beam/core/runtime/exec/plan.go:64-66 | The source kept is a data source, and no data source comes after it. It is None exactly when the list has no data source. |
| `Discovery.PIDs` | sdks/go/pkg/beam/core/runtime/exec/plan.go:67-69 | `parDoIDs` has one entry per unit with `GetPID()`, in list order. Entry k is the PID of the k-th such unit. |
| `Exec.Plan.SourcePTransformID` | sdks/go/pkg/beam/core/runtime/exec/plan.go:91-93 | For a plan that has a source, the result is the target transform of a data source that no later data source follows. |
| `Exec.Plan.Invoke` | sdks/go/pkg/beam/core/runtime/exec/plan.go:102 | The guarded call. It appends exactly one call to the trace and returns that call's outcome. |
| `Exec.Plan.CallInOrder` | sdks/go/pkg/beam/core/runtime/exec/plan.go:101-106 | One loop with an early return. The trace grows by exactly `RunInOrder(planned)`'s calls, and the result is its outcome. |
| `Lifecycle.RunInOrderSpec` | sdks/go/pkg/beam/core/runtime/exec/plan.go:117-122 | A guarded loop makes a prefix of the planned calls, and every call but the last succeeded. It ends after all of them, all successful, or at the first failure with that call's error. |
| `Lifecycle.RunInOrderAllOk` | sdks/go/pkg/beam/core/runtime/exec/plan.go:123-128 | When every planned call succeeds, the loop makes all of them and succeeds. |
| `Lifecycle.RunInOrderStopsAt` | sdks/go/pkg/beam/core/runtime/exec/plan.go:129-134 | When the calls before index i succeed and call i fails, the loop makes exactly the calls up to i and returns call i's error. |
| `Lifecycle.RunInOrderConcat` | sdks/go/pkg/beam/core/runtime/exec/plan.go:116-134 | Running two lists one after the other, with the second only after the first succeeded, is running their concatenation. |
| `Exec.Plan.RunBundle` | sdks/go/pkg/beam/core/runtime/exec/plan.go:117-134 | StartBundle with the bundle id on every root, then Process, then FinishBundle. The trace grows by `BundleRun`'s calls, and the result is its outcome. |
| `Exec.Plan.Execute` | sdks/go/pkg/beam/core/runtime/exec/plan.go:98-138 | The new status, the calls appended to the trace and the returned error are those of `ExecuteSpec` for the old status. `Valid` is kept, so no unit is ever brought up twice and a plan left Up has brought every unit up. |
| `Lifecycle.ExecuteRunsPlan` | sdks/go/pkg/beam/core/runtime/exec/plan.go:100-137 | From Initializing or Up, `Execute` is one guarded run over its planned calls. These are Up on every unit (from Initializing only), then StartBundle, Process and FinishBundle, each on every root. |
| `Lifecycle.ExecuteSucceedsIff` | sdks/go/pkg/beam/core/runtime/exec/plan.go:100-137 | `Execute` returns nil iff it starts in Initializing or Up and every planned hook succeeds. It has then made every planned call, in order, and the status is Up again. |
| `Lifecycle.ExecuteFailureBreaks` | sdks/go/pkg/beam/core/runtime/exec/plan.go:100-134 | A failing `Execute` from Initializing or Up sets Broken. It has made a non-empty prefix of the planned calls, all successful but the last, and it returns the last call's error. |
| `Lifecycle.ExecuteRejectsUnusable` | sdks/go/pkg/beam/core/runtime/exec/plan.go:110-112 | From Active, Broken or Down, `Execute` returns `InvalidStatus(id, status)`, keeps the status and calls no hook. |
| `Lifecycle.FailedExecuteRefusesNext` | sdks/go/pkg/beam/core/runtime/exec/plan.go:103-112 | After a failed `Execute`, the next `Execute` is refused with `InvalidStatus(id, Broken)` and runs no hook. |
| `Lifecycle.ExecuteBringsUpOnce` | sdks/go/pkg/beam/core/runtime/exec/plan.go:100-107 | `Execute` never leaves the plan Initializing. It brings each unit up at most once, and it brings up nothing unless it started in Initializing. |
| `Lifecycle.ExecuteKeepsUpOnce` | sdks/go/pkg/beam/core/runtime/exec/plan.go:100-108 | Appending `Execute`'s calls to a trace with no repeated bring-up keeps it so. This is how `Plan.Execute` keeps `Valid`. |
| `Lifecycle.ExecuteKeepsAllUp` | sdks/go/pkg/beam/core/runtime/exec/plan.go:100-107 | A plan that `Execute` leaves Up has brought every unit up, either in this call (from Initializing) or before it (when it started Up). This is how `Plan.Execute` keeps the Up part of `Valid`. |
| `Lifecycle.FailuresSpec` | sdks/go/pkg/beam/core/runtime/exec/plan.go:147-152 | The errors collected are those of the failing tear-downs, one each, in unit order. |
| `Exec.Plan.Down` | sdks/go/pkg/beam/core/runtime/exec/plan.go:141-162 | The new status, the calls appended to the trace and the returned error are those of `DownSpec` for the old status. `Valid` is kept. |
| `Lifecycle.DownIsIdempotent` | sdks/go/pkg/beam/core/runtime/exec/plan.go:142-144 | `Down` on a plan that is already Down returns nil and touches no unit. |
| `Lifecycle.DownTearsDownAll` | sdks/go/pkg/beam/core/runtime/exec/plan.go:145-156 | Otherwise `Down` sets Down and calls tear-down on every unit, in order, whatever fails. It returns nil iff every tear-down succeeds. |
| `Lifecycle.DownWrapsSingleFailure` | sdks/go/pkg/beam/core/runtime/exec/plan.go:157-158 | With exactly one failing tear-down, `Down` returns that error wrapped with the plan id. |
| `Lifecycle.DownAggregatesFailures` | sdks/go/pkg/beam/core/runtime/exec/plan.go:159-160 | With two or more failing tear-downs, `Down` returns one aggregate error with the plan id. It lists every failing unit's error, in unit order, and nothing else. |
| `Lifecycle.DownKeepsUpOnce` | sdks/go/pkg/beam/core/runtime/exec/plan.go:145-152 | `Down` brings nothing up, so it keeps the trace free of a repeated bring-up, and it leaves the plan Down. |
| `Exec.Plan.Metrics` | sdks/go/pkg/beam/core/runtime/exec/plan.go:173-198 | The keys are exactly the `parDoIDs`, plus the progress snapshot's id when a source exists. Each par-do id maps to the registry's user metrics for (plan id, id). The source entry holds the snapshot's count under its name, unless a par-do entry with the same id overwrote it. |
| `Exec.Plan.Split` | sdks/go/pkg/beam/core/runtime/exec/plan.go:209-214 | Without a source the result is `(0, SourceNotInitialized(request))`. With one, it is exactly the source's result for the unchanged splits and fraction. Nothing in the plan changes. |

## Left out

- The `context.Context`, `metrics.SetBundleID` and the `DataContext` passed to StartBundle are left out. They carry nothing the plan decides on.
- The recovery of panics inside `callNoPanic` is not modelled. A panic is one more `Fail` outcome of a guarded call.
- Error message text (`fmt`/`errors` formatting), `Plan.String()` and the units' `ID()` are left out. An error is modelled by its kind, the plan id and the errors it wraps.
- The protobuf types are replaced. The metrics snapshot is a map from transform id to a `TransformMetrics` record. The registry behind `metrics.ToProto` is a function of (plan id, transform id).
- `DataSource.Progress`, `DataSource.Split` and the hooks of the units are oracles, passed as parameters. Their internals are not part of this model.
- `SplitPoints.Frac` is a float32, carried as its bit pattern and never interpreted.
- Concurrent `Metrics`/`Split` during an active `Execute` is not modelled. Everything is sequential, so the `Active` status is never seen from outside `Execute`.
- Exec.Plan.SourcePTransformID: requires a data source, because the Go code dereferences a nil pointer without one. The model does not capture that panic.
- Exec.Plan.Execute: delegates the three bundle loops to `RunBundle` and all four loops to `CallInOrder`. Go writes the loops inline. The order of calls and the status changes are the same.
- The roots and the source are held as indices into `units`. The model does not capture that they alias the same unit objects.

