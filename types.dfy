/**
 * The data model of the bundle execution plan (package exec of the Beam Go SDK):
 * the plan's lifecycle status, the units it coordinates, the hooks it invokes
 * on them, and the values it returns.  Everything a unit does is outside the
 * model; a unit is reduced to the capabilities the plan discovers on it and to
 * the outcome of each guarded hook call.
 */
module Types {

  import opened Wrappers

  /** Go's int64. */
  newtype int64 = x: int | -0x8000_0000_0000_0000 <= x < 0x8000_0000_0000_0000

  /** The bit pattern of a Go float32; the plan passes it through and never reads it. */
  type Float32Bits = bv32

  /** Lifecycle state of a plan. */
  datatype Status = Initializing | Up | Active | Broken | Down

  /** What a unit is, as the plan finds out by type assertion.  A data source is a root. */
  datatype Kind =
    | Plain                          // only the Up and Down hooks
    | Root                           // also StartBundle, Process and FinishBundle
    | DataSource(sourceTarget: string)  // the *DataSource root; the ID of its SID's target transform

  /** An entry of the unit list.  `Nil` is a nil interface value; `pid` is the
      result of GetPID() when the unit has that method. */
  datatype Unit = Nil | Unit(kind: Kind, pid: Option<string>)

  /** The hooks the plan calls on units: BringUp and TearDown are a unit's Up and Down;
      StartBundle carries the bundle id it is given. */
  datatype Hook = BringUp | StartBundle(bundle: string) | Process | FinishBundle | TearDown

  /** One guarded invocation of a hook on the unit at index `unit` of the plan's unit list. */
  datatype Call = Call(hook: Hook, unit: nat)

  /** The request of a runner to split the bundle in flight. */
  datatype SplitPoints = SplitPoints(splits: seq<int64>, frac: Float32Bits)

  datatype Error =
    | NilUnits                                      // NewPlan: a unit is nil
    | NoRootUnits                                   // NewPlan: no unit is a root
    | HookFailed(reason: string)                    // a hook returned an error
    | HookPanicked(reason: string)                  // a hook panicked; the guard turned it into an error
    | InvalidStatus(plan: string, status: Status)   // Execute on a plan that is not Up
    | PlanFailed(plan: string, cause: Error)        // Down: the one tear-down error, wrapped
    | PlanFailedMultiple(plan: string, causes: seq<Error>)  // Down: two or more tear-down errors
    | SplitRejected(reason: string)                 // the data source could not split
    | SourceNotInitialized(request: SplitPoints)    // Split on a plan without a data source

  /** The result of one guarded hook call: nil, or the error (a recovered panic included). */
  datatype Outcome = Ok | Fail(err: Error)

  /** How the units behave during one Execute or Down call: what each guarded call returns. */
  type Env = Call -> Outcome

  /** The data source's progress report. */
  datatype ProgressSnapshot = ProgressSnapshot(id: string, name: string, count: int64)

  /** The user metrics the process-wide registry holds for one transform of one plan. */
  datatype UserMetrics = UserMetrics(counters: map<string, int64>)

  /** The process-wide metrics registry, queried by (plan id, transform id). */
  type Registry = (string, string) -> UserMetrics

  /** One entry of a metrics snapshot. */
  datatype TransformMetrics =
    | ProcessedElements(outputElementCounts: map<string, int64>)
    | User(user: UserMetrics)

  /** The data source's own split algorithm: from the candidate split points and the
      fraction, the committed split point or an error. */
  type SourceSplit = (seq<int64>, Float32Bits) -> (int64, Option<Error>)
}
