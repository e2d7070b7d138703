/**
 Conditions and phases of the Workbenches status (internal/status/phase.go and the
 apimachinery condition helpers the reconciler uses).
 */
module Status {

  datatype Truth = True | False | Unknown

  /** A status condition; messages are not part of the model. */
  datatype Condition = Condition(status: Truth, reason: string, observedGeneration: int)

  /** Conditions are a list keyed by type, so a map from type to condition. */
  type Conditions = map<string, Condition>

  /** meta.IsStatusConditionTrue */
  predicate IsTrue(conditions: Conditions, kind: string) {
    kind in conditions && conditions[kind].status.True?
  }

  const UNKNOWN_REASON: string := "Unknown"

  /** sanitizeConditions: give every condition a reason. */
  function Sanitize(conditions: Conditions): (r: Conditions)
    ensures r.Keys == conditions.Keys
    ensures forall k :: k in r ==> r[k].reason != ""
    ensures forall k :: k in r && conditions[k].reason != "" ==> r[k] == conditions[k]
    ensures forall k :: k in r ==>
      r[k].status == conditions[k].status && r[k].observedGeneration == conditions[k].observedGeneration
  {
    map k | k in conditions ::
      if conditions[k].reason == "" then conditions[k].(reason := UNKNOWN_REASON) else conditions[k]
  }

  datatype Phase = NoPhase | Pending | Initializing | Ready | Upgrading | Degraded | Failed

  datatype PhaseContext = PhaseContext(
    previousObservedGeneration: int, generation: int, wasReady: bool, ready: bool, degraded: bool,
    failed: bool, removed: bool, provisioningSucceeded: bool)

  /** ComputePhase: Failed, Ready, Upgrading, Degraded, Pending, Initializing, in that order. */
  function ComputePhase(ctx: PhaseContext): Phase {
    if ctx.failed || ctx.removed then Failed
    else if ctx.ready then Ready
    else if ctx.wasReady && ctx.generation > ctx.previousObservedGeneration
      && ctx.previousObservedGeneration > 0 then Upgrading
    else if ctx.degraded then Degraded
    else if ctx.previousObservedGeneration == 0 && !ctx.provisioningSucceeded then Pending
    else Initializing
  }
}
