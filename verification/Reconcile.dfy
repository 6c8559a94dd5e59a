/** The reconcile engine's decisions for one cluster: what to do given what was
    observed, and how long to wait after an attempt that made no progress. */
module Reconcile {
  import opened Types

  /** What the provider reports for a live cluster: its state, the generation
      stamped on it and the fingerprint of the fields Mobula owns. */
  datatype Backing = Backing(state: ClusterState, generation: Option<nat>, ownedFields: Option<string>)

  datatype Action = NoOp | Applied | TerminatedCluster | SuspendedCluster | Drift | Backoff

  datatype Decision =
    | Leave                               // desired and observed agree
    | Alarm(condition: DriftCondition)    // diverged in a way re-applying cannot fix
    | Apply
    | Terminate
    | Suspend

  function StateOf(o: Option<Backing>): Option<ClusterState> {
    if o.None? then None else Some(o.value.state)
  }

  function GenerationOf(o: Option<Backing>): nat {
    if o.Some? && o.value.generation.Some? then o.value.generation.value else 0
  }

  predicate NeedsApply(observed: Option<ClusterState>, observedGeneration: nat, desiredGeneration: nat, queued: bool) {
    match observed
    case None => true
    case Some(Terminated) => true
    case Some(Terminating) => true
    case Some(Suspended) => !queued
    case Some(_) => observedGeneration < desiredGeneration
  }

  /** `ownedFields` is the fingerprint of the desired spec's owned fields. */
  function Decide(c: StoredCluster, o: Option<Backing>, queued: bool, ownedFields: string): Decision {
    match c.desired
    case WantRunning =>
      if StateOf(o) == Some(Degraded) then Alarm(DegradedCondition)
      else if NeedsApply(StateOf(o), GenerationOf(o), c.generation, queued) then Apply
      else if o.Some? && o.value.ownedFields.Some? && o.value.ownedFields.value != ownedFields then Alarm(SpecDrift)
      else Leave
    case WantTerminated =>
      if o.Some? && o.value.state != Terminated then Terminate else Leave
    case WantSuspended =>
      if queued then Leave
      else if o.Some? && o.value.state !in {Suspended, Terminated, Terminating} then Suspend
      else Leave
  }

  function ConditionFor(d: Decision): Option<DriftCondition> {
    if d.Alarm? then Some(d.condition) else None
  }

  // --- Backoff ---

  const BACKOFF_BASE_SECS: nat := 5
  const BACKOFF_CEIL_SECS: nat := 300

  function Min(a: nat, b: nat): nat {
    if a < b then a else b
  }

  /** The shift is capped at 20 before the multiplication. */
  function BackoffSecs(failureCount: nat): nat {
    var shift := Min(SatSub(failureCount, 1), 20);
    var product := BACKOFF_BASE_SECS * Pow2(shift);
    Min(if product > U64_MAX then U64_MAX else product, BACKOFF_CEIL_SECS)
  }

  /** Whether the attempt made progress; None when the pass does not say. */
  function Progressed(c: StoredCluster, action: Action, final: Option<ClusterState>): Option<bool> {
    match action
    case Applied => Some(!(final.None? || final.value == Terminated || final.value == Terminating))
    case NoOp => if c.desired.WantRunning? then Some(true) else None
    case _ => None
  }

  /** The backoff columns to write after a pass, or None to leave them alone. */
  function AttemptAfter(c: StoredCluster, action: Action, final: Option<ClusterState>, now: nat): Option<(nat, nat)> {
    match Progressed(c, action, final)
    case Some(false) =>
      var failures := if c.failureCount >= U32_MAX then U32_MAX else c.failureCount + 1;
      Some((failures, SatAdd(now, BackoffSecs(failures))))
    case Some(true) => if c.failureCount != 0 || c.nextAttemptAt != 0 then Some((0, 0)) else None
    case None => None
  }

  predicate BackedOff(c: StoredCluster, now: nat) {
    c.desired.WantRunning? && now < c.nextAttemptAt
  }
}
