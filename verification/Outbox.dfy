/** The control plane as a state machine over single calls. Reconcile passes work
    from the rows they listed, however old; each step is one store or provider
    call, so a crash can fall between any two. API writes, outbox reaping, the
    pool loop and out-of-band changes interleave with every step. */
module Outbox {
  import opened Types
  import opened Keys
  import opened Reconcile
  import CS = ClusterStore

  /** A mutating provider call, in the order the provider received it. */
  datatype Call =
    | ApplyCall(key: string, id: Id, spec: ClusterSpec, generation: nat)
    | SuspendCall(id: Id)
    | TerminateCall(id: Id)
    | PostureCall
    | ApplyPoolCall(pool: string)
    | DeletePoolCall(pool: string)
    | ReapPoliciesCall(id: Id)

  /** Where a pass stands in its treatment of the row `c`. */
  datatype Pc =
    | Top
    | Seen(c: StoredCluster, seen: Option<Backing>)
    | Fenced(c: StoredCluster, seen: Option<Backing>)
    | Cleared(c: StoredCluster, seen: Option<Backing>)
    | Decided(c: StoredCluster, decision: Decision)
    | Granted(c: StoredCluster)
    | Opened(c: StoredCluster)
    | Postured(c: StoredCluster)
    | Answered(c: StoredCluster)
    | Acted(c: StoredCluster, action: Action, condition: Option<DriftCondition>)
    | Reobserved(c: StoredCluster, action: Action, condition: Option<DriftCondition>, final: Option<Backing>)
    | Recorded(c: StoredCluster, action: Action, condition: Option<DriftCondition>, final: Option<Backing>)
    | Conditioned(c: StoredCluster, action: Action, final: Option<Backing>)

  datatype Pass = Pass(todo: seq<StoredCluster>, now: nat, pc: Pc)

  /** `written` remembers which spec each (id, generation) was written with, and
      `stale` counts the passes refused for a conflicting intent; neither is
      read by any step. A pool pass holds the answer of its quarantine check. */
  datatype Plane = Plane(
    tables: CS.Tables,
    backing: map<Id, Backing>,
    calls: seq<Call>,
    granted: nat,
    passes: map<nat, Pass>,
    poolPasses: map<nat, bool>,
    written: map<(Id, nat), ClusterSpec>,
    stale: nat)

  const Empty := Plane(CS.EmptyTables, map[], [], 0, map[], map[], map[], 0)

  /** One call of a reconcile pass. `Abort` is any error return. An apply may
      land although it answers with an error. */
  datatype PassCall =
    | Abort
    | Skip
    | Observe
    | CheckQuarantine
    | RecordFenced
    | Resolve(queued: bool, ownedFields: string)
    | TakeToken(ok: bool)
    | Begin(now: nat)
    | Posture
    | ProviderApply(ok: bool, landed: bool, made: Backing)
    | Complete(response: string, now: nat)
    | ProviderTerminate(ok: bool, after: Option<Backing>)
    | ProviderSuspend(ok: bool, after: Option<Backing>)
    | Reobserve
    | Record
    | WriteCondition
    | WriteAttempt

  datatype PoolCall =
    | PoolCheck
    | PoolBegin(name: string, generation: nat, digest: string, fp: Fingerprint, now: nat)
    | PoolApply(name: string)
    | PoolComplete(name: string, generation: nat, digest: string, now: nat)
    | PoolDelete(name: string)
    | PoolDone

  /** `SweepPolicies` is the retention sweep reaping a removed cluster's network
      policies, which no step of it makes depend on the quarantine. */
  datatype Event =
    | Upsert(id: Id, spec: ClusterSpec, now: nat)
    | Flip(id: Id, desired: DesiredState, now: nat)
    | Remove(id: Id)
    | Quarantine(on: bool)
    | ReapIntents(appliedBefore: nat)
    | OutOfBand(id: Id, after: Option<Backing>)
    | SweepPolicies(id: Id)
    | List(p: nat, now: nat, order: seq<StoredCluster>)
    | Crash(p: nat)
    | Reconcile(p: nat, call: PassCall)
    | ReconcilePool(p: nat, pool: PoolCall)

  function Lookup(m: map<Id, Backing>, id: Id): Option<Backing> {
    if id in m then Some(m[id]) else None
  }

  function Put(m: map<Id, Backing>, id: Id, b: Option<Backing>): map<Id, Backing> {
    if b.None? then m - {id} else m[id := b.value]
  }

  /** Only an apply stamps a generation: any other change keeps the stamp or drops it. */
  predicate KeepsStamp(before: Option<Backing>, after: Option<Backing>) {
    after.None? || after.value.generation.None?
    || (before.Some? && before.value.generation == after.value.generation)
  }

  /** The rows a list returns: each stored row once, in any order. */
  predicate ListsAll(m: CS.Clusters, order: seq<StoredCluster>) {
    && (forall i | 0 <= i < |order| :: order[i].id in m && m[order[i].id] == order[i])
    && (forall id | id in m :: m[id].id == id && m[id] in order)
    && (forall i, j | 0 <= i < j < |order| :: order[i].id != order[j].id)
  }

  function IntentKey(c: StoredCluster): string {
    ClusterKey(c.id, c.generation)
  }

  // --- One call of a pass ---

  predicate CallEnabled(s: Plane, pass: Pass, call: PassCall) {
    match call
    case Abort => !pass.pc.Top?
    case Skip => pass.pc.Top? && pass.todo != [] && BackedOff(pass.todo[0], pass.now)
    case Observe => pass.pc.Top? && pass.todo != [] && !BackedOff(pass.todo[0], pass.now)
    case CheckQuarantine => pass.pc.Seen?
    case RecordFenced => pass.pc.Fenced?
    case Resolve(_, _) => pass.pc.Cleared?
    case TakeToken(_) => pass.pc.Decided? && pass.pc.decision.Apply?
    case Begin(_) => pass.pc.Granted?
    case Posture => pass.pc.Opened?
    case ProviderApply(ok, landed, made) =>
      pass.pc.Postured? && (ok ==> landed) && made.generation == Some(pass.pc.c.generation)
    case Complete(_, _) => pass.pc.Answered?
    case ProviderTerminate(_, after) =>
      pass.pc.Decided? && pass.pc.decision.Terminate? && KeepsStamp(Lookup(s.backing, pass.pc.c.id), after)
    case ProviderSuspend(_, after) =>
      pass.pc.Decided? && pass.pc.decision.Suspend? && KeepsStamp(Lookup(s.backing, pass.pc.c.id), after)
    case Reobserve => pass.pc.Acted? || (pass.pc.Decided? && (pass.pc.decision.Leave? || pass.pc.decision.Alarm?))
    case Record => pass.pc.Reobserved?
    case WriteCondition => pass.pc.Recorded?
    case WriteAttempt => pass.pc.Conditioned?
  }

  /** Whether the outbox refuses the pass's actuation. */
  predicate Refused(s: Plane, c: StoredCluster) {
    CS.BeginOutcome(s.tables.intents, IntentKey(c), SpecText(c.spec)).ParamMismatch?
  }

  /** Where the call leaves the pass. */
  function PassAfter(s: Plane, pass: Pass, call: PassCall): Pass
    requires CallEnabled(s, pass, call)
  {
    match call
    case Skip => pass.(todo := pass.todo[1..])
    case Observe => pass.(todo := pass.todo[1..], pc := Seen(pass.todo[0], Lookup(s.backing, pass.todo[0].id)))
    case _ => pass.(pc := PcAfter(s, pass, call))
  }

  function PcAfter(s: Plane, pass: Pass, call: PassCall): Pc
    requires CallEnabled(s, pass, call)
  {
    var pc := pass.pc;
    match call
    case CheckQuarantine => if s.tables.quarantined then Fenced(pc.c, pc.seen) else Cleared(pc.c, pc.seen)
    case Resolve(queued, ownedFields) => Decided(pc.c, Decide(pc.c, pc.seen, queued, ownedFields))
    case TakeToken(ok) => if ok then Granted(pc.c) else Top
    case Begin(_) => if Refused(s, pc.c) then Top else Opened(pc.c)
    case Posture => Postured(pc.c)
    case ProviderApply(ok, _, _) => if ok then Answered(pc.c) else Top
    case Complete(_, _) => Acted(pc.c, Applied, None)
    case ProviderTerminate(ok, _) => if ok then Acted(pc.c, TerminatedCluster, None) else Top
    case ProviderSuspend(ok, _) => if ok then Acted(pc.c, SuspendedCluster, None) else Top
    case Reobserve =>
      var final := Lookup(s.backing, pc.c.id);
      if pc.Acted? then Reobserved(pc.c, pc.action, pc.condition, final)
      else Reobserved(pc.c, if pc.decision.Alarm? then Drift else NoOp, ConditionFor(pc.decision), final)
    case Record => Recorded(pc.c, pc.action, pc.condition, pc.final)
    case WriteCondition => Conditioned(pc.c, pc.action, pc.final)
    case _ => Top
  }

  /** What the call writes to the cluster table. */
  function ClustersAfter(m: CS.Clusters, pass: Pass, call: PassCall): CS.Clusters {
    var pc := pass.pc;
    if call.RecordFenced? && pc.Fenced? then
      CS.RecordObservation(m, pc.c.id, StateOf(pc.seen), GenerationOf(pc.seen))
    else if call.Record? && pc.Reobserved? then
      CS.RecordObservation(m, pc.c.id, StateOf(pc.final), GenerationOf(pc.final))
    else if call.WriteCondition? && pc.Recorded? && pc.condition != pc.c.condition then
      CS.SetCondition(m, pc.c.id, pc.condition)
    else if call.WriteAttempt? && pc.Conditioned? then
      var attempt := AttemptAfter(pc.c, pc.action, StateOf(pc.final), pass.now);
      if attempt.None? then m else CS.RecordAttempt(m, pc.c.id, attempt.value.0, attempt.value.1)
    else m
  }

  /** What the call writes to the outbox. */
  function IntentsAfter(m: CS.Intents, pc: Pc, call: PassCall): CS.Intents {
    if pc.Top? then m
    else match call
      case Begin(now) => CS.BeginIntent(m, IntentKey(pc.c), SpecText(pc.c.spec), now)
      case Complete(response, now) => CS.CompleteIntent(m, IntentKey(pc.c), response, now)
      case _ => m
  }

  /** What the call does to the provider's clusters. */
  function BackingAfter(m: map<Id, Backing>, pc: Pc, call: PassCall): map<Id, Backing> {
    if pc.Top? then m
    else match call
      case ProviderApply(_, landed, made) => if landed then m[pc.c.id := made] else m
      case ProviderTerminate(_, after) => Put(m, pc.c.id, after)
      case ProviderSuspend(_, after) => Put(m, pc.c.id, after)
      case _ => m
  }

  /** The mutating calls it hands to the provider. */
  function Issued(pc: Pc, call: PassCall): seq<Call> {
    if pc.Top? then []
    else match call
      case Posture => [PostureCall]
      case ProviderApply(_, _, _) => [ApplyCall(IntentKey(pc.c), pc.c.id, pc.c.spec, pc.c.generation)]
      case ProviderTerminate(_, _) => [TerminateCall(pc.c.id)]
      case ProviderSuspend(_, _) => [SuspendCall(pc.c.id)]
      case _ => []
  }

  function AfterCall(s: Plane, p: nat, call: PassCall): Plane
    requires p in s.passes && CallEnabled(s, s.passes[p], call)
  {
    var pass := s.passes[p];
    Plane(
      s.tables.(clusters := ClustersAfter(s.tables.clusters, pass, call),
                intents := IntentsAfter(s.tables.intents, pass.pc, call)),
      BackingAfter(s.backing, pass.pc, call),
      s.calls + Issued(pass.pc, call),
      s.granted + if call == TakeToken(true) then 1 else 0,
      s.passes[p := PassAfter(s, pass, call)],
      s.poolPasses,
      s.written,
      s.stale + if call.Begin? && Refused(s, pass.pc.c) then 1 else 0)
  }

  // --- One call of a pool pass ---

  predicate PoolCallEnabled(s: Plane, p: nat, call: PoolCall) {
    match call
    case PoolCheck => p !in s.poolPasses
    case PoolBegin(_, _, digest, _, _) => p in s.poolPasses && s.poolPasses[p] && '/' !in digest
    case PoolComplete(_, _, digest, _) => p in s.poolPasses && s.poolPasses[p] && '/' !in digest
    case PoolApply(_) => p in s.poolPasses && s.poolPasses[p]
    case PoolDelete(_) => p in s.poolPasses && s.poolPasses[p]
    case PoolDone => p in s.poolPasses
  }

  function AfterPoolCall(s: Plane, p: nat, call: PoolCall): Plane {
    match call
    case PoolCheck => s.(poolPasses := s.poolPasses[p := !s.tables.quarantined])
    case PoolBegin(name, g, digest, fp, now) =>
      WithIntents(s, CS.BeginIntent(s.tables.intents, PoolKey(name, g, digest), fp, now))
    case PoolApply(name) => s.(calls := s.calls + [ApplyPoolCall(name)])
    case PoolComplete(name, g, digest, now) =>
      WithIntents(s, CS.CompleteIntent(s.tables.intents, PoolKey(name, g, digest), "{}", now))
    case PoolDelete(name) => s.(calls := s.calls + [DeletePoolCall(name)])
    case PoolDone => s.(poolPasses := s.poolPasses - {p})
  }

  // --- Runs ---

  predicate Enabled(s: Plane, e: Event) {
    match e
    case OutOfBand(id, after) => KeepsStamp(Lookup(s.backing, id), after)
    case List(p, _, order) => p !in s.passes && ListsAll(s.tables.clusters, order)
    case Crash(p) => p in s.passes
    case Reconcile(p, call) => p in s.passes && CallEnabled(s, s.passes[p], call)
    case ReconcilePool(p, call) => PoolCallEnabled(s, p, call)
    case _ => true
  }

  function WithClusters(s: Plane, m: CS.Clusters): Plane {
    s.(tables := s.tables.(clusters := m))
  }

  function WithIntents(s: Plane, m: CS.Intents): Plane {
    s.(tables := s.tables.(intents := m))
  }

  function Next(s: Plane, e: Event): Plane
    requires Enabled(s, e)
  {
    match e
    case Upsert(id, spec, now) =>
      WithClusters(s, CS.Upsert(s.tables.clusters, id, spec, now))
      .(written := s.written[(id, CS.NextGeneration(s.tables.clusters, id, spec)) := spec])
    case Flip(id, desired, now) => WithClusters(s, CS.SetDesired(s.tables.clusters, id, desired, now))
    case Remove(id) => WithClusters(s, CS.Remove(s.tables.clusters, id))
    case Quarantine(on) => s.(tables := s.tables.(quarantined := on))
    case ReapIntents(before) => WithIntents(s, CS.ReapIntents(s.tables.intents, before))
    case OutOfBand(id, after) => s.(backing := Put(s.backing, id, after))
    case SweepPolicies(id) => s.(calls := s.calls + [ReapPoliciesCall(id)])
    case List(p, now, order) => s.(passes := s.passes[p := Pass(order, now, Top)])
    case Crash(p) => s.(passes := s.passes - {p})
    case Reconcile(p, call) => AfterCall(s, p, call)
    case ReconcilePool(p, call) => AfterPoolCall(s, p, call)
  }

  /** An event that cannot happen leaves the plane as it is, so every event
      sequence is a run. */
  function Do(s: Plane, e: Event): Plane {
    if Enabled(s, e) then Next(s, e) else s
  }

  function Exec(s: Plane, es: seq<Event>): Plane {
    if es == [] then s else Do(Exec(s, es[..|es| - 1]), es[|es| - 1])
  }

  lemma {:induction false} ExecAppend(s: Plane, a: seq<Event>, b: seq<Event>)
    ensures Exec(s, a + b) == Exec(Exec(s, a), b)
  {
    if b == [] {
      assert a + b == a;
    } else {
      assert (a + b)[..|a + b| - 1] == a + b[..|b| - 1];
      ExecAppend(s, a, b[..|b| - 1]);
    }
  }

  lemma {:induction false} ExecTake(s: Plane, es: seq<Event>, k: nat)
    requires k < |es|
    ensures Exec(s, es[..k + 1]) == Do(Exec(s, es[..k]), es[k])
  {
    assert es[..k + 1][..k] == es[..k];
  }
}
