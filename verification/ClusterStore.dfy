/** The desired-state store's cluster and outbox tables: what every operation
    does to the tables, the in-memory store that does it, and what whole
    operation histories guarantee. */
module ClusterStore {
  import opened Types

  type Clusters = map<Id, StoredCluster>
  type Intents = map<string, IntentRecord>

  datatype Tables = Tables(clusters: Clusters, intents: Intents, quarantined: bool)

  const EmptyTables := Tables(map[], map[], false)

  // --- Clusters ---

  function NextGeneration(m: Clusters, id: Id, spec: ClusterSpec): nat {
    if id !in m then 1
    else if SpecChanged(m[id].spec, spec) then m[id].generation + 1
    else m[id].generation
  }

  /** Create or update: the row keeps everything but spec and generation. */
  function Upsert(m: Clusters, id: Id, spec: ClusterSpec, now: nat): Clusters {
    var generation := NextGeneration(m, id, spec);
    m[id := if id in m then m[id].(id := id, spec := spec, generation := generation)
            else StoredCluster(id, spec, generation, WantRunning, None, 0, None, 0, 0, now, None)]
  }

  /** The row after a flip of desired state: entering Terminated stamps the
      clock once, leaving it clears the stamp. */
  function Flip(c: StoredCluster, desired: DesiredState, now: nat): StoredCluster {
    c.(desired := desired,
       terminatedAt := if !desired.WantTerminated? then None
                       else if c.terminatedAt.Some? then c.terminatedAt
                       else Some(now))
  }

  function SetDesired(m: Clusters, id: Id, desired: DesiredState, now: nat): Clusters {
    if id in m then m[id := Flip(m[id], desired, now)] else m
  }

  function Remove(m: Clusters, id: Id): Clusters {
    m - {id}
  }

  function Max(a: nat, b: nat): nat {
    if a < b then b else a
  }

  function RecordObservation(m: Clusters, id: Id, state: Option<ClusterState>, generation: nat): Clusters {
    if id in m then
      m[id := m[id].(observedState := state, observedGeneration := Max(m[id].observedGeneration, generation))]
    else m
  }

  function SetCondition(m: Clusters, id: Id, condition: Option<DriftCondition>): Clusters {
    if id in m then m[id := m[id].(condition := condition)] else m
  }

  function RecordAttempt(m: Clusters, id: Id, failures: nat, nextAttemptAt: nat): Clusters {
    if id in m then m[id := m[id].(failureCount := failures, nextAttemptAt := nextAttemptAt)] else m
  }

  // --- Outbox ---

  function BeginOutcome(m: Intents, key: string, fp: Fingerprint): IntentOutcome {
    if key !in m then Proceed(false)
    else if m[key].paramsFingerprint != fp then ParamMismatch
    else Proceed(true)
  }

  function BeginIntent(m: Intents, key: string, fp: Fingerprint, now: nat): Intents {
    if key in m then m else m[key := IntentRecord(fp, PendingIntent, None, now, None)]
  }

  function CompleteIntent(m: Intents, key: string, response: string, now: nat): Intents {
    if key in m then
      m[key := m[key].(status := AppliedIntent, response := Some(response), completedAt := Some(now))]
    else m
  }

  predicate Reapable(r: IntentRecord, appliedBefore: nat) {
    r.status.AppliedIntent? && r.completedAt.Some? && r.completedAt.value < appliedBefore
  }

  function ReapIntents(m: Intents, appliedBefore: nat): Intents {
    map k | k in m && !Reapable(m[k], appliedBefore) :: m[k]
  }

  /** The in-memory store: hash maps updated in place under a lock, so each
      method is one atomic step. `now` is the clock reading the method takes. */
  class InMemoryStore {
    var clusters: Clusters
    var intents: Intents
    var quarantined: bool

    constructor ()
      ensures Contents() == EmptyTables
    {
      clusters, intents, quarantined := map[], map[], false;
    }

    function Contents(): Tables
      reads this
    {
      Tables(clusters, intents, quarantined)
    }

    /** Rebuilds the whole record, copying what the old row held. */
    method UpsertDesired(id: Id, spec: ClusterSpec, now: nat) returns (generation: nat)
      modifies `clusters
      ensures clusters == Upsert(old(clusters), id, spec, now)
      ensures generation == clusters[id].generation
    {
      generation := 1;
      var desired, observedState, observedGeneration := WantRunning, None, 0;
      var condition, failureCount, nextAttemptAt := None, 0, 0;
      var createdAt, terminatedAt := now, None;
      if id in clusters {
        var existing := clusters[id];
        generation := if SpecChanged(existing.spec, spec) then existing.generation + 1 else existing.generation;
        desired, observedState := existing.desired, existing.observedState;
        observedGeneration, condition := existing.observedGeneration, existing.condition;
        failureCount, nextAttemptAt := existing.failureCount, existing.nextAttemptAt;
        createdAt, terminatedAt := existing.createdAt, existing.terminatedAt;
      }
      var record := StoredCluster(id, spec, generation, desired, observedState, observedGeneration,
                                  condition, failureCount, nextAttemptAt, createdAt, terminatedAt);
      clusters := clusters[id := record];
    }

    method Get(id: Id) returns (c: Option<StoredCluster>)
      ensures c.Some? <==> id in clusters
      ensures c.Some? ==> c.value == clusters[id]
    {
      c := if id in clusters then Some(clusters[id]) else None;
    }

    /** False is the "no such cluster" error. */
    method FlipDesired(id: Id, desired: DesiredState, now: nat) returns (ok: bool)
      modifies `clusters
      ensures ok <==> id in old(clusters)
      ensures clusters == SetDesired(old(clusters), id, desired, now)
    {
      if id !in clusters {
        return false;
      }
      var c := clusters[id];
      c := c.(desired := desired);
      match desired {
        case WantTerminated =>
          if c.terminatedAt.None? {
            c := c.(terminatedAt := Some(now));
          }
        case _ => c := c.(terminatedAt := None);
      }
      clusters := clusters[id := c];
      return true;
    }

    method RemoveCluster(id: Id) returns (removed: bool)
      modifies `clusters
      ensures removed <==> id in old(clusters)
      ensures clusters == Remove(old(clusters), id)
    {
      removed := id in clusters;
      clusters := map k | k in clusters && k != id :: clusters[k];
    }

    method Observe(id: Id, state: Option<ClusterState>, generation: nat)
      modifies `clusters
      ensures clusters == RecordObservation(old(clusters), id, state, generation)
    {
      if id in clusters {
        var c := clusters[id].(observedState := state);
        if c.observedGeneration < generation {
          c := c.(observedGeneration := generation);
        }
        clusters := clusters[id := c];
      }
    }

    method Attempt(id: Id, failures: nat, nextAttemptAt: nat)
      modifies `clusters
      ensures clusters == RecordAttempt(old(clusters), id, failures, nextAttemptAt)
    {
      if id in clusters {
        var c := clusters[id];
        clusters := clusters[id := c.(failureCount := failures, nextAttemptAt := nextAttemptAt)];
      }
    }

    method Condition(id: Id, condition: Option<DriftCondition>)
      modifies `clusters
      ensures clusters == SetCondition(old(clusters), id, condition)
    {
      if id in clusters {
        clusters := clusters[id := clusters[id].(condition := condition)];
      }
    }

    method OpenIntent(key: string, fp: Fingerprint, now: nat) returns (outcome: IntentOutcome)
      modifies `intents
      ensures outcome == BeginOutcome(old(intents), key, fp)
      ensures intents == BeginIntent(old(intents), key, fp, now)
    {
      if key in intents {
        if intents[key].paramsFingerprint != fp {
          return ParamMismatch;
        }
        return Proceed(true);
      }
      intents := intents[key := IntentRecord(fp, PendingIntent, None, now, None)];
      return Proceed(false);
    }

    method CloseIntent(key: string, response: string, now: nat)
      modifies `intents
      ensures intents == CompleteIntent(old(intents), key, response, now)
    {
      if key in intents {
        var rec := intents[key].(status := AppliedIntent);
        rec := rec.(response := Some(response));
        rec := rec.(completedAt := Some(now));
        intents := intents[key := rec];
      }
    }

    /** Returns how many rows went, as the source computes it: size before minus size after. */
    method SweepIntents(appliedBefore: nat) returns (removed: nat)
      modifies `intents
      ensures intents == ReapIntents(old(intents), appliedBefore)
      ensures removed == |set k | k in old(intents) && Reapable(old(intents)[k], appliedBefore)|
    {
      var before := |intents|;
      ghost var was := intents;
      intents := map k | k in intents && !Reapable(intents[k], appliedBefore) :: intents[k];
      ghost var gone := set k | k in was && Reapable(was[k], appliedBefore);
      assert was.Keys == intents.Keys + gone && intents.Keys !! gone;
      removed := before - |intents|;
    }
  }

  // --- Histories ---

  datatype Op =
    | UpsertOp(id: Id, spec: ClusterSpec, now: nat)
    | SetDesiredOp(id: Id, desired: DesiredState, now: nat)
    | RemoveOp(id: Id)
    | ObservationOp(id: Id, state: Option<ClusterState>, generation: nat)
    | ConditionOp(id: Id, condition: Option<DriftCondition>)
    | AttemptOp(id: Id, failures: nat, nextAttemptAt: nat)
    | BeginOp(key: string, fp: Fingerprint, now: nat)
    | CompleteOp(key: string, response: string, now: nat)
    | ReapOp(appliedBefore: nat)
    | QuarantineOp(on: bool)

  datatype Reply = Done | Generation(g: nat) | Found(yes: bool) | Outcome(o: IntentOutcome) | Count(n: nat)

  function Step(t: Tables, op: Op): Tables {
    match op
    case UpsertOp(id, spec, now) => t.(clusters := Upsert(t.clusters, id, spec, now))
    case SetDesiredOp(id, d, now) => t.(clusters := SetDesired(t.clusters, id, d, now))
    case RemoveOp(id) => t.(clusters := Remove(t.clusters, id))
    case ObservationOp(id, st, g) => t.(clusters := RecordObservation(t.clusters, id, st, g))
    case ConditionOp(id, c) => t.(clusters := SetCondition(t.clusters, id, c))
    case AttemptOp(id, f, n) => t.(clusters := RecordAttempt(t.clusters, id, f, n))
    case BeginOp(key, fp, now) => t.(intents := BeginIntent(t.intents, key, fp, now))
    case CompleteOp(key, r, now) => t.(intents := CompleteIntent(t.intents, key, r, now))
    case ReapOp(cutoff) => t.(intents := ReapIntents(t.intents, cutoff))
    case QuarantineOp(on) => t.(quarantined := on)
  }

  ghost function Answer(t: Tables, op: Op): Reply {
    match op
    case UpsertOp(id, spec, now) => Generation(NextGeneration(t.clusters, id, spec))
    case SetDesiredOp(id, _, _) => Found(id in t.clusters)
    case RemoveOp(id) => Found(id in t.clusters)
    case BeginOp(key, fp, _) => Outcome(BeginOutcome(t.intents, key, fp))
    case ReapOp(cutoff) => Count(|set k | k in t.intents && Reapable(t.intents[k], cutoff)|)
    case _ => Done
  }

  function Run(t: Tables, ops: seq<Op>): Tables {
    if ops == [] then t else Step(Run(t, ops[..|ops| - 1]), ops[|ops| - 1])
  }

  /** What a history says about one id, read off the operations alone: the last
      spec written since the row was created, how often it changed, and the
      newest generation ever reported for it. */
  datatype Life = Life(spec: ClusterSpec, changes: nat, newestReported: nat)

  function LifeOf(ops: seq<Op>, id: Id): Option<Life> {
    if ops == [] then None
    else
      var before := LifeOf(ops[..|ops| - 1], id);
      match ops[|ops| - 1]
      case UpsertOp(id', spec, _) =>
        if id' != id then before
        else if before.None? then Some(Life(spec, 0, 0))
        else Some(before.value.(
                    spec := spec,
                    changes := before.value.changes + if SpecChanged(before.value.spec, spec) then 1 else 0))
      case RemoveOp(id') => if id' == id then None else before
      case ObservationOp(id', _, g) =>
        if id' != id || before.None? then before
        else Some(before.value.(newestReported := Max(before.value.newestReported, g)))
      case _ => before
  }

  /** After any history the stored generation is one plus the number of spec
      changes since the row was created, the stored spec is the last one
      written, and the observed generation is the newest ever reported. */
  lemma {:induction false} GenerationCountsChanges(ops: seq<Op>, id: Id)
    ensures var t := Run(EmptyTables, ops);
      var life := LifeOf(ops, id);
      && (id in t.clusters <==> life.Some?)
      && (life.Some? ==>
           && t.clusters[id].id == id
           && t.clusters[id].spec == life.value.spec
           && t.clusters[id].generation == 1 + life.value.changes
           && t.clusters[id].observedGeneration == life.value.newestReported)
  {
    if ops != [] {
      GenerationCountsChanges(ops[..|ops| - 1], id);
    }
  }

  /** What a history says about the rest of a row: when it was created, and the last
      desired state, report, condition and attempt written since. */
  datatype Writes = Writes(
    createdAt: nat, desired: DesiredState, observed: Option<ClusterState>, condition: Option<DriftCondition>,
    failures: nat, nextAttemptAt: nat)

  function WritesOf(ops: seq<Op>, id: Id): Option<Writes> {
    if ops == [] then None
    else
      var before, op := WritesOf(ops[..|ops| - 1], id), ops[|ops| - 1];
      if op == RemoveOp(id) then None
      else if before.None? then
        if op.UpsertOp? && op.id == id then Some(Writes(op.now, WantRunning, None, None, 0, 0)) else None
      else match op
        case SetDesiredOp(id', d, _) => if id' == id then Some(before.value.(desired := d)) else before
        case ObservationOp(id', st, _) => if id' == id then Some(before.value.(observed := st)) else before
        case ConditionOp(id', c) => if id' == id then Some(before.value.(condition := c)) else before
        case AttemptOp(id', f, n) =>
          if id' == id then Some(before.value.(failures := f, nextAttemptAt := n)) else before
        case _ => before
  }

  /** After any history a row carries the clock of the write that created it, and in
      each column what was last written there since. */
  lemma {:induction false} RowTellsHistory(ops: seq<Op>, id: Id)
    ensures var t, writes := Run(EmptyTables, ops), WritesOf(ops, id);
      && (id in t.clusters <==> writes.Some?)
      && (writes.Some? ==>
           var c := t.clusters[id];
           writes.value
           == Writes(c.createdAt, c.desired, c.observedState, c.condition, c.failureCount, c.nextAttemptAt))
  {
    if ops != [] {
      RowTellsHistory(ops[..|ops| - 1], id);
    }
  }

  /** What a history says about one key: with which fingerprint and when its intent
      was opened, and the response and time of its last completion. */
  datatype Filing = Filing(fp: Fingerprint, openedAt: nat, completion: Option<(string, nat)>)

  function FilingOf(ops: seq<Op>, key: string): Option<Filing> {
    if ops == [] then None
    else
      var before := FilingOf(ops[..|ops| - 1], key);
      match ops[|ops| - 1]
      case BeginOp(key', fp, now) => if key' == key && before.None? then Some(Filing(fp, now, None)) else before
      case CompleteOp(key', response, now) =>
        if key' == key && before.Some? then Some(before.value.(completion := Some((response, now)))) else before
      case ReapOp(cutoff) =>
        if before.Some? && before.value.completion.Some? && before.value.completion.value.1 < cutoff then None
        else before
      case _ => before
  }

  /** After any history an intent on file has the fingerprint and the clock of the
      begin that opened it; it is Applied exactly when it was completed, with the
      response and the clock of the last completion, and gone exactly when it was
      completed before the cutoff of a later reap. A begin answers by that. */
  lemma {:induction false} IntentTellsHistory(ops: seq<Op>, key: string)
    ensures var m, filing := Run(EmptyTables, ops).intents, FilingOf(ops, key);
      && (key in m <==> filing.Some?)
      && (filing.Some? ==>
           && m[key].paramsFingerprint == filing.value.fp && m[key].createdAt == filing.value.openedAt
           && if filing.value.completion.None?
              then m[key].status == PendingIntent && m[key].response == None && m[key].completedAt == None
              else m[key].status == AppliedIntent && m[key].response == Some(filing.value.completion.value.0)
                   && m[key].completedAt == Some(filing.value.completion.value.1))
      && forall fp :: BeginOutcome(m, key, fp)
           == if filing.None? then Proceed(false) else if filing.value.fp == fp then Proceed(true) else ParamMismatch
  {
    if ops != [] {
      IntentTellsHistory(ops[..|ops| - 1], key);
    }
  }

  /** Neither the generation nor the observed generation of a row ever falls,
      however long the history, as long as the row is not removed. */
  lemma {:induction false} GenerationsNeverFall(t: Tables, ops: seq<Op>, id: Id)
    requires id in t.clusters && RemoveOp(id) !in ops
    ensures var t' := Run(t, ops);
      && id in t'.clusters
      && t.clusters[id].generation <= t'.clusters[id].generation
      && t.clusters[id].observedGeneration <= t'.clusters[id].observedGeneration
      && t.clusters[id].createdAt == t'.clusters[id].createdAt
  {
    if ops != [] {
      GenerationsNeverFall(t, ops[..|ops| - 1], id);
      assert ops[|ops| - 1] in ops;
    }
  }

  /** An outbox row's fingerprint never changes, and only a completed row is
      ever reaped: a key that leaves the table had been completed. */
  lemma {:induction false} PendingIntentsStay(t: Tables, ops: seq<Op>, key: string)
    requires key in t.intents && t.intents[key].status.PendingIntent?
    requires forall op | op in ops && op.CompleteOp? :: op.key != key
    ensures var t' := Run(t, ops); key in t'.intents && t'.intents[key] == t.intents[key]
  {
    if ops != [] {
      PendingIntentsStay(t, ops[..|ops| - 1], key);
      assert ops[|ops| - 1] in ops;
    }
  }
}
