/** Fencing over whole runs of the outbox machine: a key always means the same
    actuation, however passes, crashes and writers interleave. */
module Fencing {
  import opened Types
  import opened Keys
  import opened Reconcile
  import opened Outbox
  import CS = ClusterStore

  type Written = map<(Id, nat), ClusterSpec>

  /** The engine and owner an id is created with, for runs that never change them. */
  type Identity = Id -> (Engine, Option<string>)

  predicate Keeps(e: Event, who: Identity) {
    && !e.Remove?
    && (e.Upsert? ==> (e.spec.engine, e.spec.owner) == who(e.id))
  }

  predicate Called(calls: seq<Call>, key: string) {
    exists i | 0 <= i < |calls| :: calls[i].ApplyCall? && calls[i].key == key
  }

  /** The spec the row carries is the one its generation was written with. */
  predicate Known(w: Written, c: StoredCluster) {
    (c.id, c.generation) in w && w[(c.id, c.generation)] == c.spec
  }

  predicate RowsKnown(m: CS.Clusters, w: Written, who: Identity) {
    forall id | id in m ::
      m[id].id == id && Known(w, m[id]) && (m[id].spec.engine, m[id].spec.owner) == who(id)
  }

  predicate NothingNewer(m: CS.Clusters, w: Written) {
    forall k | k in w :: k.0 in m && k.1 <= m[k.0].generation
  }

  predicate PassKnown(w: Written, calls: seq<Call>, pass: Pass) {
    && (forall c | c in pass.todo :: Known(w, c))
    && (!pass.pc.Top? ==> Known(w, pass.pc.c))
    && (pass.pc.Answered? ==> Called(calls, IntentKey(pass.pc.c)))
  }

  predicate PassesKnown(s: Plane) {
    forall p | p in s.passes :: PassKnown(s.written, s.calls, s.passes[p])
  }

  ghost predicate IntentsMatch(m: CS.Intents, w: Written, calls: seq<Call>) {
    forall id, g | ClusterKey(id, g) in m :: IntentMatches(m[ClusterKey(id, g)], id, g, w, calls)
  }

  predicate IntentMatches(r: IntentRecord, id: Id, g: nat, w: Written, calls: seq<Call>) {
    && (id, g) in w && r.paramsFingerprint == SpecText(w[(id, g)])
    && (r.status.AppliedIntent? ==> Called(calls, ClusterKey(id, g)))
  }

  predicate CallKnown(c: Call, w: Written) {
    c.ApplyCall? ==>
      && c.key == ClusterKey(c.id, c.generation)
      && (c.id, c.generation) in w && w[(c.id, c.generation)] == c.spec
  }

  predicate CallsKnown(calls: seq<Call>, w: Written) {
    forall i | 0 <= i < |calls| :: CallKnown(calls[i], w)
  }

  ghost predicate Inv(s: Plane, who: Identity) {
    && RowsKnown(s.tables.clusters, s.written, who)
    && NothingNewer(s.tables.clusters, s.written)
    && PassesKnown(s)
    && IntentsMatch(s.tables.intents, s.written, s.calls)
    && CallsKnown(s.calls, s.written)
    && s.stale == 0
  }

  /** Table writes that leave every row's id, spec and generation as they were. */
  predicate SameSpecs(m: CS.Clusters, m': CS.Clusters) {
    m'.Keys == m.Keys && forall id | id in m ::
      m'[id].id == m[id].id && m'[id].spec == m[id].spec && m'[id].generation == m[id].generation
  }

  lemma StatusWritesKeepInv(s: Plane, m: CS.Clusters, who: Identity)
    requires Inv(s, who) && SameSpecs(s.tables.clusters, m)
    ensures Inv(WithClusters(s, m), who)
  {
    assert forall id | id in m :: Known(s.written, s.tables.clusters[id]) ==> Known(s.written, m[id]);
  }

  lemma MoveKeepsInv(s: Plane, p: nat, pass: Pass, who: Identity)
    requires Inv(s, who) && PassKnown(s.written, s.calls, pass)
    ensures Inv(s.(passes := s.passes[p := pass]), who)
  {}

  lemma MoreCalls(s: Plane, call: Call, who: Identity)
    requires Inv(s, who) && CallKnown(call, s.written)
    ensures Inv(s.(calls := s.calls + [call]), who)
  {
    var calls' := s.calls + [call];
    forall key | Called(s.calls, key) ensures Called(calls', key) {
      var i :| 0 <= i < |s.calls| && s.calls[i].ApplyCall? && s.calls[i].key == key;
      assert calls'[i] == s.calls[i];
    }
    forall id, g | ClusterKey(id, g) in s.tables.intents
      ensures IntentMatches(s.tables.intents[ClusterKey(id, g)], id, g, s.written, calls')
    {
      assert IntentMatches(s.tables.intents[ClusterKey(id, g)], id, g, s.written, s.calls);
    }
    forall p | p in s.passes ensures PassKnown(s.written, calls', s.passes[p]) {
      assert PassKnown(s.written, s.calls, s.passes[p]);
    }
  }

  /** Writing down a new generation disturbs nothing known before. */
  lemma WrittenGrows(s: Plane, w: Written)
    requires PassesKnown(s) && IntentsMatch(s.tables.intents, s.written, s.calls) && CallsKnown(s.calls, s.written)
    requires forall k | k in s.written :: k in w && w[k] == s.written[k]
    ensures PassesKnown(s.(written := w)) && IntentsMatch(s.tables.intents, w, s.calls) && CallsKnown(s.calls, w)
  {
    forall p | p in s.passes ensures PassKnown(w, s.calls, s.passes[p]) {
      assert PassKnown(s.written, s.calls, s.passes[p]);
    }
    forall id, g | ClusterKey(id, g) in s.tables.intents
      ensures IntentMatches(s.tables.intents[ClusterKey(id, g)], id, g, w, s.calls)
    {
      assert IntentMatches(s.tables.intents[ClusterKey(id, g)], id, g, s.written, s.calls);
    }
    forall i | 0 <= i < |s.calls| ensures CallKnown(s.calls[i], w) {
      assert CallKnown(s.calls[i], s.written);
    }
  }

  /** A write either repeats the spec its generation already has or opens a generation never written. */
  lemma UpsertRepeatsOrOpens(m: CS.Clusters, w: Written, id: Id, spec: ClusterSpec, who: Identity)
    requires RowsKnown(m, w, who) && NothingNewer(m, w) && (spec.engine, spec.owner) == who(id)
    ensures var k := (id, CS.NextGeneration(m, id, spec)); k in w ==> w[k] == spec
  {
    if id in m {
      assert Known(w, m[id]);
      UnchangedSpecFingerprint(m[id].spec, spec);
    }
  }

  lemma UpsertKeepsRows(m: CS.Clusters, w: Written, id: Id, spec: ClusterSpec, now: nat, who: Identity)
    requires RowsKnown(m, w, who) && NothingNewer(m, w) && (spec.engine, spec.owner) == who(id)
    ensures var w' := w[(id, CS.NextGeneration(m, id, spec)) := spec];
      && RowsKnown(CS.Upsert(m, id, spec, now), w', who) && NothingNewer(CS.Upsert(m, id, spec, now), w')
      && forall k | k in w :: w'[k] == w[k]
  {
    UpsertRepeatsOrOpens(m, w, id, spec, who);
    var k := (id, CS.NextGeneration(m, id, spec));
    var w', m' := w[k := spec], CS.Upsert(m, id, spec, now);
    forall id' | id' in m' && id' != id ensures Known(w', m'[id']) {
      assert Known(w, m[id']);
    }
  }

  lemma UpsertKeepsInv(s: Plane, e: Event, who: Identity)
    requires Inv(s, who) && e.Upsert? && Keeps(e, who)
    ensures Inv(Next(s, e), who)
  {
    UpsertKeepsRows(s.tables.clusters, s.written, e.id, e.spec, e.now, who);
    WrittenGrows(s, Next(s, e).written);
  }

  /** A row written under a cluster key matches it; one under another key meets no cluster key. */
  lemma IntentWriteKeepsInv(s: Plane, key: string, r: IntentRecord, who: Identity)
    requires Inv(s, who)
    requires forall id, g | ClusterKey(id, g) == key :: IntentMatches(r, id, g, s.written, s.calls)
    ensures Inv(WithIntents(s, s.tables.intents[key := r]), who)
  {
    var m' := s.tables.intents[key := r];
    forall id, g | ClusterKey(id, g) in m'
      ensures IntentMatches(m'[ClusterKey(id, g)], id, g, s.written, s.calls)
    {
      if ClusterKey(id, g) != key {
        assert IntentMatches(s.tables.intents[ClusterKey(id, g)], id, g, s.written, s.calls);
      }
    }
  }

  /** The call leaves the pass with rows it had before; only an apply answers. */
  lemma PassStaysKnown(s: Plane, p: nat, call: PassCall)
    requires PassesKnown(s) && p in s.passes && CallEnabled(s, s.passes[p], call) && !call.ProviderApply?
    ensures PassKnown(s.written, s.calls, PassAfter(s, s.passes[p], call))
  {
    var pass, pass' := s.passes[p], PassAfter(s, s.passes[p], call);
    assert PassKnown(s.written, s.calls, pass);
    assert pass'.todo == pass.todo || (pass.todo != [] && pass'.todo == pass.todo[1..]);
    assert pass'.pc.Top? || (pass.todo != [] && pass'.pc.c == pass.todo[0])
      || (!pass.pc.Top? && pass'.pc.c == pass.pc.c);
  }

  lemma BeginKeepsIntents(s: Plane, p: nat, now: nat, who: Identity)
    requires Inv(s, who) && p in s.passes && s.passes[p].pc.Granted?
    ensures !Refused(s, s.passes[p].pc.c)
    ensures Inv(WithIntents(s, IntentsAfter(s.tables.intents, s.passes[p].pc, Begin(now))), who)
  {
    var c, m := s.passes[p].pc.c, s.tables.intents;
    assert PassKnown(s.written, s.calls, s.passes[p]);
    var key := IntentKey(c);
    if key in m {
      assert IntentMatches(m[key], c.id, c.generation, s.written, s.calls);
    } else {
      var r := IntentRecord(SpecText(c.spec), PendingIntent, None, now, None);
      forall id, g | ClusterKey(id, g) == key ensures IntentMatches(r, id, g, s.written, s.calls) {
        ClusterKeyInjective(id, g, c.id, c.generation);
      }
      IntentWriteKeepsInv(s, key, r, who);
    }
  }

  lemma CompleteKeepsIntents(s: Plane, p: nat, response: string, now: nat, who: Identity)
    requires Inv(s, who) && p in s.passes && s.passes[p].pc.Answered?
    ensures Inv(WithIntents(s, IntentsAfter(s.tables.intents, s.passes[p].pc, Complete(response, now))), who)
  {
    var c, m := s.passes[p].pc.c, s.tables.intents;
    assert PassKnown(s.written, s.calls, s.passes[p]);
    var key := IntentKey(c);
    if key in m {
      var r := m[key].(status := AppliedIntent, response := Some(response), completedAt := Some(now));
      assert IntentMatches(m[key], c.id, c.generation, s.written, s.calls);
      forall id, g | ClusterKey(id, g) == key ensures IntentMatches(r, id, g, s.written, s.calls) {
        ClusterKeyInjective(id, g, c.id, c.generation);
      }
      IntentWriteKeepsInv(s, key, r, who);
    }
  }

  lemma IntentCallsKeepInv(s: Plane, p: nat, call: PassCall, who: Identity)
    requires Inv(s, who) && p in s.passes && CallEnabled(s, s.passes[p], call)
    ensures Inv(WithIntents(s, IntentsAfter(s.tables.intents, s.passes[p].pc, call)), who)
    ensures call.Begin? ==> !Refused(s, s.passes[p].pc.c)
  {
    if call.Begin? {
      BeginKeepsIntents(s, p, call.now, who);
    } else if call.Complete? {
      CompleteKeepsIntents(s, p, call.response, call.now, who);
    }
  }

  lemma CallKeepsSpecs(m: CS.Clusters, pass: Pass, call: PassCall)
    ensures SameSpecs(m, ClustersAfter(m, pass, call))
  {
    if call.WriteAttempt? && pass.pc.Conditioned? {
      AttemptKeepsSpecs(m, pass.pc.c.id, AttemptAfter(pass.pc.c, pass.pc.action, StateOf(pass.pc.final), pass.now));
    }
  }

  lemma AttemptKeepsSpecs(m: CS.Clusters, id: Id, attempt: Option<(nat, nat)>)
    ensures attempt.Some? ==> SameSpecs(m, CS.RecordAttempt(m, id, attempt.value.0, attempt.value.1))
  {}

  lemma CallsGrow(s: Plane, p: nat, call: PassCall, who: Identity)
    requires Inv(s, who) && p in s.passes && CallEnabled(s, s.passes[p], call)
    ensures Inv(s.(calls := s.calls + Issued(s.passes[p].pc, call)), who)
  {
    assert PassKnown(s.written, s.calls, s.passes[p]);
    var issued := Issued(s.passes[p].pc, call);
    if issued == [] {
      assert s.calls + issued == s.calls;
    } else {
      assert CallKnown(issued[0], s.written);
      assert issued == [issued[0]];
      MoreCalls(s, issued[0], who);
    }
  }

  /** One call of a pass: its outbox write, its status write, its provider call
      and its own move, in turn. */
  lemma CallKeepsInv(s: Plane, p: nat, call: PassCall, who: Identity)
    requires Inv(s, who) && p in s.passes && CallEnabled(s, s.passes[p], call)
    ensures Inv(AfterCall(s, p, call), who)
  {
    var pass, s' := s.passes[p], AfterCall(s, p, call);
    IntentCallsKeepInv(s, p, call, who);
    var s1 := WithIntents(s, s'.tables.intents);
    CallKeepsSpecs(s.tables.clusters, pass, call);
    StatusWritesKeepInv(s1, s'.tables.clusters, who);
    var s2 := WithClusters(s1, s'.tables.clusters);
    CallsGrow(s2, p, call, who);
    var s3 := s2.(calls := s'.calls);
    if call.ProviderApply? {
      assert PassKnown(s3.written, s3.calls, pass);
      assert s'.calls[|s.calls|].key == IntentKey(pass.pc.c);
      assert PassKnown(s3.written, s3.calls, PassAfter(s, pass, call));
    } else {
      PassStaysKnown(s, p, call);
      KnownStays(s, s3, PassAfter(s, pass, call));
    }
    MoveKeepsInv(s3, p, PassAfter(s, pass, call), who);
  }

  lemma KnownStays(s: Plane, s': Plane, pass: Pass)
    requires PassKnown(s.written, s.calls, pass) && s'.written == s.written && s.calls <= s'.calls
    ensures PassKnown(s'.written, s'.calls, pass)
  {
    if pass.pc.Answered? {
      var i :| 0 <= i < |s.calls| && s.calls[i].ApplyCall? && s.calls[i].key == IntentKey(pass.pc.c);
      assert s'.calls[i] == s.calls[i];
    }
  }

  lemma PoolWriteKeepsInv(s: Plane, name: string, g: nat, digest: string, r: IntentRecord, who: Identity)
    requires Inv(s, who) && '/' !in digest
    ensures Inv(WithIntents(s, s.tables.intents[PoolKey(name, g, digest) := r]), who)
  {
    forall id, g' | ClusterKey(id, g') == PoolKey(name, g, digest) ensures false {
      ClusterPoolKeysDisjoint(id, g', name, g, digest);
    }
    IntentWriteKeepsInv(s, PoolKey(name, g, digest), r, who);
  }

  lemma PoolCallKeepsInv(s: Plane, p: nat, call: PoolCall, who: Identity)
    requires Inv(s, who) && PoolCallEnabled(s, p, call)
    ensures Inv(AfterPoolCall(s, p, call), who)
  {
    match call
    case PoolBegin(name, g, digest, fp, now) =>
      if PoolKey(name, g, digest) !in s.tables.intents {
        PoolWriteKeepsInv(s, name, g, digest, IntentRecord(fp, PendingIntent, None, now, None), who);
      }
    case PoolComplete(name, g, digest, now) =>
      var key, m := PoolKey(name, g, digest), s.tables.intents;
      if key in m {
        PoolWriteKeepsInv(s, name, g, digest,
          m[key].(status := AppliedIntent, response := Some("{}"), completedAt := Some(now)), who);
      }
    case PoolApply(name) => MoreCalls(s, ApplyPoolCall(name), who);
    case PoolDelete(name) => MoreCalls(s, DeletePoolCall(name), who);
    case _ =>
  }

  lemma ListKeepsInv(s: Plane, p: nat, now: nat, order: seq<StoredCluster>, who: Identity)
    requires Inv(s, who) && ListsAll(s.tables.clusters, order)
    ensures Inv(s.(passes := s.passes[p := Pass(order, now, Top)]), who)
  {
    forall c | c in order ensures Known(s.written, c) {
      var i :| 0 <= i < |order| && order[i] == c;
      assert Known(s.written, s.tables.clusters[c.id]);
    }
    MoveKeepsInv(s, p, Pass(order, now, Top), who);
  }

  lemma ReapKeepsInv(s: Plane, before: nat, who: Identity)
    requires Inv(s, who)
    ensures Inv(WithIntents(s, CS.ReapIntents(s.tables.intents, before)), who)
  {
    var m' := CS.ReapIntents(s.tables.intents, before);
    forall id, g | ClusterKey(id, g) in m' ensures IntentMatches(m'[ClusterKey(id, g)], id, g, s.written, s.calls) {
      assert IntentMatches(s.tables.intents[ClusterKey(id, g)], id, g, s.written, s.calls);
    }
  }

  lemma NextKeepsInv(s: Plane, e: Event, who: Identity)
    requires Inv(s, who) && Enabled(s, e) && Keeps(e, who)
    ensures Inv(Next(s, e), who)
  {
    match e
    case Upsert(_, _, _) => UpsertKeepsInv(s, e, who);
    case Flip(id, desired, now) => StatusWritesKeepInv(s, CS.SetDesired(s.tables.clusters, id, desired, now), who);
    case ReapIntents(before) => ReapKeepsInv(s, before, who);
    case SweepPolicies(id) => MoreCalls(s, ReapPoliciesCall(id), who);
    case List(p, now, order) => ListKeepsInv(s, p, now, order, who);
    case Reconcile(p, call) => CallKeepsInv(s, p, call, who);
    case ReconcilePool(p, call) => PoolCallKeepsInv(s, p, call, who);
    case _ =>
  }

  lemma {:induction false} RunsKeepInv(es: seq<Event>, who: Identity)
    requires forall e | e in es :: Keeps(e, who)
    ensures Inv(Exec(Empty, es), who)
  {
    if es != [] {
      RunsKeepInv(es[..|es| - 1], who);
      assert es[|es| - 1] in es;
      if Enabled(Exec(Empty, es[..|es| - 1]), es[|es| - 1]) {
        NextKeepsInv(Exec(Empty, es[..|es| - 1]), es[|es| - 1], who);
      }
    }
  }

  /** Fencing, over every run in which no row is removed and no id changes
      engine or owner: all applies under one key carry the same id, generation
      and spec; no pass is ever refused for a conflicting intent; and a key
      marked applied was handed to the provider before. */
  lemma OneKeyOneActuation(es: seq<Event>, who: Identity)
    requires forall e | e in es :: Keeps(e, who)
    ensures var s := Exec(Empty, es);
      && (forall i, j | 0 <= i < |s.calls| && 0 <= j < |s.calls| && s.calls[i].ApplyCall? && s.calls[j].ApplyCall?
            && s.calls[i].key == s.calls[j].key :: s.calls[i] == s.calls[j])
      && s.stale == 0
      && (forall id, g | ClusterKey(id, g) in s.tables.intents
            && s.tables.intents[ClusterKey(id, g)].status.AppliedIntent?
            :: Called(s.calls, ClusterKey(id, g)))
  {
    RunsKeepInv(es, who);
    var s := Exec(Empty, es);
    forall i, j | 0 <= i < |s.calls| && 0 <= j < |s.calls| && s.calls[i].ApplyCall? && s.calls[j].ApplyCall?
      && s.calls[i].key == s.calls[j].key
      ensures s.calls[i] == s.calls[j]
    {
      assert CallKnown(s.calls[i], s.written) && CallKnown(s.calls[j], s.written);
      ClusterKeyInjective(s.calls[i].id, s.calls[i].generation, s.calls[j].id, s.calls[j].generation);
    }
    forall id, g | ClusterKey(id, g) in s.tables.intents && s.tables.intents[ClusterKey(id, g)].status.AppliedIntent?
      ensures Called(s.calls, ClusterKey(id, g))
    {
      assert IntentMatches(s.tables.intents[ClusterKey(id, g)], id, g, s.written, s.calls);
    }
  }
}
