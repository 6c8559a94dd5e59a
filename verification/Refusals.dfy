/** When the outbox refuses a begin, over whole runs: exactly when the intent on
    file was opened with another spec, which without removal of the row means
    another engine or owner. */
module Refusals {
  import opened Types
  import opened Keys
  import opened Reconcile
  import opened Outbox
  import opened IntentReuse
  import BootFence
  import Fencing
  import CS = ClusterStore

  /** Event `b`, a begin of the row `first`, opened the intent that is on file under
      the key from then on. */
  predicate Filed(es: seq<Event>, b: nat, q: nat, first: StoredCluster, key: string) {
    && Opens(es, b, q, first) && IntentKey(first) == key
    && key !in Exec(Empty, es[..b]).tables.intents
    && forall n | b < n <= |es| :: OnFile(Exec(Empty, es[..n]), key, first.spec)
  }

  predicate OnFile(s: Plane, key: string, spec: ClusterSpec) {
    key in s.tables.intents && s.tables.intents[key].paramsFingerprint == SpecText(spec)
  }

  lemma CallFiles(m: CS.Intents, pc: Pc, call: PassCall, key: string)
    requires key !in m && key in IntentsAfter(m, pc, call)
    ensures call.Begin? && !pc.Top? && key == IntentKey(pc.c)
    ensures IntentsAfter(m, pc, call)[key].paramsFingerprint == SpecText(pc.c.spec)
  {}

  lemma PoolCallFiles(s: Plane, p: nat, call: PoolCall, id: Id, g: nat)
    requires PoolCallEnabled(s, p, call) && ClusterKey(id, g) !in s.tables.intents
    ensures ClusterKey(id, g) !in AfterPoolCall(s, p, call).tables.intents
  {
    if call.PoolBegin? {
      ClusterPoolKeysDisjoint(id, g, call.name, call.generation, call.digest);
    }
  }

  /** Under a cluster key only a begin of that row opens an intent. */
  lemma FiledByBegin(s: Plane, e: Event, id: Id, g: nat)
    requires var key := ClusterKey(id, g); key !in s.tables.intents && key in Do(s, e).tables.intents
    ensures e.Reconcile? && e.call.Begin? && e.p in s.passes && s.passes[e.p].pc.Granted?
    ensures var c := s.passes[e.p].pc.c;
      IntentKey(c) == ClusterKey(id, g) && !Refused(s, c) && OnFile(Do(s, e), ClusterKey(id, g), c.spec)
  {
    match e
    case Reconcile(p, call) => CallFiles(s.tables.intents, s.passes[p].pc, call, ClusterKey(id, g));
    case ReconcilePool(p, call) => PoolCallFiles(s, p, call, id, g);
    case _ =>
  }

  /** An intent on file has its filing in the run. */
  lemma {:induction false} FilingOf(es: seq<Event>, id: Id, g: nat) returns (b: nat, q: nat, first: StoredCluster)
    requires ClusterKey(id, g) in Exec(Empty, es).tables.intents
    ensures Filed(es, b, q, first, ClusterKey(id, g))
    decreases |es|
  {
    var n, key := |es| - 1, ClusterKey(id, g);
    var rest, before := es[..n], Exec(Empty, es[..n]);
    assert es[..|es|] == es;
    if key in before.tables.intents {
      b, q, first := FilingOf(rest, id, g);
      assert rest[..b] == es[..b] && rest[..n] == rest;
      assert forall i | b < i <= n :: rest[..i] == es[..i];
      assert OnFile(Exec(Empty, rest[..n]), key, first.spec);
      IntentStays(before, es[n], key);
    } else {
      FiledByBegin(before, es[n], id, g);
      b, q, first := n, es[n].p, before.passes[es[n].p].pc.c;
    }
  }

  /** Over every run: the outbox refuses a row if and only if the begin that opened
      the intent on file was of another spec. */
  lemma {:induction false} RefusedIffFiledOtherwise(es: seq<Event>, c: StoredCluster)
    ensures Refused(Exec(Empty, es), c)
      <==> exists b, q, first :: Filed(es, b, q, first, IntentKey(c)) && first.spec != c.spec
  {
    assert es[..|es|] == es;
    if Refused(Exec(Empty, es), c) {
      var b, q, first := FilingOf(es, c.id, c.generation);
      assert OnFile(Exec(Empty, es[..|es|]), IntentKey(c), first.spec);
    }
    forall b: nat, q: nat, first | Filed(es, b, q, first, IntentKey(c)) && first.spec != c.spec
      ensures Refused(Exec(Empty, es), c)
    {
      assert OnFile(Exec(Empty, es[..|es|]), IntentKey(c), first.spec);
    }
  }

  // --- While the row is not removed ---

  /** What `spec_changed` looks at. */
  function Core(spec: ClusterSpec): ClusterSpec {
    spec.(engine := Ray, owner := None)
  }

  lemma CoreIff(a: ClusterSpec, b: ClusterSpec)
    ensures SpecChanged(a, b) <==> Core(a) != Core(b)
    ensures Core(a) == Core(b) ==> (a == b <==> a.engine == b.engine && a.owner == b.owner)
  {
    UnchangedSpecFingerprint(a, b);
  }

  type Written = map<(Id, nat), ClusterSpec>

  predicate Alike(w: Written, c: StoredCluster) {
    (c.id, c.generation) in w && Core(w[(c.id, c.generation)]) == Core(c.spec)
  }

  predicate HoldsAlike(w: Written, pass: Pass, id: Id) {
    && (forall i | 0 <= i < |pass.todo| && pass.todo[i].id == id :: Alike(w, pass.todo[i]))
    && (!pass.pc.Top? && pass.pc.c.id == id ==> Alike(w, pass.pc.c))
  }

  /** All rows of one id and generation, stored or held, are one up to engine and owner. */
  predicate OneCore(s: Plane, id: Id) {
    && RowAlike(s.tables.clusters, s.written, id)
    && forall p | p in s.passes :: HoldsAlike(s.written, s.passes[p], id)
  }

  predicate RowAlike(m: CS.Clusters, w: Written, id: Id) {
    && (id in m ==> m[id].id == id && Alike(w, m[id]))
    && forall k | k in w && k.0 == id :: id in m && k.1 <= m[id].generation
  }

  /** What was written for a generation changes in engine and owner at most. */
  predicate Evolves(w: Written, w': Written, id: Id) {
    forall k | k in w && k.0 == id :: k in w' && Core(w'[k]) == Core(w[k])
  }

  lemma UpsertEvolves(m: CS.Clusters, w: Written, id: Id, spec: ClusterSpec, now: nat)
    requires RowAlike(m, w, id)
    ensures var w' := w[(id, CS.NextGeneration(m, id, spec)) := spec];
      Evolves(w, w', id) && RowAlike(CS.Upsert(m, id, spec, now), w', id)
  {
    if id in m {
      CoreIff(m[id].spec, spec);
    }
  }

  predicate SameRow(m: CS.Clusters, m': CS.Clusters, id: Id) {
    && (id in m' <==> id in m)
    && (id in m ==> m'[id].id == m[id].id && m'[id].spec == m[id].spec && m'[id].generation == m[id].generation)
  }

  lemma OtherEventsKeepRow(s: Plane, e: Event, id: Id)
    requires e != Remove(id) && !(e.Upsert? && e.id == id)
    ensures SameRow(s.tables.clusters, Do(s, e).tables.clusters, id)
  {
    if Enabled(s, e) && e.Reconcile? {
      Fencing.CallKeepsSpecs(s.tables.clusters, s.passes[e.p], e.call);
    }
  }

  lemma OnlyUpsertsWrite(s: Plane, e: Event)
    requires !e.Upsert?
    ensures Do(s, e).written == s.written
  {
    if e.ReconcilePool? {
      PoolCallsWriteNothing(s, e.p, e.pool);
    }
  }

  lemma PoolCallsWriteNothing(s: Plane, p: nat, call: PoolCall)
    ensures AfterPoolCall(s, p, call).written == s.written
  {}

  lemma OtherRowAlike(m: CS.Clusters, m': CS.Clusters, w: Written, w': Written, id: Id)
    requires RowAlike(m, w, id) && SameRow(m, m', id)
    requires forall k: (Id, nat) | k.0 == id :: (k in w' <==> k in w) && (k in w ==> w'[k] == w[k])
    ensures RowAlike(m', w', id) && Evolves(w, w', id)
  {}

  lemma RowStep(s: Plane, e: Event, id: Id)
    requires RowAlike(s.tables.clusters, s.written, id) && e != Remove(id)
    ensures RowAlike(Do(s, e).tables.clusters, Do(s, e).written, id) && Evolves(s.written, Do(s, e).written, id)
  {
    if e.Upsert? {
      UpsertRowStep(s, e, id);
    } else {
      OtherEventsKeepRow(s, e, id);
      OnlyUpsertsWrite(s, e);
      OtherRowAlike(s.tables.clusters, Do(s, e).tables.clusters, s.written, s.written, id);
    }
  }

  lemma UpsertRowStep(s: Plane, e: Event, id: Id)
    requires RowAlike(s.tables.clusters, s.written, id) && e.Upsert?
    ensures RowAlike(Do(s, e).tables.clusters, Do(s, e).written, id) && Evolves(s.written, Do(s, e).written, id)
  {
    var m, w := s.tables.clusters, s.written;
    var m', w' := CS.Upsert(m, e.id, e.spec, e.now), w[(e.id, CS.NextGeneration(m, e.id, e.spec)) := e.spec];
    assert Do(s, e).tables.clusters == m' && Do(s, e).written == w';
    if e.id == id {
      UpsertEvolves(m, w, id, e.spec, e.now);
    } else {
      OtherRowAlike(m, m', w, w', id);
    }
  }

  lemma PassStep(s: Plane, e: Event, s': Plane, id: Id, p: nat)
    requires OneCore(s, id) && BootFence.Steps(s, e, s', p) && p in s'.passes && Evolves(s.written, s'.written, id)
    ensures HoldsAlike(s'.written, s'.passes[p], id)
  {
    var pass' := s'.passes[p];
    if p in s.passes {
      var pass := s.passes[p];
      assert HoldsAlike(s.written, pass, id);
      forall i | 0 <= i < |pass'.todo| && pass'.todo[i].id == id ensures Alike(s'.written, pass'.todo[i]) {
        assert pass'.todo[i] == pass.todo[i + |pass.todo| - |pass'.todo|];
      }
    }
  }

  lemma StepKeepsOneCore(s: Plane, e: Event, id: Id)
    requires OneCore(s, id) && e != Remove(id)
    ensures OneCore(Do(s, e), id) && Evolves(s.written, Do(s, e).written, id)
  {
    RowStep(s, e, id);
    var s' := Do(s, e);
    forall p | p in s'.passes ensures HoldsAlike(s'.written, s'.passes[p], id) {
      BootFence.EventSteps(s, e, p);
      PassStep(s, e, s', id, p);
    }
  }

  lemma {:induction false} RunKeepsOneCore(es: seq<Event>, b: nat, id: Id)
    requires Remove(id) !in es && b <= |es|
    ensures OneCore(Exec(Empty, es), id) && Evolves(Exec(Empty, es[..b]).written, Exec(Empty, es).written, id)
    decreases |es|
  {
    assert es[..|es|] == es;
    if es != [] {
      var n := |es| - 1;
      assert es[n] in es;
      RunKeepsOneCore(es[..n], if b <= n then b else n, id);
      assert b <= n ==> es[..n][..b] == es[..b];
      StepKeepsOneCore(Exec(Empty, es[..n]), es[n], id);
    }
  }

  /** Over every run that keeps the row, however often its owner or engine moved:
      a begin is refused if and only if the row in hand has another engine or
      owner than the one whose begin opened the intent on file. */
  lemma {:induction false} RefusedIffMoved(es: seq<Event>, p: nat, c: StoredCluster)
    requires Remove(c.id) !in es
    requires p in Exec(Empty, es).passes && Exec(Empty, es).passes[p].pc == Granted(c)
    ensures Refused(Exec(Empty, es), c)
      <==> exists b, q, first :: Filed(es, b, q, first, IntentKey(c))
             && (first.spec.engine != c.spec.engine || first.spec.owner != c.spec.owner)
  {
    RefusedIffFiledOtherwise(es, c);
    forall b: nat, q: nat, first | Filed(es, b, q, first, IntentKey(c))
      ensures first.spec == c.spec <==> first.spec.engine == c.spec.engine && first.spec.owner == c.spec.owner
    {
      FiledAlike(es, p, c, b, q, first);
    }
  }

  lemma FiledAlike(es: seq<Event>, p: nat, c: StoredCluster, b: nat, q: nat, first: StoredCluster)
    requires Remove(c.id) !in es && Filed(es, b, q, first, IntentKey(c))
    requires p in Exec(Empty, es).passes && Exec(Empty, es).passes[p].pc == Granted(c)
    ensures first.spec == c.spec <==> first.spec.engine == c.spec.engine && first.spec.owner == c.spec.owner
  {
    ClusterKeyInjective(first.id, first.generation, c.id, c.generation);
    RunKeepsOneCore(es, b, c.id);
    assert HoldsAlike(Exec(Empty, es).written, Exec(Empty, es).passes[p], c.id);
    RunKeepsOneCore(es[..b], b, c.id);
    assert HoldsAlike(Exec(Empty, es[..b]).written, Exec(Empty, es[..b]).passes[q], c.id);
    CoreIff(first.spec, c.spec);
  }

  // --- When it is removed and created again ---

  /** A row removed and created again starts over at generation 1, so it is refused
      if and only if a begin of the former row at generation 1, with another
      spec, opened an intent that was not reaped since. */
  lemma {:induction false} RecreationRefusedIff(es: seq<Event>, id: Id, spec: ClusterSpec, now: nat)
    ensures var s := Exec(Empty, es + [Remove(id), Upsert(id, spec, now)]);
      && id in s.tables.clusters
      && var c := s.tables.clusters[id];
         && c.generation == 1 && c.spec == spec
         && (Refused(s, c) <==> exists b, q, first :: Filed(es, b, q, first, ClusterKey(id, 1)) && first.spec != spec)
  {
    var s, more := Exec(Empty, es), [Remove(id), Upsert(id, spec, now)];
    ExecAppend(Empty, es, more);
    assert more[..1] == [Remove(id)] && more[..1][..0] == [];
    assert Exec(s, more[..1]) == Do(Exec(s, more[..1][..0]), Remove(id));
    RefusedIffFiledOtherwise(es, Exec(s, more).tables.clusters[id]);
  }
}
