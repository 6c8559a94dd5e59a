/** The restore fence: what the boot check establishes and what every later run
    keeps because of it. */
module BootFence {
  import opened Types
  import opened Reconcile
  import opened Outbox
  import CS = ClusterStore

  /** The generation the provider's copy of `id` carries, 0 when it carries none. */
  function Stamp(s: Plane, id: Id): nat {
    GenerationOf(Lookup(s.backing, id))
  }

  datatype BootResult = Quarantined | Fresh | Failed

  /** The verdict on the rows in list order: the first row that cannot be observed,
      or is behind the provider, decides. */
  function Verdict(s: Plane, order: seq<StoredCluster>, unreachable: set<Id>): BootResult {
    if order == [] then Fresh
    else if order[0].id in unreachable then Failed
    else if Stamp(s, order[0].id) > order[0].generation then Quarantined
    else Verdict(s, order[1..], unreachable)
  }

  function Fence(s: Plane): Plane {
    s.(tables := s.tables.(quarantined := true))
  }

  class BootCheck {
    var plane: Plane

    constructor (s: Plane)
      ensures plane == s
    {
      plane := s;
    }

    /** Lists the rows and observes each one. `unreachable` holds the ids whose
        observation fails. A newer backing cluster quarantines the plane. */
    method DetectStaleRestore(order: seq<StoredCluster>, unreachable: set<Id>) returns (r: BootResult)
      requires ListsAll(plane.tables.clusters, order)
      modifies this
      ensures r == Verdict(old(plane), order, unreachable)
      ensures plane == if r.Quarantined? then Fence(old(plane)) else old(plane)
      ensures r.Fresh? ==>
        forall id | id in plane.tables.clusters :: Stamp(plane, id) <= plane.tables.clusters[id].generation
      ensures r.Quarantined? ==>
        exists id | id in plane.tables.clusters :: plane.tables.clusters[id].generation < Stamp(plane, id)
      ensures r.Failed? ==> exists id | id in plane.tables.clusters :: id in unreachable
    {
      for i := 0 to |order|
        invariant plane == old(plane)
        invariant Verdict(plane, order, unreachable) == Verdict(plane, order[i..], unreachable)
        invariant forall j | 0 <= j < i :: Stamp(plane, order[j].id) <= order[j].generation
      {
        var c := order[i];
        assert order[i..][1..] == order[i + 1..];
        if c.id in unreachable {
          return Failed;
        }
        var o := Lookup(plane.backing, c.id);
        if o.Some? && o.value.generation.Some? && o.value.generation.value > c.generation {
          plane := Fence(plane);
          return Quarantined;
        }
      }
      forall id | id in plane.tables.clusters
        ensures Stamp(plane, id) <= plane.tables.clusters[id].generation
      {
        var j :| 0 <= j < |order| && order[j] == plane.tables.clusters[id];
      }
      return Fresh;
    }
  }

  // --- Quarantined at boot ---

  /** No pass has been told it may act. */
  predicate HoldsStill(s: Plane) {
    && s.tables.quarantined
    && (forall p | p in s.passes :: var pc := s.passes[p].pc; pc.Top? || pc.Seen? || pc.Fenced?)
    && (forall p | p in s.poolPasses :: !s.poolPasses[p])
  }

  /** Nothing was added but policy reaps. */
  predicate OnlyReaps(before: seq<Call>, after: seq<Call>) {
    before <= after && forall i | |before| <= i < |after| :: after[i].ReapPoliciesCall?
  }

  /** From a quarantined plane no run that leaves the quarantine alone makes an
      apply, suspend, terminate, posture, pool apply or pool delete, whatever
      the API, the pool loop and the passes do; the retention sweep's policy
      reaps are the only mutating calls left. */
  lemma {:induction false} QuarantineHolds(s: Plane, es: seq<Event>)
    requires HoldsStill(s)
    requires Quarantine(false) !in es
    ensures HoldsStill(Exec(s, es)) && OnlyReaps(s.calls, Exec(s, es).calls)
  {
    if es != [] {
      var before, e := Exec(s, es[..|es| - 1]), es[|es| - 1];
      QuarantineHolds(s, es[..|es| - 1]);
      assert e in es;
      if Enabled(before, e) {
        StillStep(before, e);
      }
    }
  }

  lemma StillStep(s: Plane, e: Event)
    requires HoldsStill(s) && Enabled(s, e) && e != Quarantine(false)
    ensures HoldsStill(Next(s, e))
    ensures Next(s, e).calls == s.calls + if e.SweepPolicies? then [ReapPoliciesCall(e.id)] else []
  {
    if e.Reconcile? {
      var pass := s.passes[e.p];
      assert Issued(pass.pc, e.call) == [];
      var pc := PassAfter(s, pass, e.call).pc;
      assert pc.Top? || pc.Seen? || pc.Fenced?;
    }
  }

  /** The sweep does not ask: it reaps policies on a quarantined plane too. */
  lemma QuarantineLetsSweepReap(s: Plane, id: Id)
    requires HoldsStill(s)
    ensures var s' := Exec(s, [SweepPolicies(id)]);
      HoldsStill(s') && s'.calls == s.calls + [ReapPoliciesCall(id)]
  {
    assert [SweepPolicies(id)][..0] == [];
    StillStep(s, SweepPolicies(id));
  }

  // --- Not quarantined at boot: what an apply can do to a stamp ---

  /** The generation the store has for `id`, 0 when it has none. */
  function Stored(s: Plane, id: Id): nat {
    if id in s.tables.clusters then s.tables.clusters[id].generation else 0
  }

  /** Every row of `id` the pass still holds is at most of generation `g`. */
  predicate HoldsUpTo(pass: Pass, id: Id, g: nat) {
    && (forall i | 0 <= i < |pass.todo| && pass.todo[i].id == id :: pass.todo[i].generation <= g)
    && (!pass.pc.Top? && pass.pc.c.id == id ==> pass.pc.c.generation <= g)
  }

  /** Neither the provider nor any pass is ahead of the store on `id`. */
  predicate NoneAhead(s: Plane, id: Id) {
    && Stamp(s, id) <= Stored(s, id)
    && forall p | p in s.passes :: HoldsUpTo(s.passes[p], id, Stored(s, id))
  }

  /** Event `e` is an apply that lands: pass `q` puts the row `c` at the provider. */
  predicate Lands(s: Plane, e: Event, q: nat, c: StoredCluster) {
    && e.Reconcile? && e.p == q && e.call.ProviderApply? && e.call.landed
    && Enabled(s, e) && s.passes[q].pc == Postured(c)
  }

  /** The pass goes on with the row it has, drops it, or takes the next one. */
  predicate Moves(pass: Pass, pass': Pass) {
    || (pass'.todo == pass.todo && (pass'.pc.Top? || (!pass.pc.Top? && pass'.pc.c == pass.pc.c)))
    || (pass.todo != [] && pass'.todo == pass.todo[1..] && (pass'.pc.Top? || pass'.pc.c == pass.todo[0]))
  }

  lemma CallMoves(s: Plane, pass: Pass, call: PassCall)
    requires CallEnabled(s, pass, call)
    ensures Moves(pass, PassAfter(s, pass, call))
  {}

  /** What an event does to pass `p`: it moves, or it has just listed. */
  predicate Steps(s: Plane, e: Event, s': Plane, p: nat) {
    p in s'.passes ==>
      if p in s.passes then Moves(s.passes[p], s'.passes[p])
      else e == List(p, s'.passes[p].now, s'.passes[p].todo) && ListsAll(s.tables.clusters, e.order)
           && s'.passes[p].pc.Top?
  }

  lemma EventSteps(s: Plane, e: Event, p: nat)
    ensures Steps(s, e, Do(s, e), p)
  {
    if Enabled(s, e) && e.Reconcile? && e.p == p {
      CallMoves(s, s.passes[p], e.call);
    }
  }

  lemma CallKeepsStored(m: CS.Clusters, pass: Pass, call: PassCall, id: Id)
    requires id in m
    ensures id in ClustersAfter(m, pass, call) && ClustersAfter(m, pass, call)[id].generation == m[id].generation
  {
    if call.WriteAttempt? && pass.pc.Conditioned? {
      var attempt := AttemptAfter(pass.pc.c, pass.pc.action, StateOf(pass.pc.final), pass.now);
      AttemptKeepsStored(m, pass.pc.c.id, attempt, id);
    }
  }

  lemma AttemptKeepsStored(m: CS.Clusters, c: Id, attempt: Option<(nat, nat)>, id: Id)
    requires id in m
    ensures attempt.Some? ==>
      var m' := CS.RecordAttempt(m, c, attempt.value.0, attempt.value.1);
      id in m' && m'[id].generation == m[id].generation
  {}

  /** Only a removal lowers what the store has. */
  lemma StoredGrows(s: Plane, e: Event, id: Id)
    requires e != Remove(id)
    ensures Stored(s, id) <= Stored(Do(s, e), id)
  {
    if Enabled(s, e) && e.Reconcile? && id in s.tables.clusters {
      CallKeepsStored(s.tables.clusters, s.passes[e.p], e.call, id);
    }
  }

  /** A stamp moves in two ways only: it is dropped, or an apply puts its own
      row's generation there. */
  predicate StampMove(s: Plane, e: Event, s': Plane, id: Id) {
    || Stamp(s', id) == Stamp(s, id)
    || Stamp(s', id) == 0
    || (e.Reconcile? && e.p in s.passes && !s.passes[e.p].pc.Top?
        && var c := s.passes[e.p].pc.c;
           Lands(s, e, e.p, c) && c.id == id && c.generation == Stamp(s', id))
  }

  lemma StampMoves(s: Plane, e: Event, id: Id)
    ensures StampMove(s, e, Do(s, e), id)
  {
    if Enabled(s, e) && e.Reconcile? {
      CallStamps(s, e.p, e.call, id);
    }
  }

  lemma CallStamps(s: Plane, p: nat, call: PassCall, id: Id)
    requires p in s.passes && CallEnabled(s, s.passes[p], call)
    ensures var g := Stamp(AfterCall(s, p, call), id);
      g == Stamp(s, id) || g == 0
      || (call.ProviderApply? && call.landed && id == s.passes[p].pc.c.id && g == s.passes[p].pc.c.generation)
  {}

  lemma MoveHoldsUpTo(pass: Pass, pass': Pass, id: Id, g: nat)
    requires HoldsUpTo(pass, id, g) && Moves(pass, pass')
    ensures HoldsUpTo(pass', id, g)
  {
    forall i | 0 <= i < |pass'.todo| && pass'.todo[i].id == id ensures pass'.todo[i].generation <= g {
      assert pass'.todo[i] == pass.todo[i + |pass.todo| - |pass'.todo|];
    }
  }

  lemma PassesHoldUpTo(s: Plane, e: Event, s': Plane, id: Id, p: nat)
    requires NoneAhead(s, id) && Steps(s, e, s', p) && p in s'.passes && Stored(s, id) <= Stored(s', id)
    ensures HoldsUpTo(s'.passes[p], id, Stored(s', id))
  {
    if p in s.passes {
      assert HoldsUpTo(s.passes[p], id, Stored(s, id));
      MoveHoldsUpTo(s.passes[p], s'.passes[p], id, Stored(s, id));
    }
  }

  lemma StepKeepsNoneAhead(s: Plane, e: Event, id: Id)
    requires NoneAhead(s, id) && e != Remove(id)
    ensures NoneAhead(Do(s, e), id)
  {
    var s' := Do(s, e);
    StoredGrows(s, e, id);
    StampMoves(s, e, id);
    forall p | p in s'.passes ensures HoldsUpTo(s'.passes[p], id, Stored(s', id)) {
      EventSteps(s, e, p);
      PassesHoldUpTo(s, e, s', id, p);
    }
    if Stamp(s', id) != Stamp(s, id) && Stamp(s', id) != 0 {
      assert HoldsUpTo(s.passes[e.p], id, Stored(s, id));
    }
  }

  /** What holds after a clean boot check holds over every run that keeps the row,
      with any number of passes at once. */
  lemma {:induction false} RunKeepsNoneAhead(s: Plane, es: seq<Event>, id: Id)
    requires NoneAhead(s, id) && Remove(id) !in es
    ensures NoneAhead(Exec(s, es), id)
  {
    if es != [] {
      RunKeepsNoneAhead(s, es[..|es| - 1], id);
      assert es[|es| - 1] in es;
      StepKeepsNoneAhead(Exec(s, es[..|es| - 1]), es[|es| - 1], id);
    }
  }

  // --- Overtaken passes ---

  /** Event `l` lists the rows of pass `p`, which is under way from then until event `k`. */
  predicate UnderWay(s: Plane, es: seq<Event>, l: nat, p: nat, k: nat) {
    && l < k <= |es| && es[l].List? && es[l].p == p
    && p !in Exec(s, es[..l]).passes && ListsAll(Exec(s, es[..l]).tables.clusters, es[l].order)
    && forall n | l < n <= k :: p in Exec(s, es[..n]).passes
  }

  /** The pass works on rows of this listing. */
  predicate Works(pass: Pass, order: seq<StoredCluster>) {
    (forall i | 0 <= i < |pass.todo| :: pass.todo[i] in order) && (!pass.pc.Top? ==> pass.pc.c in order)
  }

  lemma MoveWorks(pass: Pass, pass': Pass, order: seq<StoredCluster>)
    requires Works(pass, order) && Moves(pass, pass')
    ensures Works(pass', order)
  {
    forall i | 0 <= i < |pass'.todo| ensures pass'.todo[i] in order {
      assert pass'.todo[i] == pass.todo[i + |pass.todo| - |pass'.todo|];
    }
  }

  /** A pass under way has its listing in the run. */
  lemma {:induction false} ListingOf(s: Plane, es: seq<Event>, k: nat, p: nat) returns (l: nat)
    requires s.passes == map[] && k <= |es| && p in Exec(s, es[..k]).passes
    ensures UnderWay(s, es, l, p, k) && Works(Exec(s, es[..k]).passes[p], es[l].order)
    decreases k
  {
    assert es[..0] == [];
    var before, after := Exec(s, es[..k - 1]), Exec(s, es[..k]);
    StepAt(s, es, k - 1, p);
    if p in before.passes {
      l := ListingOf(s, es, k - 1, p);
      MoveWorks(before.passes[p], after.passes[p], es[l].order);
    } else {
      l := k - 1;
    }
  }

  lemma StepAt(s: Plane, es: seq<Event>, k: nat, p: nat)
    requires k < |es|
    ensures Steps(Exec(s, es[..k]), es[k], Exec(s, es[..k + 1]), p)
  {
    ExecTake(s, es, k);
    EventSteps(Exec(s, es[..k]), es[k], p);
  }

  /** A stamp that rose on the way was put there by an apply and stood since. */
  lemma {:induction false} StampOrigin(s: Plane, es: seq<Event>, l: nat, k: nat, id: Id)
    returns (o: nat, c: StoredCluster)
    requires l <= k <= |es| && Stamp(Exec(s, es[..l]), id) < Stamp(Exec(s, es[..k]), id)
    ensures l <= o < k && es[o].Reconcile? && Lands(Exec(s, es[..o]), es[o], es[o].p, c) && c.id == id
    ensures forall n | o < n <= k :: Stamp(Exec(s, es[..n]), id) == c.generation
    decreases k
  {
    var before := Exec(s, es[..k - 1]);
    StampMovesAt(s, es, k - 1, id);
    if Stamp(before, id) == Stamp(Exec(s, es[..k]), id) {
      o, c := StampOrigin(s, es, l, k - 1, id);
    } else {
      o, c := k - 1, before.passes[es[k - 1].p].pc.c;
    }
  }

  lemma StampMovesAt(s: Plane, es: seq<Event>, k: nat, id: Id)
    requires k < |es|
    ensures StampMove(Exec(s, es[..k]), es[k], Exec(s, es[..k + 1]), id)
  {
    ExecTake(s, es, k);
    StampMoves(Exec(s, es[..k]), es[k], id);
  }

  /** Event `k` is an apply of the row `c` by pass `p`, which may or may not land. */
  predicate AppliesAt(s: Plane, es: seq<Event>, k: nat, p: nat, c: StoredCluster) {
    && k < |es| && es[k].Reconcile? && es[k].p == p && es[k].call.ProviderApply?
    && Enabled(Exec(s, es[..k]), es[k]) && Exec(s, es[..k]).passes[p].pc == Postured(c)
  }

  /** While the pass was under way, another pass landed a newer row of the cluster
      at event `o`, and its stamp stands. */
  predicate Overtakes(s: Plane, es: seq<Event>, l: nat, o: nat, newer: StoredCluster, k: nat, p: nat,
                      c: StoredCluster)
  {
    && UnderWay(s, es, l, p, k) && c in es[l].order && l < o < k
    && es[o].Reconcile? && es[o].p != p && Lands(Exec(s, es[..o]), es[o], es[o].p, newer)
    && newer.id == c.id && c.generation < newer.generation
    && forall n | o < n <= k :: Stamp(Exec(s, es[..n]), c.id) == newer.generation
  }

  ghost predicate Overtaken(s: Plane, es: seq<Event>, k: nat, p: nat, c: StoredCluster) {
    exists l, o, newer :: Overtakes(s, es, l, o, newer, k, p, c)
  }

  /** What a pass listed was stored then, and the provider was not ahead of it. */
  lemma ListedAhead(s: Plane, es: seq<Event>, l: nat, c: StoredCluster)
    requires NoneAhead(s, c.id) && Remove(c.id) !in es
    requires l < |es| && es[l].List? && ListsAll(Exec(s, es[..l]).tables.clusters, es[l].order) && c in es[l].order
    ensures c.id in Exec(s, es[..l]).tables.clusters && Exec(s, es[..l]).tables.clusters[c.id] == c
    ensures Stamp(Exec(s, es[..l]), c.id) <= c.generation
  {
    RunKeepsNoneAhead(s, es[..l], c.id);
    var i :| 0 <= i < |es[l].order| && es[l].order[i] == c;
  }

  /** After a boot check that found `c.id` in order, over every run that keeps its
      row, with any number of passes at once and crashes anywhere: the provider
      is ahead of an apply exactly when another pass overtook it, and an apply
      that lands lowers the provider's generation exactly then. */
  lemma LowersIffOvertaken(s: Plane, es: seq<Event>, k: nat, p: nat, c: StoredCluster)
    requires s.passes == map[] && Stamp(s, c.id) <= Stored(s, c.id) && Remove(c.id) !in es
    requires AppliesAt(s, es, k, p, c)
    ensures var before, after := Exec(s, es[..k]), Exec(s, es[..k + 1]);
      && (c.generation < Stamp(before, c.id) <==> Overtaken(s, es, k, p, c))
      && (Stamp(after, c.id) < Stamp(before, c.id) <==> es[k].call.landed && Overtaken(s, es, k, p, c))
  {
    AppliedStamp(s, es, k, p, c);
    if c.generation < Stamp(Exec(s, es[..k]), c.id) {
      var l, o, newer := OvertakenBy(s, es, k, p, c);
    }
  }

  lemma AppliedStamp(s: Plane, es: seq<Event>, k: nat, p: nat, c: StoredCluster)
    requires AppliesAt(s, es, k, p, c)
    ensures Stamp(Exec(s, es[..k + 1]), c.id)
      == if es[k].call.landed then c.generation else Stamp(Exec(s, es[..k]), c.id)
  {
    ExecTake(s, es, k);
  }

  lemma OvertakenBy(s: Plane, es: seq<Event>, k: nat, p: nat, c: StoredCluster)
    returns (l: nat, o: nat, newer: StoredCluster)
    requires s.passes == map[] && Stamp(s, c.id) <= Stored(s, c.id) && Remove(c.id) !in es
    requires AppliesAt(s, es, k, p, c) && c.generation < Stamp(Exec(s, es[..k]), c.id)
    ensures Overtakes(s, es, l, o, newer, k, p, c)
  {
    l := ListingOf(s, es, k, p);
    ListedAhead(s, es, l, c);
    o, newer := StampOrigin(s, es, l, k, c.id);
    if es[o].p == p {
      OwnRow(s, es, l, o, p, c);
    }
  }

  /** The pass itself has no other row of that cluster. */
  lemma OwnRow(s: Plane, es: seq<Event>, l: nat, o: nat, p: nat, c: StoredCluster)
    requires s.passes == map[] && UnderWay(s, es, l, p, o) && c in es[l].order
    requires !Exec(s, es[..o]).passes[p].pc.Top? && Exec(s, es[..o]).passes[p].pc.c.id == c.id
    ensures Exec(s, es[..o]).passes[p].pc.c == c
  {
    var l' := ListingOf(s, es, o, p);
    SameListing(s, es, l, l', p, o);
    var own := Exec(s, es[..o]).passes[p].pc.c;
    var i :| 0 <= i < |es[l].order| && es[l].order[i] == c;
    var j :| 0 <= j < |es[l].order| && es[l].order[j] == own;
  }

  lemma SameListing(s: Plane, es: seq<Event>, l: nat, l': nat, p: nat, k: nat)
    requires UnderWay(s, es, l, p, k) && UnderWay(s, es, l', p, k)
    ensures l == l'
  {}

  /** What a pass can look up before it applies: while the stored row is still of
      the generation in hand, nothing is lowered. */
  lemma CurrentRowNeverLowers(s: Plane, es: seq<Event>, k: nat, p: nat, c: StoredCluster)
    requires s.passes == map[] && Stamp(s, c.id) <= Stored(s, c.id) && Remove(c.id) !in es
    requires AppliesAt(s, es, k, p, c) && Stored(Exec(s, es[..k]), c.id) == c.generation
    ensures Stamp(Exec(s, es[..k]), c.id) <= Stamp(Exec(s, es[..k + 1]), c.id)
  {
    assert forall e | e in es[..k] :: e in es;
    RunKeepsNoneAhead(s, es[..k], c.id);
    AppliedStamp(s, es, k, p, c);
  }

  // --- One loop ---

  /** One reconcile loop: a pass starts only when no other pass is under way. */
  predicate OneLoop(s: Plane, es: seq<Event>) {
    forall k | 0 <= k < |es| && es[k].List? :: Exec(s, es[..k]).passes == map[]
  }

  lemma {:induction false} OnlyPass(s: Plane, es: seq<Event>, k: nat, p: nat, q: nat)
    requires s.passes == map[] && OneLoop(s, es) && k <= |es|
    requires p in Exec(s, es[..k]).passes && q in Exec(s, es[..k]).passes
    ensures p == q
    decreases k
  {
    assert es[..0] == [];
    StepAt(s, es, k - 1, p);
    StepAt(s, es, k - 1, q);
    if es[k - 1].List? {
      assert Exec(s, es[..k - 1]).passes == map[];
    } else {
      OnlyPass(s, es, k - 1, p, q);
    }
  }

  lemma NobodyOvertakes(s: Plane, es: seq<Event>, k: nat, p: nat, c: StoredCluster)
    requires s.passes == map[] && OneLoop(s, es)
    ensures !Overtaken(s, es, k, p, c)
  {
    forall l: nat, o: nat, newer ensures !Overtakes(s, es, l, o, newer, k, p, c) {
      if Overtakes(s, es, l, o, newer, k, p, c) {
        OnlyPass(s, es, o, p, es[o].p);
      }
    }
  }

  /** After a clean boot check, and over every run of one reconcile loop with
      crashes at any point and the row not removed, no apply lowers the generation
      the provider carries for an id that was stored at boot. */
  lemma NoApplyLowersAGeneration(s: Plane, es: seq<Event>, k: nat, p: nat, c: StoredCluster)
    requires s.passes == map[]
    requires forall id | id in s.tables.clusters :: Stamp(s, id) <= s.tables.clusters[id].generation
    requires OneLoop(s, es) && Remove(c.id) !in es
    requires AppliesAt(s, es, k, p, c) && c.id in s.tables.clusters
    ensures Stamp(Exec(s, es[..k]), c.id) <= c.generation
    ensures Stamp(Exec(s, es[..k]), c.id) <= Stamp(Exec(s, es[..k + 1]), c.id)
  {
    LowersIffOvertaken(s, es, k, p, c);
    NobodyOvertakes(s, es, k, p, c);
  }
}
