/** What the provider holds of a pool: exactly when the loop's no-ops tell the truth
    about it, and the two ways they do not. */
module PoolHeld {
  import opened Types
  import opened Keys
  import opened PoolFingerprint
  import opened PoolReconcile
  import opened PoolSafety
  import CS = ClusterStore

  /** A call takes effect when it succeeds; `landed` says of each failed one whether
      it did all the same. */
  predicate Effective(calls: seq<PoolCall>, i: nat, landed: nat -> bool)
    requires i < |calls|
  {
    calls[i].ok || landed(i)
  }

  /** The provider's state of a pool, from the calls it received. */
  function Held(calls: seq<PoolCall>, name: string, landed: nat -> bool): Option<Fingerprint> {
    if calls == [] then None
    else
      var n := |calls| - 1;
      if calls[n].name != name || !Effective(calls, n, landed) then Held(calls[..n], name, landed)
      else if calls[n].ApplyPool? then Some(calls[n].fp)
      else None
  }

  /** Call `i` is the last that put this fingerprint there. */
  predicate LastApplyOf(calls: seq<PoolCall>, name: string, fp: Fingerprint, landed: nat -> bool, i: nat) {
    && i < |calls| && Effective(calls, i, landed) && calls[i].ApplyPool? && calls[i].name == name && calls[i].fp == fp
    && forall j | i < j < |calls| && Effective(calls, j, landed) && calls[j].ApplyPool? && calls[j].name == name ::
         calls[j].fp != fp
  }

  /** No delete and no apply to the pool took effect after call `i`. */
  predicate Undisturbed(calls: seq<PoolCall>, name: string, landed: nat -> bool, i: nat) {
    forall j | i < j < |calls| && calls[j].name == name :: !Effective(calls, j, landed)
  }

  /** The pool is held in a state exactly when nothing took effect after the last
      apply of that state. */
  lemma {:induction false} HeldIff(calls: seq<PoolCall>, name: string, fp: Fingerprint, landed: nat -> bool, i: nat)
    requires LastApplyOf(calls, name, fp, landed, i)
    ensures Held(calls, name, landed) == Some(fp) <==> Undisturbed(calls, name, landed, i)
    decreases |calls|
  {
    var n := |calls| - 1;
    var rest := calls[..n];
    if i < n && (calls[n].name != name || !Effective(calls, n, landed)) {
      assert forall j | 0 <= j < n :: rest[j] == calls[j] && Effective(rest, j, landed) == Effective(calls, j, landed);
      HeldIff(rest, name, fp, landed, i);
      assert Undisturbed(rest, name, landed, i) <==> Undisturbed(calls, name, landed, i);
    }
  }

  lemma {:induction false} LastApplyExists(calls: seq<PoolCall>, name: string, fp: Fingerprint, landed: nat -> bool)
    returns (i: nat)
    requires ApplyPool(name, fp, true) in calls
    ensures LastApplyOf(calls, name, fp, landed, i)
    decreases |calls|
  {
    var n := |calls| - 1;
    if Effective(calls, n, landed) && calls[n].ApplyPool? && calls[n].name == name && calls[n].fp == fp {
      i := n;
    } else {
      var rest := calls[..n];
      assert calls == rest + [calls[n]];
      i := LastApplyExists(rest, name, fp, landed);
      assert forall j | 0 <= j < n :: rest[j] == calls[j] && Effective(rest, j, landed) == Effective(calls, j, landed);
    }
  }

  /** In every run, with deletes, failed calls that may have landed, reaps and
      restarts: a no-op outside quarantine leaves the provider with the desired
      state if and only if no delete and no apply to the pool took effect after
      the last apply of that state. */
  lemma {:induction false} NoOpHoldsIff(json: Json, es: seq<Event>, pool: StoredPool, a: Answers, landed: nat -> bool)
    returns (i: nat)
    ensures
      var w := Exec(json, es);
      !w.quarantined && Treat(json, w, pool, a).1 == Some(NoOp) ==>
        && a.listed.Some?
        && var fp := DesiredFingerprint(pool.spec, a.listed.value);
           && LastApplyOf(w.calls, pool.name, fp, landed, i)
           && (Held(w.calls, pool.name, landed) == Some(fp) <==> Undisturbed(w.calls, pool.name, landed, i))
  {
    var w := Exec(json, es);
    i := 0;
    NoOpMeansApplied(json, es, pool, a);
    if !w.quarantined && Treat(json, w, pool, a).1 == Some(NoOp) {
      var fp := DesiredFingerprint(pool.spec, a.listed.value);
      i := LastApplyExists(w.calls, pool.name, fp, landed);
      HeldIff(w.calls, pool.name, fp, landed, i);
    }
  }

  // --- A pool deleted and created again ---

  function AppliedDeleted(pool: StoredPool, allocations: Allocations): seq<Event> {
    [TreatPool(pool, AllOk(allocations)), Sweep({}, [pool.name], true, name => true)]
  }

  function Times(e: Event, n: nat): seq<Event> {
    if n == 0 then [] else Times(e, n - 1) + [e]
  }

  function DoTimes(json: Json, w: World, e: Event, n: nat): World {
    if n == 0 then w else Do(json, DoTimes(json, w, e, n - 1), e)
  }

  lemma {:induction false} ExecTimes(json: Json, es: seq<Event>, e: Event, n: nat)
    ensures Exec(json, es + Times(e, n)) == DoTimes(json, Exec(json, es), e, n)
  {
    if n == 0 {
      assert es + [] == es;
    } else {
      ExecTimes(json, es, e, n - 1);
      assert (es + Times(e, n))[..|es + Times(e, n)| - 1] == es + Times(e, n - 1);
    }
  }

  /** What a pool that was applied, deleted and listed again leaves behind. */
  ghost predicate Ghost(json: Json, w: World, pool: StoredPool, allocations: Allocations) {
    var fp := DesiredFingerprint(pool.spec, allocations);
    && !w.quarantined && AlreadyApplied(w.intents, PoolIntentKey(json, pool, fp), fp)
    && w.calls == [ApplyPool(pool.name, fp, true), DeletePool(pool.name, true)]
  }

  lemma FirstApply(json: Json, pool: StoredPool, allocations: Allocations)
    ensures
      var w, fp := Treat(json, Fresh, pool, AllOk(allocations)).0, DesiredFingerprint(pool.spec, allocations);
      && !w.quarantined && AlreadyApplied(w.intents, PoolIntentKey(json, pool, fp), fp)
      && w.calls == [ApplyPool(pool.name, fp, true)] && w.converged == {pool.name}
  {
  }

  lemma DeletedOnce(w: World, name: string, ok: string -> bool)
    requires !w.quarantined && w.converged == {name} && ok(name)
    ensures
      var e := Sweep({}, [name], true, ok);
      Enabled(w, e) && Teardown(w, e.vanished, true, ok) == DeleteOne(w, name, ok)
  {
    DeletesMore(w, [], name, ok);
    assert [] + [name] == [name];
  }

  lemma ExecTwo(json: Json, a: Event, b: Event)
    ensures Exec(json, [a, b]) == Do(json, Do(json, Fresh, a), b)
  {
    assert [a, b][..1] == [a];
    assert Exec(json, [a]) == Do(json, Exec(json, [a][..0]), a);
    assert Exec(json, [a, b]) == Do(json, Exec(json, [a, b][..1]), b);
  }

  lemma DeletedLeavesGhost(json: Json, pool: StoredPool, allocations: Allocations, ok: string -> bool)
    requires ok(pool.name)
    ensures Ghost(json, Exec(json, [TreatPool(pool, AllOk(allocations)), Sweep({}, [pool.name], true, ok)]),
                  pool, allocations)
  {
    var a, b := TreatPool(pool, AllOk(allocations)), Sweep({}, [pool.name], true, ok);
    ExecTwo(json, a, b);
    FirstApply(json, pool, allocations);
    DeletedOnce(Do(json, Fresh, a), pool.name, ok);
  }

  lemma GhostStays(json: Json, w: World, pool: StoredPool, allocations: Allocations)
    requires Ghost(json, w, pool, allocations)
    ensures Treat(json, w, pool, AllOk(allocations)).1 == Some(NoOp)
    ensures Ghost(json, Treat(json, w, pool, AllOk(allocations)).0, pool, allocations)
  {
  }

  lemma {:induction false} GhostForever(json: Json, w: World, pool: StoredPool, allocations: Allocations, n: nat)
    requires Ghost(json, w, pool, allocations)
    ensures Ghost(json, DoTimes(json, w, TreatPool(pool, AllOk(allocations)), n), pool, allocations)
  {
    if n > 0 {
      GhostForever(json, w, pool, allocations, n - 1);
      GhostStays(json, DoTimes(json, w, TreatPool(pool, AllOk(allocations)), n - 1), pool, allocations);
    }
  }

  /** A pool is applied, vanishes, is deleted, and comes back as it was: the Applied
      intent is still on file, so however many passes follow, each answers NoOp
      and the provider has nothing. */
  lemma {:induction false} RecreatedPoolNotReapplied(json: Json, pool: StoredPool, allocations: Allocations, n: nat)
    ensures
      var again := TreatPool(pool, AllOk(allocations));
      var w := Exec(json, AppliedDeleted(pool, allocations) + Times(again, n));
      && Ghost(json, w, pool, allocations)
      && Treat(json, w, pool, AllOk(allocations)).1 == Some(NoOp)
      && Held(w.calls, pool.name, i => false).None?
  {
    var start, again := AppliedDeleted(pool, allocations), TreatPool(pool, AllOk(allocations));
    DeletedLeavesGhost(json, pool, allocations, start[1].ok);
    GhostForever(json, Exec(json, start), pool, allocations, n);
    ExecTimes(json, start, again, n);
    GhostStays(json, Exec(json, start + Times(again, n)), pool, allocations);
    NothingHeld(pool.name, DesiredFingerprint(pool.spec, allocations));
  }

  lemma NothingHeld(name: string, fp: Fingerprint)
    ensures Held([ApplyPool(name, fp, true), DeletePool(name, true)], name, i => false).None?
  {
  }

  // --- Desired states one after another ---

  /** One desired state of a pool after another. */
  datatype Desired = Desired(generation: nat, spec: PoolSpec, allocations: Allocations)

  function PrintOf(d: Desired): Fingerprint {
    DesiredFingerprint(d.spec, d.allocations)
  }

  /** Every call succeeds. */
  function AllOk(allocations: Allocations): Answers {
    Answers(true, true, Some(allocations), true, true, true, true, 0, 0)
  }

  /** A pass over one pool in which every call succeeds. */
  function Next(json: Json, name: string, w: World, d: Desired): World {
    Treat(json, w, StoredPool(name, d.spec, d.generation), AllOk(d.allocations)).0
  }

  /** Such passes, one after another. */
  function Passes(json: Json, name: string, ds: seq<Desired>): World {
    if ds == [] then Fresh
    else Next(json, name, Passes(json, name, ds[..|ds| - 1]), ds[|ds| - 1])
  }

  /** Some earlier pass saw this generation with this fingerprint. */
  predicate Seen(ds: seq<Desired>, d: Desired) {
    exists i | 0 <= i < |ds| :: ds[i].generation == d.generation && PrintOf(ds[i]) == PrintOf(d)
  }

  /** The fingerprint of the last desired state that was new when it came. */
  function LastNew(ds: seq<Desired>): Option<Fingerprint> {
    if ds == [] then None
    else
      var n := |ds| - 1;
      if Seen(ds[..n], ds[n]) then LastNew(ds[..n]) else Some(PrintOf(ds[n]))
  }

  /** Digests tell the fingerprints of this history apart. */
  predicate DigestsDiffer(json: Json, ds: seq<Desired>) {
    forall i, j | 0 <= i < |ds| && 0 <= j < |ds| && Digest(json(PrintOf(ds[i]))) == Digest(json(PrintOf(ds[j]))) ::
      PrintOf(ds[i]) == PrintOf(ds[j])
  }

  function KeyAt(json: Json, name: string, d: Desired): string {
    KeyFor(json, name, d.generation, PrintOf(d))
  }

  /** The outbox holds exactly the rows of the states seen, all Applied. */
  ghost predicate Mirrors(json: Json, name: string, ds: seq<Desired>, m: CS.Intents) {
    && (forall i | 0 <= i < |ds| :: AlreadyApplied(m, KeyAt(json, name, ds[i]), PrintOf(ds[i])))
    && (forall k | k in m :: exists i | 0 <= i < |ds| :: k == KeyAt(json, name, ds[i]))
  }

  lemma SeenIffRow(json: Json, name: string, ds: seq<Desired>, d: Desired, m: CS.Intents)
    requires Mirrors(json, name, ds, m) && DigestsDiffer(json, ds + [d])
    ensures Seen(ds, d) <==> KeyAt(json, name, d) in m
    ensures Seen(ds, d) ==> AlreadyApplied(m, KeyAt(json, name, d), PrintOf(d))
  {
    var all := ds + [d];
    if KeyAt(json, name, d) in m {
      var i :| 0 <= i < |ds| && KeyAt(json, name, d) == KeyAt(json, name, ds[i]);
      PoolKeyInjective(name, d.generation, Digest(json(PrintOf(d))),
                       name, ds[i].generation, Digest(json(PrintOf(ds[i]))));
      assert all[i] == ds[i] && all[|ds|] == d;
    }
    if Seen(ds, d) {
      var i :| 0 <= i < |ds| && ds[i].generation == d.generation && PrintOf(ds[i]) == PrintOf(d);
      assert KeyAt(json, name, ds[i]) == KeyAt(json, name, d);
    }
  }

  /** The one row is there, Applied; if it is new, it is the only one that is. */
  predicate Adds(m: CS.Intents, m': CS.Intents, key: string, fp: Fingerprint) {
    AlreadyApplied(m', key, fp) && (if key in m then m' == m else m' == m[key := m'[key]])
  }

  lemma MirrorsMore(json: Json, name: string, ds: seq<Desired>, d: Desired, m: CS.Intents, m': CS.Intents)
    ensures Mirrors(json, name, ds, m) && Adds(m, m', KeyAt(json, name, d), PrintOf(d))
      ==> Mirrors(json, name, ds + [d], m')
  {
    if !Mirrors(json, name, ds, m) || !Adds(m, m', KeyAt(json, name, d), PrintOf(d)) {
      return;
    }
    var all := ds + [d];
    forall i | 0 <= i < |all| ensures AlreadyApplied(m', KeyAt(json, name, all[i]), PrintOf(all[i])) {
      if i < |ds| {
        assert AlreadyApplied(m, KeyAt(json, name, ds[i]), PrintOf(ds[i]));
      }
    }
    forall k | k in m' ensures exists i | 0 <= i < |all| :: k == KeyAt(json, name, all[i]) {
      if k in m {
        var i :| 0 <= i < |ds| && k == KeyAt(json, name, ds[i]);
        assert all[i] == ds[i];
      } else {
        assert all[|ds|] == d;
      }
    }
  }

  /** A pass in which every call succeeds: nothing for a state with an Applied row,
      an apply and an Applied row for a state without one. */
  lemma OnePass(json: Json, name: string, w: World, d: Desired)
    requires !w.quarantined
    ensures
      var w', key := Next(json, name, w, d), KeyAt(json, name, d);
      && !w'.quarantined
      && (AlreadyApplied(w.intents, key, PrintOf(d)) ==> w'.intents == w.intents && w'.calls == w.calls)
      && (key !in w.intents ==>
            && AlreadyApplied(w'.intents, key, PrintOf(d))
            && w'.intents == w.intents[key := w'.intents[key]]
            && w'.calls == w.calls + [ApplyPool(name, PrintOf(d), true)])
  {
  }

  lemma HeldAfter(calls: seq<PoolCall>, name: string, fp: Fingerprint, landed: nat -> bool)
    ensures Held(calls + [ApplyPool(name, fp, true)], name, landed) == Some(fp)
  {
  }

  lemma PassMirrors(json: Json, name: string, w: World, ds: seq<Desired>, d: Desired, all: seq<Desired>)
    requires !w.quarantined && Mirrors(json, name, ds, w.intents)
    requires all == ds + [d] && DigestsDiffer(json, all)
    ensures
      var w' := Next(json, name, w, d);
      && !w'.quarantined
      && Mirrors(json, name, all, w'.intents)
      && w'.calls == w.calls + if Seen(ds, d) then [] else [ApplyPool(name, PrintOf(d), true)]
  {
    SeenIffRow(json, name, ds, d, w.intents);
    OnePass(json, name, w, d);
    MirrorsMore(json, name, ds, d, w.intents, Next(json, name, w, d).intents);
  }

  lemma DigestsDifferFront(json: Json, ds: seq<Desired>)
    requires DigestsDiffer(json, ds) && ds != []
    ensures DigestsDiffer(json, ds[..|ds| - 1])
  {
    var rest := ds[..|ds| - 1];
    assert forall i | 0 <= i < |rest| :: rest[i] == ds[i];
  }

  lemma {:induction false} PassesMirror(json: Json, name: string, ds: seq<Desired>)
    requires DigestsDiffer(json, ds)
    ensures !Passes(json, name, ds).quarantined && Mirrors(json, name, ds, Passes(json, name, ds).intents)
    decreases |ds|
  {
    if ds != [] {
      var rest, d := ds[..|ds| - 1], ds[|ds| - 1];
      assert ds == rest + [d];
      DigestsDifferFront(json, ds);
      PassesMirror(json, name, rest);
      PassMirrors(json, name, Passes(json, name, rest), rest, d, ds);
    }
  }

  /** The last pass calls the provider exactly for a new state. */
  lemma LastPassCalls(json: Json, name: string, ds: seq<Desired>)
    requires DigestsDiffer(json, ds) && ds != []
    ensures
      var rest, d := ds[..|ds| - 1], ds[|ds| - 1];
      Passes(json, name, ds).calls
      == Passes(json, name, rest).calls + if Seen(rest, d) then [] else [ApplyPool(name, PrintOf(d), true)]
  {
    var rest, d := ds[..|ds| - 1], ds[|ds| - 1];
    assert ds == rest + [d];
    DigestsDifferFront(json, ds);
    PassesMirror(json, name, rest);
    PassMirrors(json, name, Passes(json, name, rest), rest, d, ds);
  }

  lemma {:induction false} PassesHold(json: Json, name: string, ds: seq<Desired>, landed: nat -> bool)
    requires DigestsDiffer(json, ds)
    ensures Held(Passes(json, name, ds).calls, name, landed) == LastNew(ds)
    decreases |ds|
  {
    if ds != [] {
      var rest, d := ds[..|ds| - 1], ds[|ds| - 1];
      var calls := Passes(json, name, rest).calls;
      DigestsDifferFront(json, ds);
      PassesHold(json, name, rest, landed);
      LastPassCalls(json, name, ds);
      HeldAfter(calls, name, PrintOf(d), landed);
      assert calls + [] == calls;
    }
  }

  /** State `j` of the history had not been seen when it came. */
  predicate New(ds: seq<Desired>, j: nat)
    requires j < |ds|
  {
    !Seen(ds[..j], ds[j])
  }

  lemma {:induction false} LastNewIs(ds: seq<Desired>) returns (m: nat)
    requires ds != []
    ensures m < |ds| && New(ds, m) && LastNew(ds) == Some(PrintOf(ds[m]))
    ensures forall j | m < j < |ds| :: !New(ds, j)
    decreases |ds|
  {
    var n := |ds| - 1;
    if New(ds, n) {
      m := n;
    } else {
      assert ds[..n] != [];
      m := LastNewIs(ds[..n]);
      assert ds[..n][..m] == ds[..m];
      forall j | m < j < |ds| ensures !New(ds, j) {
        if j < n {
          assert ds[..n][..j] == ds[..j] && !New(ds[..n], j);
        }
      }
    }
  }

  /** After passes that all succeed the provider holds the last desired state if and
      only if every new state with another fingerprint was followed by a new one
      with this fingerprint. */
  lemma {:induction false} HoldsDesiredIff(json: Json, name: string, ds: seq<Desired>, landed: nat -> bool)
    requires DigestsDiffer(json, ds) && ds != []
    ensures
      var fp := PrintOf(ds[|ds| - 1]);
      Held(Passes(json, name, ds).calls, name, landed) == Some(fp)
      <==> forall j | 0 <= j < |ds| && New(ds, j) && PrintOf(ds[j]) != fp ::
             exists j' | j < j' < |ds| :: New(ds, j') && PrintOf(ds[j']) == fp
  {
    var fp := PrintOf(ds[|ds| - 1]);
    PassesHold(json, name, ds, landed);
    var m := LastNewIs(ds);
    if PrintOf(ds[m]) == fp {
      forall j | 0 <= j < |ds| && New(ds, j) && PrintOf(ds[j]) != fp
        ensures exists j' | j < j' < |ds| :: New(ds, j') && PrintOf(ds[j']) == fp
      {
        assert j < m;
      }
    }
  }

  predicate SameState(a: Desired, b: Desired) {
    a.generation == b.generation && PrintOf(a) == PrintOf(b)
  }

  /** `k` is where the last desired state first showed. */
  predicate FirstShown(ds: seq<Desired>, k: nat) {
    && k < |ds| && SameState(ds[k], ds[|ds| - 1])
    && forall j | 0 <= j < k :: !SameState(ds[j], ds[|ds| - 1])
  }

  predicate GenerationsRise(ds: seq<Desired>) {
    forall i, j | 0 <= i < j < |ds| :: ds[i].generation <= ds[j].generation
  }

  /** While the stored pool lives its generation only rises. Then it is exactly: no
      new state came after the current one first showed. */
  lemma {:induction false} HoldsDesiredWhileItLives(json: Json, name: string, ds: seq<Desired>, k: nat,
                                                    landed: nat -> bool)
    requires DigestsDiffer(json, ds) && GenerationsRise(ds) && FirstShown(ds, k)
    ensures Held(Passes(json, name, ds).calls, name, landed) == Some(PrintOf(ds[|ds| - 1]))
      <==> forall j | k < j < |ds| :: !New(ds, j)
    ensures Held(Passes(json, name, ds).calls, name, landed) == Some(PrintOf(ds[|ds| - 1]))
      <==> forall j | k < j < |ds| && New(ds, j) :: PrintOf(ds[j]) == PrintOf(ds[|ds| - 1])
  {
    PassesHold(json, name, ds, landed);
    LastNewWhileItLives(ds, k);
    forall j | k < j < |ds| && New(ds, j) ensures PrintOf(ds[j]) != PrintOf(ds[|ds| - 1]) {
      LaterNewDiffers(ds, k, j);
    }
  }

  lemma LastNewWhileItLives(ds: seq<Desired>, k: nat)
    requires GenerationsRise(ds) && FirstShown(ds, k)
    ensures LastNew(ds) == Some(PrintOf(ds[|ds| - 1])) <==> forall j | k < j < |ds| :: !New(ds, j)
  {
    var m := LastNewIs(ds);
    FirstIsNew(ds, k);
    assert k <= m;
    if k < m {
      LaterNewDiffers(ds, k, m);
    }
  }

  lemma FirstIsNew(ds: seq<Desired>, k: nat)
    requires FirstShown(ds, k)
    ensures New(ds, k)
  {
    assert forall i | 0 <= i < k :: ds[..k][i] == ds[i] && !SameState(ds[i], ds[|ds| - 1]);
  }

  /** Between the first showing and the last the generation stands still, so what is
      new there has another fingerprint. */
  lemma LaterNewDiffers(ds: seq<Desired>, k: nat, m: nat)
    requires GenerationsRise(ds) && FirstShown(ds, k) && k < m < |ds| && New(ds, m)
    ensures PrintOf(ds[m]) != PrintOf(ds[|ds| - 1])
  {
    assert ds[k].generation <= ds[m].generation && (m == |ds| - 1 || ds[m].generation <= ds[|ds| - 1].generation);
    assert ds[..m][k] == ds[k];
  }

  /** An allocation change and its reversal in one generation: the third pass is a
      no-op, and the provider keeps the state in between. */
  lemma {:induction false} ReversalNotReapplied(json: Json, name: string, a: Desired, b: Desired, landed: nat -> bool)
    requires a.generation == b.generation && DigestsDiffer(json, [a, b, a]) && PrintOf(a) != PrintOf(b)
    ensures Held(Passes(json, name, [a, b, a]).calls, name, landed) == Some(PrintOf(b))
  {
    PassesHold(json, name, [a, b, a], landed);
    LastNewOfReversal(a, b);
  }

  lemma LastNewOfReversal(a: Desired, b: Desired)
    requires PrintOf(a) != PrintOf(b)
    ensures LastNew([a, b, a]) == Some(PrintOf(b))
  {
    var ds := [a, b, a];
    assert ds[..2] == [a, b] && [a, b][..1] == [a];
    assert Seen([a, b], a) by {
      assert [a, b][0] == a;
    }
    assert !Seen([a], b);
  }
}
