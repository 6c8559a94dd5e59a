/** Fencing with nothing held fixed: rows may be removed and created again, owners
    and engines may change. Then one key can carry two specs, and exactly a
    reaped intent makes room for that. */
module IntentReuse {
  import opened Types
  import opened Keys
  import opened Reconcile
  import opened Outbox
  import CS = ClusterStore

  /** Event `b` is the begin that let pass `p` go on to apply the row `c`. */
  predicate Opens(es: seq<Event>, b: nat, p: nat, c: StoredCluster) {
    && b < |es| && es[b].Reconcile? && es[b].p == p && es[b].call.Begin?
    && var s := Exec(Empty, es[..b]); p in s.passes && s.passes[p].pc == Granted(c) && !Refused(s, c)
  }

  /** Event `a` is an apply of the row `c` by pass `p`, which may or may not succeed. */
  predicate Applies(es: seq<Event>, a: nat, p: nat, c: StoredCluster) {
    && a < |es| && es[a].Reconcile? && es[a].p == p && es[a].call.ProviderApply?
    && var s := Exec(Empty, es[..a]); Enabled(s, es[a]) && s.passes[p].pc == Postured(c)
  }

  /** Event `k` reaps the intent on file under `key`. */
  predicate Reaps(es: seq<Event>, k: nat, key: string) {
    && k < |es| && es[k].ReapIntents?
    && key in Exec(Empty, es[..k]).tables.intents && key !in Exec(Empty, es[..k + 1]).tables.intents
  }

  predicate HasOpened(s: Plane, p: nat, c: StoredCluster) {
    p in s.passes && (s.passes[p].pc == Opened(c) || s.passes[p].pc == Postured(c))
  }

  lemma OpenedBefore(s: Plane, e: Event, p: nat, c: StoredCluster)
    requires HasOpened(Do(s, e), p, c)
    ensures HasOpened(s, p, c)
      || (e.Reconcile? && e.p == p && e.call.Begin? && p in s.passes && s.passes[p].pc == Granted(c) && !Refused(s, c))
  {
    if Enabled(s, e) && e.Reconcile? && e.p == p {
      var pc := PassAfter(s, s.passes[p], e.call).pc;
      assert pc == Opened(c) ==> e.call.Begin?;
      assert pc == Postured(c) ==> e.call.Posture?;
    }
  }

  lemma {:induction false} OpenedByBegin(es: seq<Event>, p: nat, c: StoredCluster) returns (b: nat)
    requires HasOpened(Exec(Empty, es), p, c)
    ensures Opens(es, b, p, c)
    ensures forall n | b < n <= |es| :: HasOpened(Exec(Empty, es[..n]), p, c)
    decreases |es|
  {
    assert es[..|es|] == es;
    var n := |es| - 1;
    var before := Exec(Empty, es[..n]);
    OpenedBefore(before, es[n], p, c);
    if HasOpened(before, p, c) {
      b := OpenedByBegin(es[..n], p, c);
      assert es[..n][..b] == es[..b];
      assert forall i | b < i <= n :: es[..n][..i] == es[..i];
    } else {
      b := n;
    }
  }

  /** No step rewrites the fingerprint of an intent on file, and only a reap drops one. */
  lemma IntentStays(s: Plane, e: Event, key: string)
    requires key in s.tables.intents
    ensures var m := Do(s, e).tables.intents;
      if key in m then m[key].paramsFingerprint == s.tables.intents[key].paramsFingerprint else e.ReapIntents?
  {
    if Enabled(s, e) {
      match e
      case Reconcile(p, call) => CallKeepsIntent(s.tables.intents, s.passes[p].pc, call, key);
      case ReconcilePool(p, call) => PoolCallKeepsIntent(s, p, call, key);
      case _ =>
    }
  }

  predicate SameFingerprint(m: CS.Intents, m': CS.Intents, key: string) {
    key in m ==> key in m' && m'[key].paramsFingerprint == m[key].paramsFingerprint
  }

  lemma CallKeepsIntent(m: CS.Intents, pc: Pc, call: PassCall, key: string)
    ensures SameFingerprint(m, IntentsAfter(m, pc, call), key)
  {}

  lemma PoolCallKeepsIntent(s: Plane, p: nat, call: PoolCall, key: string)
    requires PoolCallEnabled(s, p, call)
    ensures SameFingerprint(s.tables.intents, AfterPoolCall(s, p, call).tables.intents, key)
  {}

  /** An intent that is gone, or on file with another spec, was reaped on the way. */
  lemma {:induction false} ReapedBetween(es: seq<Event>, i: nat, key: string) returns (k: nat)
    requires i <= |es| && key in Exec(Empty, es[..i]).tables.intents
    requires var m, m' := Exec(Empty, es[..i]).tables.intents, Exec(Empty, es).tables.intents;
      key !in m' || m'[key].paramsFingerprint != m[key].paramsFingerprint
    ensures i <= k < |es| && Reaps(es, k, key)
    decreases |es|
  {
    assert es[..|es|] == es;
    var n := |es| - 1;
    var rest := es[..n];
    var m, m1 := Exec(Empty, es[..i]).tables.intents, Exec(Empty, rest).tables.intents;
    assert rest[..i] == es[..i];
    if key in m1 && m1[key].paramsFingerprint == m[key].paramsFingerprint {
      IntentStays(Exec(Empty, rest), es[n], key);
      assert es[..n + 1] == es;
      k := n;
    } else {
      k := ReapedBetween(rest, i, key);
      assert rest[..k] == es[..k] && rest[..k + 1] == es[..k + 1];
    }
  }

  /** Two begins under one key for different specs: its intent was reaped between them. */
  lemma ReapedBetweenBegins(es: seq<Event>, b: nat, p: nat, c: StoredCluster, b': nat, p': nat, c': StoredCluster)
    returns (k: nat)
    requires b < b' && Opens(es, b, p, c) && Opens(es, b', p', c')
    requires IntentKey(c) == IntentKey(c') && c.spec != c'.spec
    ensures b < k < b' && Reaps(es, k, IntentKey(c))
  {
    var key, prefix := IntentKey(c), es[..b'];
    BeginFiles(es, b, p, c);
    assert prefix[..b + 1] == es[..b + 1];
    k := ReapedBetween(prefix, b + 1, key);
    assert prefix[..k] == es[..k] && prefix[..k + 1] == es[..k + 1];
  }

  lemma BeginFiles(es: seq<Event>, b: nat, p: nat, c: StoredCluster)
    requires Opens(es, b, p, c)
    ensures var m := Exec(Empty, es[..b + 1]).tables.intents;
      IntentKey(c) in m && m[IntentKey(c)].paramsFingerprint == SpecText(c.spec)
  {
    ExecTake(Empty, es, b);
  }

  /** Over every run, removals, re-creations and changes of owner and engine
      included: two applies under one key are of one id and generation, and if
      their specs differ the key's intent was reaped between the two begins
      that let them go on. */
  lemma DifferentAppliesNeedAReap(es: seq<Event>, i: nat, p: nat, c: StoredCluster, j: nat, p': nat, c': StoredCluster)
    returns (b: nat, b': nat, k: nat)
    requires Applies(es, i, p, c) && Applies(es, j, p', c')
    requires IntentKey(c) == IntentKey(c')
    ensures c.id == c'.id && c.generation == c'.generation
    ensures b < i && Opens(es, b, p, c) && forall n | b < n <= i :: HasOpened(Exec(Empty, es[..n]), p, c)
    ensures b' < j && Opens(es, b', p', c') && forall n | b' < n <= j :: HasOpened(Exec(Empty, es[..n]), p', c')
    ensures c.spec != c'.spec ==> (b < k < b' || b' < k < b) && Reaps(es, k, IntentKey(c))
  {
    ClusterKeyInjective(c.id, c.generation, c'.id, c'.generation);
    b := OpenedByBegin(es[..i], p, c);
    b' := OpenedByBegin(es[..j], p', c');
    assert es[..i][..b] == es[..b] && es[..j][..b'] == es[..b'];
    assert forall n | b < n <= i :: es[..i][..n] == es[..n];
    assert forall n | b' < n <= j :: es[..j][..n] == es[..n];
    k := 0;
    if c.spec != c'.spec {
      assert b != b';
      if b < b' {
        k := ReapedBetweenBegins(es, b, p, c, b', p', c');
      } else {
        k := ReapedBetweenBegins(es, b', p', c', b, p, c);
      }
    }
  }
}
