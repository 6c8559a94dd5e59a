/** Where fencing stops: when the pass after a write is refused, and concrete runs
    that break it once an owner changes, a row is re-created or two loops run. */
module FencingLimits {
  import opened Types
  import opened Keys
  import opened Reconcile
  import opened Outbox
  import BootFence
  import CS = ClusterStore

  /** A write over a row whose intent on file was opened with the spec `was`, the
      row's own or one whose engine or owner it has changed since: the next pass
      is refused if and only if the write leaves the generation alone and its
      engine or owner is not that of `was`. */
  lemma ReuseRefusedIff(t: CS.Tables, id: Id, was: ClusterSpec, spec: ClusterSpec, now: nat)
    requires id in t.clusters && t.clusters[id].id == id
    requires var c := t.clusters[id];
      && IntentKey(c) in t.intents && t.intents[IntentKey(c)].paramsFingerprint == SpecText(was)
      && !SpecChanged(was, c.spec)
      && ClusterKey(id, c.generation + 1) !in t.intents
    ensures var c' := CS.Upsert(t.clusters, id, spec, now)[id];
      CS.BeginOutcome(t.intents, IntentKey(c'), SpecText(c'.spec)).ParamMismatch?
      <==> !SpecChanged(t.clusters[id].spec, spec) && (spec.engine != was.engine || spec.owner != was.owner)
  {
    UnchangedSpecFingerprint(was, t.clusters[id].spec);
    UnchangedSpecFingerprint(t.clusters[id].spec, spec);
    UnchangedSpecFingerprint(was, spec);
  }

  // --- Concrete runs ---

  lemma ExecOne(s: Plane, e: Event)
    ensures Exec(s, [e]) == Do(s, e)
  {
    assert [e][..0] == [];
  }

  /** Pass `p` over the single row `c`, up to the opened intent. */
  function UpToIntent(p: nat, c: StoredCluster): seq<Event> {
    [List(p, 0, [c]), Reconcile(p, Observe), Reconcile(p, CheckQuarantine), Reconcile(p, Resolve(false, "")),
     Reconcile(p, TakeToken(true)), Reconcile(p, Begin(0))]
  }

  /** A lone row that wants to run and has nothing provisioned at its generation. */
  predicate Startable(s: Plane, p: nat, c: StoredCluster) {
    && s.tables.clusters == map[c.id := c] && p !in s.passes && !s.tables.quarantined
    && c.id !in s.backing && c.desired.WantRunning? && c.nextAttemptAt == 0
  }

  lemma PassReachesOutbox(s: Plane, p: nat, c: StoredCluster)
    requires Startable(s, p, c)
    ensures var s' := Exec(s, UpToIntent(p, c));
      && (Refused(s, c) ==> s'.stale == s.stale + 1)
      && (!Refused(s, c) ==>
            && s'.stale == s.stale && p in s'.passes && s'.passes == s.passes[p := Pass([], 0, Opened(c))]
            && s'.tables == s.tables.(intents := CS.BeginIntent(s.tables.intents, IntentKey(c), SpecText(c.spec), 0)))
      && s'.backing == s.backing && s'.calls == s.calls
  {
    ExecSix(s, UpToIntent(p, c));
    PassReachesDecision(s, p, c);
    DecisionReachesOutbox(s, p, c);
  }

  lemma ExecSix(s: Plane, es: seq<Event>)
    requires |es| == 6
    ensures Exec(s, es) == Do(Do(Do(Do(Do(Do(s, es[0]), es[1]), es[2]), es[3]), es[4]), es[5])
  {
    assert es[..0] == [] && es[..6] == es;
    ExecTake(s, es, 0);
    ExecTake(s, es, 1);
    ExecTake(s, es, 2);
    ExecTake(s, es, 3);
    ExecTake(s, es, 4);
    ExecTake(s, es, 5);
  }

  function At(s: Plane, p: nat, pass: Pass): Plane {
    s.(passes := s.passes[p := pass])
  }

  lemma AtTwice(s: Plane, p: nat, a: Pass, b: Pass)
    ensures At(At(s, p, a), p, b) == At(s, p, b)
  {
    assert s.passes[p := a][p := b] == s.passes[p := b];
  }

  lemma PassReachesDecision(s: Plane, p: nat, c: StoredCluster)
    requires Startable(s, p, c)
    ensures Do(Do(Do(Do(s, List(p, 0, [c])), Reconcile(p, Observe)), Reconcile(p, CheckQuarantine)),
               Reconcile(p, Resolve(false, "")))
      == At(s, p, Pass([], 0, Decided(c, Apply)))
  {
    ListStep(s, p, c);
    QuietStep(s, p, Pass([c], 0, Top), Observe);
    assert [c][1..] == [];
    QuietStep(s, p, Pass([], 0, Seen(c, None)), CheckQuarantine);
    QuietStep(s, p, Pass([], 0, Cleared(c, None)), Resolve(false, ""));
  }

  lemma ListStep(s: Plane, p: nat, c: StoredCluster)
    requires Startable(s, p, c)
    ensures Do(s, List(p, 0, [c])) == At(s, p, Pass([c], 0, Top))
  {
    assert ListsAll(s.tables.clusters, [c]);
  }

  /** A call that only reads moves the pass and nothing else. */
  lemma QuietStep(s: Plane, p: nat, pass: Pass, call: PassCall)
    requires CallEnabled(At(s, p, pass), pass, call) && (call.Observe? || call.CheckQuarantine? || call.Resolve?)
    ensures Do(At(s, p, pass), Reconcile(p, call)) == At(s, p, PassAfter(At(s, p, pass), pass, call))
  {
    var s' := At(s, p, pass);
    assert s'.calls + [] == s'.calls;
    AtTwice(s, p, pass, PassAfter(s', pass, call));
  }

  lemma TokenStep(s: Plane, p: nat, c: StoredCluster)
    ensures Do(At(s, p, Pass([], 0, Decided(c, Apply))), Reconcile(p, TakeToken(true)))
      == At(s, p, Pass([], 0, Granted(c))).(granted := s.granted + 1)
  {
    AtTwice(s, p, Pass([], 0, Decided(c, Apply)), Pass([], 0, Granted(c)));
    assert s.calls + [] == s.calls;
  }

  lemma DecisionReachesOutbox(s: Plane, p: nat, c: StoredCluster)
    ensures var s' := Do(Do(At(s, p, Pass([], 0, Decided(c, Apply))), Reconcile(p, TakeToken(true))),
                         Reconcile(p, Begin(0)));
      && (Refused(s, c) ==> s'.stale == s.stale + 1)
      && (!Refused(s, c) ==>
            && s'.stale == s.stale && s'.passes == s.passes[p := Pass([], 0, Opened(c))]
            && s'.tables == s.tables.(intents := CS.BeginIntent(s.tables.intents, IntentKey(c), SpecText(c.spec), 0)))
      && s'.backing == s.backing && s'.calls == s.calls
  {
    TokenStep(s, p, c);
    AtTwice(s, p, Pass([], 0, Granted(c)), Pass([], 0, Opened(c)));
    assert s.calls + [] == s.calls;
  }

  function SampleSpec(image: string, owner: Option<string>): ClusterSpec {
    ClusterSpec("c", "p", Ray, "2.57.0", image, "1", "2Gi", [], None, None, owner)
  }

  function FreshRow(spec: ClusterSpec): StoredCluster {
    StoredCluster("c", spec, 1, WantRunning, None, 0, None, 0, 0, 0, None)
  }

  /** Ownership moves from one caller to another with no other change: the pass
      after the write is refused. */
  lemma OwnerChangeGoesStale()
    ensures var a, b := SampleSpec("i", Some("ann")), SampleSpec("i", Some("bob"));
      Exec(Empty, [Upsert("c", a, 0)] + UpToIntent(0, FreshRow(a)) + [Upsert("c", b, 0)]
                  + UpToIntent(1, FreshRow(b))).stale == 1
  {
    var a, b := SampleSpec("i", Some("ann")), SampleSpec("i", Some("bob"));
    SecondWriteGoesStale(a, b, [Upsert("c", b, 0)]);
  }

  /** A row is removed and created again under another image before its old
      intent is reaped: the pass after the re-creation is refused. */
  lemma RecreatedRowGoesStale()
    ensures var a, b := SampleSpec("i", None), SampleSpec("j", None);
      Exec(Empty, [Upsert("c", a, 0)] + UpToIntent(0, FreshRow(a)) + [Remove("c"), Upsert("c", b, 0)]
                  + UpToIntent(1, FreshRow(b))).stale == 1
  {
    var a, b := SampleSpec("i", None), SampleSpec("j", None);
    SecondWriteGoesStale(a, b, [Remove("c"), Upsert("c", b, 0)]);
  }

  lemma SecondWriteGoesStale(a: ClusterSpec, b: ClusterSpec, writes: seq<Event>)
    requires a != b
    requires (writes == [Upsert("c", b, 0)] && !SpecChanged(a, b)) || writes == [Remove("c"), Upsert("c", b, 0)]
    ensures Exec(Empty, [Upsert("c", a, 0)] + UpToIntent(0, FreshRow(a)) + writes
                        + UpToIntent(1, FreshRow(b))).stale == 1
  {
    var up := [Upsert("c", a, 0)];
    var s1 := Exec(Empty, up);
    ExecOne(Empty, up[0]);
    assert s1.tables.clusters == map["c" := FreshRow(a)];
    PassReachesOutbox(s1, 0, FreshRow(a));
    ExecAppend(Empty, up, UpToIntent(0, FreshRow(a)));
    var s2 := Exec(s1, UpToIntent(0, FreshRow(a)));
    var s3 := Exec(s2, writes);
    if |writes| == 1 {
      ExecOne(s2, writes[0]);
    } else {
      assert writes[..1] == [writes[0]];
      ExecOne(s2, writes[0]);
    }
    assert s3.tables.clusters == map["c" := FreshRow(b)];
    ExecAppend(Empty, up + UpToIntent(0, FreshRow(a)), writes);
    PassReachesOutbox(s3, 1, FreshRow(b));
    ExecAppend(Empty, up + UpToIntent(0, FreshRow(a)) + writes, UpToIntent(1, FreshRow(b)));
  }

  function RowOne(): StoredCluster { FreshRow(SampleSpec("i", None)) }

  function RowTwo(): StoredCluster { FreshRow(SampleSpec("j", None)).(generation := 2) }

  function BothOpen(): seq<Event> {
    [Upsert("c", RowOne().spec, 0)] + UpToIntent(0, RowOne()) + [Upsert("c", RowTwo().spec, 0)]
    + UpToIntent(1, RowTwo())
  }

  lemma BothPassesOpen()
    ensures var s := Exec(Empty, BothOpen());
      && 0 in s.passes && s.passes[0] == Pass([], 0, Opened(RowOne()))
      && 1 in s.passes && s.passes[1] == Pass([], 0, Opened(RowTwo()))
  {
    var first, second := [Upsert("c", RowOne().spec, 0)], [Upsert("c", RowTwo().spec, 0)];
    var s1 := Exec(Empty, first);
    ExecOne(Empty, first[0]);
    assert s1.tables.clusters == map["c" := RowOne()];
    PassReachesOutbox(s1, 0, RowOne());
    ExecAppend(Empty, first, UpToIntent(0, RowOne()));
    var s2 := Exec(s1, UpToIntent(0, RowOne()));
    ExecOne(s2, second[0]);
    var s3 := Exec(s2, second);
    assert s3.tables.clusters == map["c" := RowTwo()];
    ExecAppend(Empty, first + UpToIntent(0, RowOne()), second);
    if ClusterKey("c", 1) == ClusterKey("c", 2) {
      ClusterKeyInjective("c", 1, "c", 2);
    }
    PassReachesOutbox(s3, 1, RowTwo());
    ExecAppend(Empty, first + UpToIntent(0, RowOne()) + second, UpToIntent(1, RowTwo()));
  }

  function Stamped(g: nat): Backing { Backing(Running, Some(g), None) }

  function NewerLands(): seq<Event> {
    [Reconcile(0, Posture), Reconcile(1, Posture), Reconcile(1, ProviderApply(true, true, Stamped(2)))]
  }

  /** With two loops at once the older pass can land last: the provider falls
      from generation 2 back to generation 1. */
  lemma TwoLoopsLowerAGeneration()
    ensures var s := Exec(Empty, BothOpen() + NewerLands());
      BootFence.Stamp(Do(s, Reconcile(0, ProviderApply(true, true, Stamped(1)))), "c") < BootFence.Stamp(s, "c")
  {
    var land, s := NewerLands(), Exec(Empty, BothOpen());
    BothPassesOpen();
    ExecAppend(Empty, BothOpen(), land);
    assert land[..0] == [] && land[..3] == land;
    ExecTake(s, land, 0);
    ExecTake(s, land, 1);
    ExecTake(s, land, 2);
    OldPassLandsLast(s, RowOne(), RowTwo(), Stamped(1), Stamped(2));
  }

  lemma PostureStep(s: Plane, p: nat, c: StoredCluster)
    requires p in s.passes && s.passes[p] == Pass([], 0, Opened(c))
    ensures Do(s, Reconcile(p, Posture))
      == s.(passes := s.passes[p := Pass([], 0, Postured(c))], calls := s.calls + [PostureCall])
  {}

  lemma ApplyStep(s: Plane, p: nat, c: StoredCluster, made: Backing)
    requires p in s.passes && s.passes[p] == Pass([], 0, Postured(c)) && made.generation == Some(c.generation)
    ensures Do(s, Reconcile(p, ProviderApply(true, true, made)))
      == s.(backing := s.backing[c.id := made], passes := s.passes[p := Pass([], 0, Answered(c))],
            calls := s.calls + [ApplyCall(IntentKey(c), c.id, c.spec, c.generation)])
  {}

  lemma OldPassLandsLast(s: Plane, older: StoredCluster, newer: StoredCluster, made1: Backing, made2: Backing)
    requires 0 in s.passes && s.passes[0] == Pass([], 0, Opened(older))
    requires 1 in s.passes && s.passes[1] == Pass([], 0, Opened(newer))
    requires older.id == newer.id == "c" && older.generation == 1 && newer.generation == 2
    requires made1.generation == Some(1) && made2.generation == Some(2)
    ensures var s3 := Do(Do(Do(s, Reconcile(0, Posture)), Reconcile(1, Posture)),
                         Reconcile(1, ProviderApply(true, true, made2)));
      BootFence.Stamp(Do(s3, Reconcile(0, ProviderApply(true, true, made1))), "c") < BootFence.Stamp(s3, "c")
  {
    PostureStep(s, 0, older);
    var s1 := Do(s, Reconcile(0, Posture));
    PostureStep(s1, 1, newer);
    var s2 := Do(s1, Reconcile(1, Posture));
    ApplyStep(s2, 1, newer, made2);
    ApplyStep(Do(s2, Reconcile(1, ProviderApply(true, true, made2))), 0, older, made1);
  }

  // --- A reaped intent makes room for another spec ---

  function ApplyAll(p: nat, made: Backing): seq<Event> {
    [Reconcile(p, Posture), Reconcile(p, ProviderApply(true, true, made))]
  }

  lemma ApplyAllRuns(s: Plane, p: nat, c: StoredCluster, made: Backing)
    requires p in s.passes && s.passes[p] == Pass([], 0, Opened(c)) && made.generation == Some(c.generation)
    ensures Exec(s, ApplyAll(p, made))
      == s.(backing := s.backing[c.id := made], passes := s.passes[p := Pass([], 0, Answered(c))],
            calls := s.calls + [PostureCall, ApplyCall(IntentKey(c), c.id, c.spec, c.generation)])
  {
    var es := ApplyAll(p, made);
    assert es[..0] == [] && es[..2] == es;
    ExecTake(s, es, 0);
    ExecTake(s, es, 1);
    PostureStep(s, p, c);
    ApplyStep(Do(s, es[0]), p, c, made);
    assert s.passes[p := Pass([], 0, Postured(c))][p := Pass([], 0, Answered(c))]
      == s.passes[p := Pass([], 0, Answered(c))];
    var apply := ApplyCall(IntentKey(c), c.id, c.spec, c.generation);
    assert s.calls + [PostureCall] + [apply] == s.calls + [PostureCall, apply];
  }

  function Ann(): ClusterSpec { SampleSpec("i", Some("ann")) }

  function Bob(): ClusterSpec { SampleSpec("i", Some("bob")) }

  /** Two passes open the same row; the second goes on, completes, and leaves. */
  function SharedRow(): seq<Event> {
    [Upsert("c", Ann(), 0)] + UpToIntent(0, FreshRow(Ann())) + UpToIntent(1, FreshRow(Ann())) + ApplyAll(1, Stamped(1))
    + [Reconcile(1, Complete("", 0))]
  }

  /** Its intent is reaped, the cluster is lost, the owner changes. */
  function RoomMade(): seq<Event> {
    [ReapIntents(1), OutOfBand("c", None), Upsert("c", Bob(), 0)]
  }

  function OneApply(spec: ClusterSpec): seq<Call> {
    [PostureCall, ApplyCall(ClusterKey("c", 1), "c", spec, 1)]
  }

  lemma SharedRowState()
    ensures var s := Exec(Empty, SharedRow());
      && s.tables.clusters == map["c" := FreshRow(Ann())] && !s.tables.quarantined && s.stale == 0
      && s.tables.intents.Keys == {ClusterKey("c", 1)}
      && CS.Reapable(s.tables.intents[ClusterKey("c", 1)], 1)
      && s.passes.Keys == {0, 1} && s.passes[0] == Pass([], 0, Opened(FreshRow(Ann())))
      && s.calls == OneApply(Ann()) && s.backing == map["c" := Stamped(1)]
  {
    var c := FreshRow(Ann());
    var es1 := [Upsert("c", Ann(), 0)];
    var s1 := Exec(Empty, es1);
    ExecOne(Empty, es1[0]);
    assert s1.tables.clusters == map["c" := c];
    PassReachesOutbox(s1, 0, c);
    var s2 := Exec(s1, UpToIntent(0, c));
    ExecAppend(Empty, es1, UpToIntent(0, c));
    PassReachesOutbox(s2, 1, c);
    var s3 := Exec(s2, UpToIntent(1, c));
    ExecAppend(Empty, es1 + UpToIntent(0, c), UpToIntent(1, c));
    ApplyAllRuns(s3, 1, c, Stamped(1));
    ExecAppend(Empty, es1 + UpToIntent(0, c) + UpToIntent(1, c), ApplyAll(1, Stamped(1)));
    var s4 := Exec(s3, ApplyAll(1, Stamped(1)));
    ExecOne(s4, Reconcile(1, Complete("", 0)));
    ExecAppend(Empty, es1 + UpToIntent(0, c) + UpToIntent(1, c) + ApplyAll(1, Stamped(1)),
               [Reconcile(1, Complete("", 0))]);
    CompleteStep(s4, 1, c);
  }

  lemma CompleteStep(s: Plane, p: nat, c: StoredCluster)
    requires p in s.passes && s.passes[p] == Pass([], 0, Answered(c))
    ensures Do(s, Reconcile(p, Complete("", 0)))
      == WithIntents(s, CS.CompleteIntent(s.tables.intents, IntentKey(c), "", 0))
         .(passes := s.passes[p := Pass([], 0, Acted(c, Applied, None))])
  {
    assert s.calls + [] == s.calls;
  }

  lemma RoomMadeState()
    ensures var s := Exec(Empty, SharedRow() + RoomMade());
      && s.tables.clusters == map["c" := FreshRow(Bob())] && !s.tables.quarantined && s.stale == 0
      && s.tables.intents == map[]
      && s.passes.Keys == {0, 1} && s.passes[0] == Pass([], 0, Opened(FreshRow(Ann())))
      && s.calls == OneApply(Ann()) && s.backing == map[]
  {
    SharedRowState();
    var s, es := Exec(Empty, SharedRow()), RoomMade();
    ExecAppend(Empty, SharedRow(), es);
    assert es[..0] == [] && es[..3] == es;
    ExecTake(s, es, 0);
    ExecTake(s, es, 1);
    ExecTake(s, es, 2);
    assert CS.ReapIntents(s.tables.intents, 1) == map[];
    UnchangedSpecFingerprint(Ann(), Bob());
  }

  /** Reap the Applied intent of a row, change its owner at the same generation,
      and one key carries two specs with nobody refused. The last two applies
      have no reap between them: the earlier one was let go before it. */
  lemma OneKeyTwoSpecs()
    ensures var s := Exec(Empty, SharedRow() + RoomMade() + UpToIntent(2, FreshRow(Bob()))
                                 + ApplyAll(0, Stamped(1)) + ApplyAll(2, Stamped(1)));
      Ann() != Bob() && s.calls == OneApply(Ann()) + OneApply(Ann()) + OneApply(Bob()) && s.stale == 0
  {
    RoomMadeState();
    var head := SharedRow() + RoomMade();
    var s := Exec(Empty, head);
    PassReachesOutbox(s, 2, FreshRow(Bob()));
    ExecAppend(Empty, head, UpToIntent(2, FreshRow(Bob())));
    var s1 := Exec(s, UpToIntent(2, FreshRow(Bob())));
    ApplyAllRuns(s1, 0, FreshRow(Ann()), Stamped(1));
    ExecAppend(Empty, head + UpToIntent(2, FreshRow(Bob())), ApplyAll(0, Stamped(1)));
    var s2 := Exec(s1, ApplyAll(0, Stamped(1)));
    ApplyAllRuns(s2, 2, FreshRow(Bob()), Stamped(1));
    ExecAppend(Empty, head + UpToIntent(2, FreshRow(Bob())) + ApplyAll(0, Stamped(1)), ApplyAll(2, Stamped(1)));
    assert Ann().owner != Bob().owner;
  }
}
