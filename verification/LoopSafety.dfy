/** What the machine's guarantees say of the loop itself, and what is left when
    the boot check fails. */
module LoopSafety {
  import opened Types
  import opened Keys
  import opened Reconcile
  import opened Outbox
  import opened Passes
  import opened PassRuns
  import Fencing
  import BootFence
  import Convergence

  /** Fencing of `reconcile_one`, row after row: a full pass from any plane a run
      can reach leaves a call log in which one key means one id, generation and
      spec. */
  lemma LoopIsFenced(es: seq<Event>, who: Fencing.Identity, p: nat, rows: seq<StoredCluster>, now: nat, envs: Id -> Env)
    requires forall e | e in es :: Fencing.Keeps(e, who)
    requires p in Exec(Empty, es).passes && Exec(Empty, es).passes[p] == Pass(rows, now, Top)
    requires CoherentPass(ViewOf(Exec(Empty, es), p).w, rows, now, envs)
    ensures var calls := TreatAll(ViewOf(Exec(Empty, es), p).w, rows, now, envs).calls;
      forall i, j | 0 <= i < |calls| && 0 <= j < |calls| && calls[i].ApplyCall? && calls[j].ApplyCall?
        && calls[i].key == calls[j].key :: calls[i] == calls[j]
  {
    var s := Exec(Empty, es);
    var more := Events(p, PassScript(ViewOf(s, p).w, rows, now, envs));
    PassIsRun(s, p, rows, now, envs);
    ExecAppend(Empty, es, more);
    forall e | e in es + more ensures Fencing.Keeps(e, who) {
      if e !in es {
        var i :| 0 <= i < |more| && more[i] == e;
      }
    }
    Fencing.OneKeyOneActuation(es + more, who);
  }

  /** A provider that settles an apply of this row. */
  function Settled(c: StoredCluster): Env {
    Env(true, true, false, "", true, true, true, Some(Backing(Running, Some(c.generation), None)),
        true, None, true, None, NoStop, "", 0)
  }

  /** A row behind its cluster, which is down, so that a pass applies the old spec. */
  predicate BehindAndDown(s: Plane, c: StoredCluster, now: nat) {
    && !s.tables.quarantined && c.desired.WantRunning? && !BackedOff(c, now)
    && c.id in s.backing && s.backing[c.id].state in {Suspended, Terminated, Terminating}
    && s.backing[c.id].generation.Some? && c.generation < s.backing[c.id].generation.value
    && !Refused(s, c)
  }

  /** A pass from its listing to the end of its first row. */
  function FirstRowEvents(s: Plane, p: nat, order: seq<StoredCluster>, now: nat): seq<Event>
    requires order != []
  {
    [List(p, now, order)]
    + Events(p, Script(World(s.tables, s.backing, s.calls), order[0], now, Settled(order[0])))
  }

  /** When a row cannot be observed the boot check gives up and the plane goes on
      unquarantined; if that row, listed first among any others, is behind, the
      next pass takes the provider back to the older generation. */
  lemma {:induction false} FailedBootLowersAGeneration(s: Plane, p: nat, order: seq<StoredCluster>, now: nat)
    requires ListsAll(s.tables.clusters, order) && order != [] && p !in s.passes
    requires BehindAndDown(s, order[0], now)
    ensures var id := order[0].id;
      && BootFence.Verdict(s, order, {id}).Failed?
      && BootFence.Stamp(Exec(s, FirstRowEvents(s, p, order, now)), id) < BootFence.Stamp(s, id)
  {
    var w, c := World(s.tables, s.backing, s.calls), order[0];
    var listing, calls := [List(p, now, order)], Script(w, c, now, Settled(c));
    var s1 := s.(passes := s.passes[p := Pass(order, now, Top)]);
    assert Exec(s, listing) == s1 by {
      assert listing[..0] == [];
    }
    ExecAppend(s, listing, Events(p, calls));
    ViewAfterCalls(s1, p, calls);
    RowRuns(ViewOf(s1, p), c, Settled(c));
    ApplyStamps(w, c, now, Settled(c));
  }

  lemma ApplyStamps(w: World, c: StoredCluster, now: nat, env: Env)
    requires env == Settled(c) && !w.tables.quarantined && !BackedOff(c, now) && c.desired.WantRunning?
    requires c.id in w.backing && w.backing[c.id].state in {Suspended, Terminated, Terminating}
    requires !RefusedIn(w, c)
    ensures Lookup(Treat(w, c, now, env).backing, c.id) == env.afterApply
  {
    assert Decide(c, Lookup(w.backing, c.id), env.queued, env.ownedFields).Apply?;
    Convergence.FinishKeeps(Convergence.Completed(w, c, env), c, now, env, Applied, None);
  }
}
