/** Resuming a suspended cluster takes no admission lock and makes no check. What
    that can break, and the exact condition under which it breaks nothing. */
module Resuming {
  import opened Types
  import Outbox
  import opened Quota
  import opened Admission
  import CS = ClusterStore

  /** However requests and writers go on, as long as nobody resumes, every limited
      project stays within its limit. */
  ghost predicate SafeFrom(s: Desk, limits: Limits, d: Demand) {
    forall more | ResumeFree(more) :: AllWithin(Exec(s, more, limits, d).clusters, limits, d)
  }

  /** Where a request that would not fit leads: the row under its id is purged, it
      passes the check by what it listed, and writes. */
  function Finishing(id: Id, n: nat): seq<Event> {
    [Purge(id), Check(n), Commit(n, 0)]
  }

  lemma FinishingRuns(s: Desk, n: nat, limits: Limits, d: Demand)
    requires n in s.requests && InFlight(s.requests[n]) && Fits(s.requests[n], s.requests[n].pc.inUse, limits, d)
    ensures var q := s.requests[n];
      Exec(s, Finishing(q.id, n), limits, d).clusters == CS.Upsert(s.clusters - {q.id}, q.id, q.spec, 0)
  {
    var es := Finishing(s.requests[n].id, n);
    ExecThree(s, es, limits, d);
  }

  lemma ExecPair(s: Desk, es: seq<Event>, limits: Limits, d: Demand)
    requires |es| == 2
    ensures Exec(s, es, limits, d) == Do(Do(s, es[0], limits, d), es[1], limits, d)
  {
    assert es[..1][..0] == [];
    assert Exec(s, es[..1], limits, d) == Do(Exec(s, es[..1][..0], limits, d), es[..1][0], limits, d);
  }

  lemma ExecThree(s: Desk, es: seq<Event>, limits: Limits, d: Demand)
    requires |es| == 3
    ensures Exec(s, es, limits, d)
      == Do(Do(Do(s, es[0], limits, d), es[1], limits, d), es[2], limits, d)
  {
    assert es[..2][..1] == es[..1] && es[..1][..0] == [] && es[..1][0] == es[0] && es[..2][1] == es[1];
    ExecPair(s, es[..2], limits, d);
  }

  /** The invariant of the protocol is exact: it holds of a desk if and only if no
      run without a resume leads from it over a limit. */
  lemma InvIffSafe(s: Desk, limits: Limits, d: Demand)
    requires NonNegative(d) && Orderly(s, limits, d)
    ensures Inv(s, limits, d) <==> SafeFrom(s, limits, d)
  {
    if Inv(s, limits, d) {
      forall more | ResumeFree(more) ensures AllWithin(Exec(s, more, limits, d).clusters, limits, d) {
        RunKeepsInv(s, more, limits, d);
      }
    }
    if SafeFrom(s, limits, d) {
      assert ResumeFree([]) && Exec(s, [], limits, d) == s;
      forall n | n in s.requests ensures Working(s.requests[n], s.clusters, limits, d) {
        var q := s.requests[n];
        if InFlight(q) && Fits(q, q.pc.inUse, limits, d) {
          FinishingRuns(s, n, limits, d);
          assert ResumeFree(Finishing(q.id, n));
        }
      }
    }
  }

  /** The resumed row's project fits with it running, and still does with the row of
      a request of that project that listed before the resume and passes the
      check by what it listed. That row counts as running even where the one
      under its id is not, since that one may be purged before the write. */
  ghost predicate ResumeSafe(s: Desk, e: Event, limits: Limits, d: Demand)
    requires Resumes(e)
  {
    var m := CS.SetDesired(s.clusters, e.id, WantRunning, e.now);
    e.id in m && m[e.id].spec.project in limits ==>
      var project := m[e.id].spec.project;
      && Within(m, project, limits[project], d)
      && forall n | n in s.requests && s.requests[n].spec.project == project :: Working(s.requests[n], m, limits, d)
  }

  lemma ResumeKeepsIff(s: Desk, e: Event, limits: Limits, d: Demand)
    requires NonNegative(d) && Inv(s, limits, d) && Resumes(e)
    ensures Orderly(Do(s, e, limits, d), limits, d)
    ensures Inv(Do(s, e, limits, d), limits, d) <==> ResumeSafe(s, e, limits, d)
  {
    var m := CS.SetDesired(s.clusters, e.id, WantRunning, e.now);
    if e.id in m {
      assert m - {e.id} == s.clusters - {e.id};
      var own := m[e.id].spec.project;
      forall project | project in limits && project != own ensures Within(m, project, limits[project], d) {
        WithinLowered(s.clusters, m, e.id, project, limits[project], d);
      }
      forall n | n in s.requests && (s.requests[n].spec.project != own || own !in limits)
        ensures Working(s.requests[n], m, limits, d)
      {
        if s.requests[n].spec.project in limits {
          WorkingLowered(s.requests[n], s.clusters, m, e.id, limits, d);
        }
      }
    }
  }

  /** From any desk of the protocol: a resume leaves every later resume-free run
      within the limits if and only if it is safe in that sense. */
  lemma ResumeSafeIff(s: Desk, e: Event, limits: Limits, d: Demand)
    requires NonNegative(d) && Inv(s, limits, d) && Resumes(e)
    ensures SafeFrom(Do(s, e, limits, d), limits, d) <==> ResumeSafe(s, e, limits, d)
  {
    ResumeKeepsIff(s, e, limits, d);
    InvIffSafe(Do(s, e, limits, d), limits, d);
  }

  /** Resuming keeps the project's rows within its limit exactly when the check a
      creation makes on the same rows would have passed. */
  lemma ResumeWithinIff(m: CS.Clusters, order: seq<StoredCluster>, id: Id, now: nat, limit: Resources, d: Demand)
    requires Outbox.ListsAll(m, order) && id in m
    ensures
      var c := m[id];
      var u := InUse(order, c.spec.project, id, d);
      Within(CS.SetDesired(m, id, WantRunning, now), c.spec.project, limit, d)
      <==> u.Some? && d(c.spec).Some? && FitsWithin(Add(u.value, d(c.spec).value), limit)
  {
    var m' := CS.SetDesired(m, id, WantRunning, now);
    assert m' - {id} == m - {id};
    CheckIsExact(m, order, m', id, limit, d);
  }

  /** While nobody holds the project's lock, the creation check is all it takes. */
  lemma LockFreeResumeIff(s: Desk, e: Event, order: seq<StoredCluster>, limits: Limits, d: Demand)
    requires Orderly(s, limits, d) && Resumes(e) && Outbox.ListsAll(s.clusters, order)
    requires e.id in s.clusters && s.clusters[e.id].spec.project in limits
    requires s.clusters[e.id].spec.project !in s.holder
    ensures
      var c := s.clusters[e.id];
      var u := InUse(order, c.spec.project, e.id, d);
      ResumeSafe(s, e, limits, d)
      <==> u.Some? && d(c.spec).Some? && FitsWithin(Add(u.value, d(c.spec).value), limits[c.spec.project])
  {
    ResumeWithinIff(s.clusters, order, e.id, e.now, limits[s.clusters[e.id].spec.project], d);
  }

  // --- Runs with resumes ---

  ghost predicate ResumesSafe(s: Desk, es: seq<Event>, limits: Limits, d: Demand) {
    forall k | 0 <= k < |es| && Resumes(es[k]) :: ResumeSafe(Exec(s, es[..k], limits, d), es[k], limits, d)
  }

  lemma {:induction false} SafeUpTo(s: Desk, es: seq<Event>, k: nat, limits: Limits, d: Demand)
    requires NonNegative(d) && Inv(s, limits, d) && ResumesSafe(s, es, limits, d) && k <= |es|
    ensures Inv(Exec(s, es[..k], limits, d), limits, d)
  {
    if k > 0 {
      SafeUpTo(s, es, k - 1, limits, d);
      assert es[..k][..k - 1] == es[..k - 1];
      var before, e := Exec(s, es[..k - 1], limits, d), es[k - 1];
      if Resumes(e) {
        ResumeKeepsIff(before, e, limits, d);
      } else if Enabled(before, e, limits) {
        NextKeepsInv(before, e, limits, d);
      }
    }
  }

  /** Over every run, resumes included: nothing is over-committed as long as each
      resume is safe when it comes. */
  lemma NoOverCommitWithResumes(s: Desk, es: seq<Event>, limits: Limits, d: Demand)
    requires NonNegative(d) && s.requests == map[] && AllWithin(s.clusters, limits, d)
    requires ResumesSafe(s, es, limits, d)
    ensures AllWithin(Exec(s, es, limits, d).clusters, limits, d)
  {
    SafeUpTo(s, es, |es|, limits, d);
    assert es[..|es|] == es;
  }

  /** And that is exact: all resumes of the run are safe if and only if from no point
      of it a resume-free continuation leads over a limit. */
  lemma ResumesSafeIff(s: Desk, es: seq<Event>, limits: Limits, d: Demand)
    requires NonNegative(d) && s.requests == map[] && AllWithin(s.clusters, limits, d)
    ensures ResumesSafe(s, es, limits, d)
      <==> forall k | 0 <= k <= |es| :: SafeFrom(Exec(s, es[..k], limits, d), limits, d)
  {
    if ResumesSafe(s, es, limits, d) {
      forall k | 0 <= k <= |es| ensures SafeFrom(Exec(s, es[..k], limits, d), limits, d) {
        SafeUpTo(s, es, k, limits, d);
        InvIffSafe(Exec(s, es[..k], limits, d), limits, d);
      }
    }
    if forall k | 0 <= k <= |es| :: SafeFrom(Exec(s, es[..k], limits, d), limits, d) {
      forall k | 0 <= k < |es| && Resumes(es[k])
        ensures ResumeSafe(Exec(s, es[..k], limits, d), es[k], limits, d)
      {
        OrderlyUpTo(s, es[..k], limits, d);
        InvIffSafe(Exec(s, es[..k], limits, d), limits, d);
        assert es[..k + 1][..k] == es[..k];
        ResumeSafeIff(Exec(s, es[..k], limits, d), es[k], limits, d);
      }
    }
  }

  lemma {:induction false} OrderlyUpTo(s: Desk, es: seq<Event>, limits: Limits, d: Demand)
    requires Orderly(s, limits, d)
    ensures Orderly(Exec(s, es, limits, d), limits, d)
  {
    if es != [] {
      OrderlyUpTo(s, es[..|es| - 1], limits, d);
      OrderlyStep(Exec(s, es[..|es| - 1], limits, d), es[|es| - 1], limits, d);
    }
  }

  // --- Two ways over the limit ---

  /** The states from which a resume is a legal command. */
  predicate Resumable(c: StoredCluster) {
    && !c.desired.WantTerminated?
    && (c.observedState == Some(Pending) || c.observedState == Some(Suspended))
  }

  function OneEach(): Parsers {
    Parsers(s => Some(1.0), s => Some(1.0), s => Some(0.0))
  }

  function SampleRow(id: Id, spec: ClusterSpec, desired: DesiredState, state: ClusterState): StoredCluster {
    StoredCluster(id, spec, 1, desired, Some(state), 1, None, 0, 0, 0, None)
  }

  function One(): Resources {
    map[CPU := 1.0, MEMORY := 1.0]
  }

  /** A head alone, and what its demand comes to. */
  lemma HeadDemand(spec: ClusterSpec)
    requires spec.workerGroups == []
    ensures MaxDemand(OneEach(), spec) == Some(One())
  {
  }

  /** Two such clusters running are over a limit for one. */
  lemma TwoIsTooMany(m: CS.Clusters, x: Id, y: Id, project: string, d: Demand)
    requires x != y && m.Keys == {x, y} && Live(m[x], project) && Live(m[y], project)
    requires d(m[x].spec) == Some(One()) && d(m[y].spec) == Some(One())
    ensures !Within(m, project, One(), d)
  {
    TotalSplits(m, x, project, CPU, d);
    TotalSplits(m - {x}, y, project, CPU, d);
    assert m - {x} - {y} == map[];
    assert Demanded(m, project, CPU, d);
  }

  /** One of them running is within it. */
  lemma OneIsEnough(m: CS.Clusters, x: Id, project: string, d: Demand)
    requires x in m && (forall y | y in m && y != x :: !Live(m[y], project)) && d(m[x].spec) == Some(One())
    ensures Within(m, project, One(), d)
  {
    forall r ensures Total(m, project, r, d) <= Amount(One(), r) {
      TotalSplits(m, x, project, r, d);
      NothingLive(m - {x}, project, r, d);
    }
  }

  lemma {:induction false} NothingLive(m: CS.Clusters, project: string, r: string, d: Demand)
    requires forall y | y in m :: !Live(m[y], project)
    ensures Total(m, project, r, d) == 0.0
    decreases |m|
  {
    if m != map[] {
      var y :| y in m;
      TotalSplits(m, y, project, r, d);
      NothingLive(m - {y}, project, r, d);
    }
  }

  /** One core and one GiB allowed, one cluster running and one suspended, both of a
      head alone: a legal resume breaks the limit. */
  lemma ResumeOverCommits(spec: ClusterSpec, now: nat)
    requires spec.workerGroups == []
    ensures
      var d: Demand := s => MaxDemand(OneEach(), s);
      var a, b := SampleRow("a", spec, WantSuspended, Suspended), SampleRow("b", spec, WantRunning, Running);
      var m: CS.Clusters := map["a" := a, "b" := b];
      && Resumable(a)
      && Within(m, spec.project, One(), d)
      && !Within(CS.SetDesired(m, "a", WantRunning, now), spec.project, One(), d)
  {
    var d: Demand := s => MaxDemand(OneEach(), s);
    var a, b := SampleRow("a", spec, WantSuspended, Suspended), SampleRow("b", spec, WantRunning, Running);
    var m: CS.Clusters := map["a" := a, "b" := b];
    HeadDemand(spec);
    OneIsEnough(m, "b", spec.project, d);
    TwoIsTooMany(CS.SetDesired(m, "a", WantRunning, now), "a", "b", spec.project, d);
  }

  /** A project that may have one cluster has one, suspended; a creation has locked,
      listed and passed its check. */
  function Creating(spec: ClusterSpec): seq<Event> {
    [Arrive(0, "c", spec), Lock(0), ListUsage(0, [SampleRow("a", spec, WantSuspended, Suspended)]), Check(0)]
  }

  lemma CreationAdmitted(s: Desk, spec: ClusterSpec, limits: Limits, d: Demand)
    requires s == Desk(map["a" := SampleRow("a", spec, WantSuspended, Suspended)], map[], map[])
    requires limits == map[spec.project := One()] && d(spec) == Some(One())
    ensures Exec(s, Creating(spec), limits, d)
      == Desk(s.clusters, map[spec.project := 0], map[0 := Request("c", spec, Admitted(map[]))])
  {
    var es, a := Creating(spec), SampleRow("a", spec, WantSuspended, Suspended);
    assert es[..3] == [es[0], es[1], es[2]];
    ExecThree(s, es[..3], limits, d);
    assert Outbox.ListsAll(s.clusters, [a]);
    assert InUse([a], spec.project, "c", d) == Some(map[]) by {
      assert [a][..0] == [];
    }
    assert Add(map[], One()) == One();
  }

  /** A resume that fits by the rows, taken while a creation is between its check
      and its write: both go through, and the project has two of one. */
  lemma ResumeUnderAdmission(spec: ClusterSpec)
    requires spec.workerGroups == []
    ensures
      var d: Demand := s => MaxDemand(OneEach(), s);
      var limits, a := map[spec.project := One()], SampleRow("a", spec, WantSuspended, Suspended);
      var s, resume := Desk(map["a" := a], map[], map[]), Flip("a", WantRunning, 0);
      var before := Exec(s, Creating(spec), limits, d);
      && Resumable(a) && before.clusters == s.clusters
      && Within(CS.SetDesired(before.clusters, "a", WantRunning, 0), spec.project, One(), d)
      && !ResumeSafe(before, resume, limits, d)
      && !Within(Exec(before, [resume, Commit(0, 0)], limits, d).clusters, spec.project, One(), d)
  {
    var d: Demand := s => MaxDemand(OneEach(), s);
    var limits, a := map[spec.project := One()], SampleRow("a", spec, WantSuspended, Suspended);
    var s, resume := Desk(map["a" := a], map[], map[]), Flip("a", WantRunning, 0);
    HeadDemand(spec);
    CreationAdmitted(s, spec, limits, d);
    BothGoThrough(Exec(s, Creating(spec), limits, d), spec, limits, d);
  }

  lemma BothGoThrough(s: Desk, spec: ClusterSpec, limits: Limits, d: Demand)
    requires limits == map[spec.project := One()] && d(spec) == Some(One())
    requires s == Desk(map["a" := SampleRow("a", spec, WantSuspended, Suspended)], map[spec.project := 0],
                       map[0 := Request("c", spec, Admitted(map[]))])
    ensures Within(CS.SetDesired(s.clusters, "a", WantRunning, 0), spec.project, One(), d)
    ensures !ResumeSafe(s, Flip("a", WantRunning, 0), limits, d)
    ensures !Within(Exec(s, [Flip("a", WantRunning, 0), Commit(0, 0)], limits, d).clusters, spec.project, One(), d)
  {
    var m := CS.SetDesired(s.clusters, "a", WantRunning, 0);
    OneIsEnough(m, "a", spec.project, d);
    CreationTooMuch(m, s.requests[0], limits, d);
    UnsafeForRequest(s, Flip("a", WantRunning, 0), 0, limits, d);
    ResumeThenCommit(s, Flip("a", WantRunning, 0), 0, limits, d);
  }

  lemma UnsafeForRequest(s: Desk, e: Event, n: nat, limits: Limits, d: Demand)
    requires Resumes(e) && e.id in s.clusters && n in s.requests && InFlight(s.requests[n])
    requires s.requests[n].spec.project == s.clusters[e.id].spec.project
    requires Fits(s.requests[n], s.requests[n].pc.inUse, limits, d)
    requires !WouldFit(s.requests[n], CS.SetDesired(s.clusters, e.id, WantRunning, e.now), limits, d)
    ensures !ResumeSafe(s, e, limits, d)
  {
    assert !Working(s.requests[n], CS.SetDesired(s.clusters, e.id, WantRunning, e.now), limits, d);
  }

  lemma ResumeThenCommit(s: Desk, e: Event, n: nat, limits: Limits, d: Demand)
    requires Resumes(e) && n in s.requests && s.requests[n].pc.Admitted?
    ensures Exec(s, [e, Commit(n, 0)], limits, d).clusters
      == CS.Upsert(CS.SetDesired(s.clusters, e.id, WantRunning, e.now), s.requests[n].id, s.requests[n].spec, 0)
  {
    ExecPair(s, [e, Commit(n, 0)], limits, d);
  }

  lemma CreationTooMuch(m: CS.Clusters, q: Request, limits: Limits, d: Demand)
    requires m.Keys == {"a"} && Live(m["a"], q.spec.project) && d(m["a"].spec) == Some(One())
    requires q.id == "c" && q.pc == Admitted(map[])
    requires limits == map[q.spec.project := One()] && d(q.spec) == Some(One())
    ensures Fits(q, q.pc.inUse, limits, d) && !WouldFit(q, m, limits, d)
    ensures !Within(CS.Upsert(m, q.id, q.spec, 0), q.spec.project, One(), d)
  {
    assert m - {"c"} == m;
    assert Add(map[], One()) == One();
    TwoIsTooMany(CS.Upsert(m, "c", q.spec, 0), "a", "c", q.spec.project, d);
  }
}
