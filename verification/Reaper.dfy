/** The lifecycle reaper: job history bucketed by cluster in one pass, a scan that
    returns early, and two expiry bounds, against a plain per-cluster reading of
    the history. */
module Reaper {
  import opened Types
  import CS = ClusterStore

  datatype JobRecord = JobRecord(cluster: Id, status: string, submittedAt: nat, durationSecs: Option<nat>)

  datatype ReapReason = MaxAge | Idle

  // --- Pure predicates of the source ---

  function UpperChar(c: char): char {
    if 'a' <= c <= 'z' then (c as int - 'a' as int + 'A' as int) as char else c
  }

  function Upper(s: string): string {
    seq(|s|, i requires 0 <= i < |s| => UpperChar(s[i]))
  }

  predicate IsTerminal(status: string) {
    var u := Upper(status);
    u == "SUCCEEDED" || u == "FAILED" || u == "STOPPED"
  }

  predicate WantedUp(c: StoredCluster) {
    c.desired.WantRunning? && c.observedState == Some(Running)
  }

  predicate IsExpired(c: StoredCluster, now: nat) {
    WantedUp(c) && c.spec.ttlSeconds.Some? && SatSub(now, c.createdAt) >= c.spec.ttlSeconds.value
  }

  predicate IsIdleExpired(c: StoredCluster, lastActivity: nat, now: nat) {
    WantedUp(c) && c.spec.idleTimeoutSecs.Some? && SatSub(now, lastActivity) >= c.spec.idleTimeoutSecs.value
  }

  function EndOf(j: JobRecord): nat {
    SatAdd(j.submittedAt, if j.durationSecs.Some? then j.durationSecs.value else 0)
  }

  // --- The scan ---

  /** Returns `now` at the first unfinished job, else the latest end. */
  method LastActivityAt(createdAt: nat, jobs: seq<JobRecord>, now: nat) returns (last: nat)
    ensures (exists i | 0 <= i < |jobs| :: !IsTerminal(jobs[i].status)) ==> last == now
    ensures (forall i | 0 <= i < |jobs| :: IsTerminal(jobs[i].status)) ==> IsLatest(createdAt, jobs, last)
    ensures last == LastActivity(createdAt, jobs, now)
  {
    last := createdAt;
    for i := 0 to |jobs|
      invariant forall k | 0 <= k < i :: IsTerminal(jobs[k].status)
      invariant IsLatest(createdAt, jobs[..i], last)
    {
      if !IsTerminal(jobs[i].status) {
        return now;
      }
      assert forall j | j in jobs[..i + 1] :: j in jobs[..i] || j == jobs[i];
      last := CS.Max(last, EndOf(jobs[i]));
    }
    assert jobs[..|jobs|] == jobs;
    LatestUnique(createdAt, jobs, last);
  }

  /** `last` is the largest of the creation time and the jobs' ends. */
  predicate IsLatest(createdAt: nat, jobs: seq<JobRecord>, last: nat) {
    && createdAt <= last
    && (forall j | j in jobs :: EndOf(j) <= last)
    && (last == createdAt || exists j | j in jobs :: EndOf(j) == last)
  }

  function LatestEnd(createdAt: nat, jobs: seq<JobRecord>): nat {
    if jobs == [] then createdAt else CS.Max(LatestEnd(createdAt, jobs[..|jobs| - 1]), EndOf(jobs[|jobs| - 1]))
  }

  function LastActivity(createdAt: nat, jobs: seq<JobRecord>, now: nat): nat {
    if exists j | j in jobs :: !IsTerminal(j.status) then now else LatestEnd(createdAt, jobs)
  }

  lemma {:induction false} LatestEndIs(createdAt: nat, jobs: seq<JobRecord>)
    ensures IsLatest(createdAt, jobs, LatestEnd(createdAt, jobs))
    decreases |jobs|
  {
    if jobs != [] {
      var n := |jobs| - 1;
      LatestEndIs(createdAt, jobs[..n]);
      assert forall j | j in jobs :: j in jobs[..n] || j == jobs[n];
      assert jobs[n] in jobs;
    }
  }

  lemma LatestUnique(createdAt: nat, jobs: seq<JobRecord>, last: nat)
    requires IsLatest(createdAt, jobs, last)
    ensures last == LatestEnd(createdAt, jobs)
  {
    LatestEndIs(createdAt, jobs);
  }

  // --- One pass ---

  function OfCluster(jobs: seq<JobRecord>, id: Id): seq<JobRecord> {
    if jobs == [] then []
    else
      var rest, j := OfCluster(jobs[..|jobs| - 1], id), jobs[|jobs| - 1];
      if j.cluster == id then rest + [j] else rest
  }

  type Buckets = map<Id, seq<JobRecord>>

  predicate Bucketed(b: Buckets, jobs: seq<JobRecord>) {
    && (forall id | id in b :: b[id] == OfCluster(jobs, id))
    && (forall i | 0 <= i < |jobs| :: jobs[i].cluster in b)
  }

  method BucketByCluster(jobs: seq<JobRecord>) returns (b: Buckets)
    ensures Bucketed(b, jobs)
  {
    b := map[];
    for i := 0 to |jobs|
      invariant Bucketed(b, jobs[..i])
    {
      var j := jobs[i];
      assert jobs[..i + 1][..i] == jobs[..i];
      NoJobs(jobs[..i], j.cluster, b);
      b := b[j.cluster := (if j.cluster in b then b[j.cluster] else []) + [j]];
    }
    assert jobs[..|jobs|] == jobs;
  }

  lemma {:induction false} NoJobs(jobs: seq<JobRecord>, id: Id, b: Buckets)
    requires forall i | 0 <= i < |jobs| :: jobs[i].cluster in b
    ensures id !in b ==> OfCluster(jobs, id) == []
    decreases |jobs|
  {
    if jobs != [] {
      NoJobs(jobs[..|jobs| - 1], id, b);
    }
  }

  /** The plain reading: one cluster, the whole history, no buckets. */
  function Reason(c: StoredCluster, jobs: seq<JobRecord>, now: nat): Option<ReapReason> {
    if IsExpired(c, now) then Some(MaxAge)
    else if IsIdleExpired(c, LastActivity(c.createdAt, OfCluster(jobs, c.id), now), now) then Some(Idle)
    else None
  }

  function Reaped(rows: seq<StoredCluster>, jobs: seq<JobRecord>, now: nat): seq<Id> {
    if rows == [] then []
    else
      var rest, c := Reaped(rows[..|rows| - 1], jobs, now), rows[|rows| - 1];
      if Reason(c, jobs, now).Some? then rest + [c.id] else rest
  }

  function Flipped(m: CS.Clusters, rows: seq<StoredCluster>, jobs: seq<JobRecord>, now: nat,
                   at: Id -> nat): CS.Clusters
  {
    if rows == [] then m
    else
      var before, c := Flipped(m, rows[..|rows| - 1], jobs, now, at), rows[|rows| - 1];
      if Reason(c, jobs, now).Some? then CS.SetDesired(before, c.id, WantTerminated, at(c.id)) else before
  }

  /** The reap pass; `at` is the store's clock when it stamps each flip. */
  class LifecycleReaper {
    var clusters: CS.Clusters

    method ReapExpired(rows: seq<StoredCluster>, jobs: seq<JobRecord>, now: nat, at: Id -> nat)
      returns (reaped: seq<Id>)
      modifies this
      ensures reaped == Reaped(rows, jobs, now)
      ensures clusters == Flipped(old(clusters), rows, jobs, now, at)
    {
      var buckets := BucketByCluster(jobs);
      reaped := [];
      for i := 0 to |rows|
        invariant reaped == Reaped(rows[..i], jobs, now)
        invariant clusters == Flipped(old(clusters), rows[..i], jobs, now, at)
      {
        var c := rows[i];
        assert rows[..i + 1][..i] == rows[..i];
        NoJobs(jobs, c.id, buckets);
        var mine := if c.id in buckets then buckets[c.id] else [];
        var last := LastActivityAt(c.createdAt, mine, now);
        var reason := if IsExpired(c, now) then Some(MaxAge)
                      else if IsIdleExpired(c, last, now) then Some(Idle)
                      else None;
        assert reason == Reason(c, jobs, now);
        if reason.Some? {
          clusters := CS.SetDesired(clusters, c.id, WantTerminated, at(c.id));
          reaped := reaped + [c.id];
        }
      }
      assert rows[..|rows|] == rows;
    }
  }

  // --- What a pass means ---

  /** Some job of the cluster has not finished. */
  predicate Busy(c: StoredCluster, jobs: seq<JobRecord>) {
    exists j | j in jobs :: j.cluster == c.id && !IsTerminal(j.status)
  }

  /** Wanted up, seen up, and created at least its max age ago; a max age of zero is
      always reached. */
  predicate Aged(c: StoredCluster, now: nat) {
    && c.desired == WantRunning && c.observedState == Some(Running)
    && c.spec.ttlSeconds.Some?
    && (c.spec.ttlSeconds.value == 0 || c.createdAt + c.spec.ttlSeconds.value <= now)
  }

  /** Every finished job of the cluster, and its creation, is at least the window ago. */
  predicate Quiet(c: StoredCluster, jobs: seq<JobRecord>, now: nat, window: nat) {
    && c.createdAt + window <= now
    && forall j | j in jobs && j.cluster == c.id :: EndOf(j) + window <= now
  }

  /** A job's end is its submission plus its duration, as long as clocks are 64 bits. */
  lemma EndInSeconds(j: JobRecord, window: nat, now: nat)
    requires 0 < window && now <= U64_MAX
    ensures EndOf(j) + window <= now
      <==> j.submittedAt + (if j.durationSecs.None? then 0 else j.durationSecs.value) + window <= now
  {}

  predicate SameLetter(c: char, upper: char) {
    c == upper || c as int == upper as int + 32
  }

  /** The word in any mix of upper and lower case. */
  predicate Spells(s: string, word: string) {
    |s| == |word| && forall i | 0 <= i < |s| :: SameLetter(s[i], word[i])
  }

  lemma UpperSpells(s: string, word: string)
    requires forall i | 0 <= i < |word| :: 'A' <= word[i] <= 'Z'
    ensures Upper(s) == word <==> Spells(s, word)
  {
    if Upper(s) == word {
      assert forall i | 0 <= i < |s| :: Upper(s)[i] == UpperChar(s[i]) == word[i];
    }
    if Spells(s, word) {
      forall i | 0 <= i < |s| ensures Upper(s)[i] == word[i] {
        assert SameLetter(s[i], word[i]);
      }
    }
  }

  /** Three statuses end a job, in any case; every other leaves its cluster busy. */
  lemma TerminalStatuses(status: string)
    ensures IsTerminal(status) <==> Spells(status, "SUCCEEDED") || Spells(status, "FAILED") || Spells(status, "STOPPED")
  {
    UpperSpells(status, "SUCCEEDED");
    UpperSpells(status, "FAILED");
    UpperSpells(status, "STOPPED");
  }

  lemma {:induction false} OfClusterIs(jobs: seq<JobRecord>, id: Id)
    ensures forall j :: j in OfCluster(jobs, id) <==> j in jobs && j.cluster == id
    decreases |jobs|
  {
    if jobs != [] {
      var n := |jobs| - 1;
      OfClusterIs(jobs[..n], id);
      assert forall j :: j in jobs <==> j in jobs[..n] || j == jobs[n];
    }
  }

  /** Exactly which clusters a pass flips, and why: by age, or idle for the whole
      window with no unfinished job. A busy cluster is flipped for idleness only
      by a window of zero. */
  lemma ReasonIs(c: StoredCluster, jobs: seq<JobRecord>, now: nat)
    ensures Reason(c, jobs, now) == Some(MaxAge) <==> Aged(c, now)
    ensures Reason(c, jobs, now) == Some(Idle) <==>
      && !Aged(c, now) && c.desired == WantRunning && c.observedState == Some(Running)
      && c.spec.idleTimeoutSecs.Some?
      && (c.spec.idleTimeoutSecs.value == 0
          || (!Busy(c, jobs) && Quiet(c, jobs, now, c.spec.idleTimeoutSecs.value)))
  {
    var mine := OfCluster(jobs, c.id);
    OfClusterIs(jobs, c.id);
    LatestEndIs(c.createdAt, mine);
    var last := LatestEnd(c.createdAt, mine);
    if c.spec.idleTimeoutSecs.Some? {
      var window := c.spec.idleTimeoutSecs.value;
      if last + window <= now && !Busy(c, jobs) {
        assert forall j | j in jobs && j.cluster == c.id :: j in mine;
      }
      if Quiet(c, jobs, now, window) && last != c.createdAt {
        var j :| j in mine && EndOf(j) == last;
        assert j in jobs && j.cluster == c.id;
      }
      assert Busy(c, jobs) <==> exists j | j in mine :: !IsTerminal(j.status);
    }
  }

  /** The order of the job history does not matter. */
  lemma OrderOfJobsIrrelevant(c: StoredCluster, a: seq<JobRecord>, b: seq<JobRecord>, now: nat)
    requires forall j :: j in a <==> j in b
    ensures Reason(c, a, now) == Reason(c, b, now)
  {
    ReasonIs(c, a, now);
    ReasonIs(c, b, now);
    assert Busy(c, a) <==> Busy(c, b);
    if c.spec.idleTimeoutSecs.Some? {
      assert Quiet(c, a, now, c.spec.idleTimeoutSecs.value) <==> Quiet(c, b, now, c.spec.idleTimeoutSecs.value);
    }
  }

  /** With a positive idle window no pass flips a cluster that has an unfinished
      job before its max-age. */
  lemma BusyClustersSurvive(c: StoredCluster, jobs: seq<JobRecord>, now: nat)
    requires Busy(c, jobs) && !Aged(c, now)
    requires c.spec.idleTimeoutSecs.Some? ==> c.spec.idleTimeoutSecs.value > 0
    ensures Reason(c, jobs, now).None?
  {
    ReasonIs(c, jobs, now);
  }

  /** A window of zero flips a busy cluster: `now - now >= 0`. */
  lemma ZeroWindowFlipsBusy(c: StoredCluster, jobs: seq<JobRecord>, now: nat)
    requires Busy(c, jobs) && c.desired == WantRunning && c.observedState == Some(Running)
    ensures Reason(c, jobs, now).Some? <==> Aged(c, now) || c.spec.idleTimeoutSecs == Some(0)
  {
    ReasonIs(c, jobs, now);
  }

  /** Exactly the listed rows with a reason are reaped. */
  lemma {:induction false} ReapedIff(rows: seq<StoredCluster>, jobs: seq<JobRecord>, now: nat, id: Id)
    ensures id in Reaped(rows, jobs, now)
      <==> exists i | 0 <= i < |rows| :: rows[i].id == id && Reason(rows[i], jobs, now).Some?
    decreases |rows|
  {
    if rows != [] {
      var n := |rows| - 1;
      var rest := rows[..n];
      ReapedIff(rest, jobs, now, id);
      assert forall i | 0 <= i < n :: rest[i] == rows[i];
      if id in Reaped(rest, jobs, now) {
        var i :| 0 <= i < n && rest[i].id == id && Reason(rest[i], jobs, now).Some?;
        assert rows[i] == rest[i];
      }
    }
  }

  /** The store after a pass: listed rows with a reason are Terminated, no other
      row is touched. */
  lemma {:induction false} FlipsExactly(m: CS.Clusters, rows: seq<StoredCluster>, jobs: seq<JobRecord>, now: nat,
                                        at: Id -> nat, id: Id)
    ensures Flipped(m, rows, jobs, now, at).Keys == m.Keys
    ensures id in m ==>
      Flipped(m, rows, jobs, now, at)[id] ==
        if id in Reaped(rows, jobs, now) then CS.Flip(m[id], WantTerminated, at(id)) else m[id]
    decreases |rows|
  {
    if rows != [] {
      FlipsExactly(m, rows[..|rows| - 1], jobs, now, at, id);
    }
  }
}
