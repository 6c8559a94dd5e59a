/** The SQL store behind the same operations: signed 64-bit columns, partial
    column updates and textual enums, and the proof that every history leaves
    it holding what the in-memory store holds. */
module SqliteStore {
  import opened Types
  import CS = ClusterStore

  const TWO63: nat := 0x8000_0000_0000_0000
  const TWO64: nat := 0x1_0000_0000_0000_0000
  const TWO32: nat := 0x1_0000_0000

  /** `v as i64` of a u64: reinterprets the bits. */
  function I64(v: nat): int {
    var w := if v < TWO64 then v else v % TWO64;
    if w < TWO63 then w else w - TWO64
  }

  /** `v as u64` of an i64. */
  function U64(v: int): nat {
    if 0 <= v < TWO64 then v else v % TWO64
  }

  function U32(v: int): nat {
    if 0 <= v < TWO32 then v else v % TWO32
  }

  /** A textual enum column: one of the words the store writes, or other text. */
  datatype DesiredColumn = Known(desired: DesiredState) | UnknownDesired(text: string)

  datatype StatusColumn = PendingText | AppliedText | OtherStatus(text: string)

  datatype ClusterRow = ClusterRow(
    spec: ClusterSpec, generation: int, desired: DesiredColumn,
    observedState: Option<ClusterState>, observedGeneration: int,
    condition: Option<DriftCondition>, failureCount: int, nextAttemptAt: int,
    createdAt: int, terminatedAt: Option<int>)

  datatype IntentRow = IntentRow(
    paramsFingerprint: Fingerprint, status: StatusColumn, response: Option<string>,
    createdAt: int, completedAt: Option<int>)

  /** The three tables; of `control` only the quarantine flag's row. */
  datatype Db = Db(clusters: map<Id, ClusterRow>, intents: map<string, IntentRow>, quarantine: Option<bool>)

  const EmptyDb := Db(map[], map[], None)

  /** None is the decoding error the source reports. */
  function ParseDesired(c: DesiredColumn): Option<DesiredState> {
    if c.Known? then Some(c.desired) else None
  }

  /** Anything but 'pending' reads as applied. */
  function ParseStatus(c: StatusColumn): IntentStatus {
    if c.PendingText? then PendingIntent else AppliedIntent
  }

  function MapU64(v: Option<int>): Option<nat> {
    if v.None? then None else Some(U64(v.value))
  }

  /** `row_to_cluster`: how a row reads back. */
  function ReadCluster(id: Id, r: ClusterRow): Option<StoredCluster> {
    var desired := ParseDesired(r.desired);
    if desired.None? then None
    else Some(StoredCluster(id, r.spec, U64(r.generation), desired.value, r.observedState,
                            U64(r.observedGeneration), r.condition, U32(r.failureCount),
                            U64(r.nextAttemptAt), U64(r.createdAt), MapU64(r.terminatedAt)))
  }

  function ReadIntent(r: IntentRow): IntentRecord {
    IntentRecord(r.paramsFingerprint, ParseStatus(r.status), r.response, U64(r.createdAt), MapU64(r.completedAt))
  }

  // --- Statements ---

  function UpsertRow(rows: map<Id, ClusterRow>, id: Id, spec: ClusterSpec, generation: nat, now: nat)
    : map<Id, ClusterRow>
  {
    rows[id := if id in rows then rows[id].(spec := spec, generation := I64(generation))
               else ClusterRow(spec, I64(generation), Known(WantRunning), None, 0, None, 0, 0, I64(now), None)]
  }

  function BumpedGeneration(rows: map<Id, ClusterRow>, id: Id, spec: ClusterSpec): nat {
    if id !in rows then 1
    else if SpecChanged(rows[id].spec, spec) then U64(rows[id].generation) + 1
    else U64(rows[id].generation)
  }

  function FlippedRow(r: ClusterRow, desired: DesiredState, now: nat): ClusterRow {
    r.(desired := Known(desired),
       terminatedAt := if !desired.WantTerminated? then None
                       else if r.terminatedAt.Some? then r.terminatedAt
                       else Some(I64(now)))
  }

  function SqlMax(a: int, b: int): int {
    if a < b then b else a
  }

  function ObservedRow(r: ClusterRow, state: Option<ClusterState>, generation: nat): ClusterRow {
    r.(observedState := state, observedGeneration := SqlMax(r.observedGeneration, I64(generation)))
  }

  predicate Deletable(r: IntentRow, appliedBefore: nat) {
    r.status.AppliedText? && r.completedAt.Some? && r.completedAt.value < I64(appliedBefore)
  }

  function Exec(db: Db, op: CS.Op): Db {
    match op
    case UpsertOp(id, spec, now) =>
      db.(clusters := UpsertRow(db.clusters, id, spec, BumpedGeneration(db.clusters, id, spec), now))
    case SetDesiredOp(id, d, now) =>
      if id !in db.clusters then db
      else db.(clusters := db.clusters[id := FlippedRow(db.clusters[id], d, now)])
    case RemoveOp(id) => db.(clusters := db.clusters - {id})
    case ObservationOp(id, st, g) =>
      if id !in db.clusters then db
      else db.(clusters := db.clusters[id := ObservedRow(db.clusters[id], st, g)])
    case ConditionOp(id, c) =>
      if id !in db.clusters then db
      else db.(clusters := db.clusters[id := db.clusters[id].(condition := c)])
    case AttemptOp(id, f, n) =>
      if id !in db.clusters then db
      else db.(clusters := db.clusters[id := db.clusters[id].(failureCount := f, nextAttemptAt := I64(n))])
    case BeginOp(key, fp, now) =>
      if key in db.intents then db
      else db.(intents := db.intents[key := IntentRow(fp, PendingText, None, I64(now), None)])
    case CompleteOp(key, response, now) =>
      if key !in db.intents then db
      else db.(intents := db.intents[key :=
          db.intents[key].(status := AppliedText, response := Some(response), completedAt := Some(I64(now)))])
    case ReapOp(cutoff) =>
      db.(intents := map k | k in db.intents && !Deletable(db.intents[k], cutoff) :: db.intents[k])
    case QuarantineOp(on) => db.(quarantine := Some(on))
  }

  ghost function Reply(db: Db, op: CS.Op): CS.Reply {
    match op
    case UpsertOp(id, spec, now) => CS.Generation(BumpedGeneration(db.clusters, id, spec))
    case SetDesiredOp(id, _, _) => CS.Found(id in db.clusters)
    case RemoveOp(id) => CS.Found(id in db.clusters)
    case BeginOp(key, fp, _) =>
      CS.Outcome(if key !in db.intents then Proceed(false)
                 else if db.intents[key].paramsFingerprint != fp then ParamMismatch
                 else Proceed(true))
    case ReapOp(cutoff) => CS.Count(|set k | k in db.intents && Deletable(db.intents[k], cutoff)|)
    case _ => CS.Done
  }

  /** The store object: each method is one statement or one `BEGIN IMMEDIATE`
      transaction, so its reads and writes are atomic. */
  class SqliteStore {
    var db: Db

    constructor ()
      ensures db == EmptyDb
    {
      db := EmptyDb;
    }

    /** SELECT the row, decide the generation, INSERT or update two columns. */
    method UpsertDesired(id: Id, spec: ClusterSpec, now: nat) returns (generation: nat)
      modifies this
      ensures db == Exec(old(db), CS.UpsertOp(id, spec, now))
      ensures CS.Generation(generation) == Reply(old(db), CS.UpsertOp(id, spec, now))
    {
      generation := 1;
      if id in db.clusters {
        var cur := db.clusters[id];
        generation := U64(cur.generation);
        if SpecChanged(cur.spec, spec) {
          generation := generation + 1;
        }
      }
      var row := ClusterRow(spec, I64(generation), Known(WantRunning), None, 0, None, 0, 0, I64(now), None);
      if id in db.clusters {
        row := db.clusters[id].(spec := row.spec, generation := row.generation);
      }
      db := db.(clusters := db.clusters[id := row]);
    }

    /** False is the zero-rows-affected error. */
    method SetDesired(id: Id, desired: DesiredState, now: nat) returns (ok: bool)
      modifies this
      ensures db == Exec(old(db), CS.SetDesiredOp(id, desired, now))
      ensures CS.Found(ok) == Reply(old(db), CS.SetDesiredOp(id, desired, now))
    {
      ok := id in db.clusters;
      if ok {
        var row := db.clusters[id];
        var stamp := row.terminatedAt;
        if desired.WantTerminated? {
          if stamp.None? {
            stamp := Some(I64(now));
          }
        } else {
          stamp := None;
        }
        db := db.(clusters := db.clusters[id := row.(desired := Known(desired), terminatedAt := stamp)]);
      }
    }

    method RecordObservation(id: Id, state: Option<ClusterState>, generation: nat)
      modifies this
      ensures db == Exec(old(db), CS.ObservationOp(id, state, generation))
    {
      if id in db.clusters {
        var row := db.clusters[id].(observedState := state);
        if row.observedGeneration < I64(generation) {
          row := row.(observedGeneration := I64(generation));
        }
        db := db.(clusters := db.clusters[id := row]);
      }
    }

    method BeginIntent(key: string, fp: Fingerprint, now: nat) returns (outcome: IntentOutcome)
      modifies this
      ensures db == Exec(old(db), CS.BeginOp(key, fp, now))
      ensures CS.Outcome(outcome) == Reply(old(db), CS.BeginOp(key, fp, now))
    {
      if key in db.intents {
        outcome := if db.intents[key].paramsFingerprint != fp then ParamMismatch else Proceed(true);
      } else {
        db := db.(intents := db.intents[key := IntentRow(fp, PendingText, None, I64(now), None)]);
        outcome := Proceed(false);
      }
    }

    method CompleteIntent(key: string, response: string, now: nat)
      modifies this
      ensures db == Exec(old(db), CS.CompleteOp(key, response, now))
    {
      if key in db.intents {
        var row := db.intents[key].(status := AppliedText, response := Some(response), completedAt := Some(I64(now)));
        db := db.(intents := db.intents[key := row]);
      }
    }

    /** False when there was no such row. */
    method RemoveCluster(id: Id) returns (ok: bool)
      modifies this
      ensures db == Exec(old(db), CS.RemoveOp(id))
      ensures CS.Found(ok) == Reply(old(db), CS.RemoveOp(id))
    {
      ok := id in db.clusters;
      db := db.(clusters := db.clusters - {id});
    }

    method IsQuarantined() returns (yes: bool)
      ensures yes <==> db.quarantine == Some(true)
    {
      yes := db.quarantine == Some(true);
    }
  }

  // --- Simulation ---

  function ReadClusters(rows: map<Id, ClusterRow>): CS.Clusters
    requires SmallRows(rows)
  {
    map id | id in rows :: ReadCluster(id, rows[id]).value
  }

  function ReadIntents(rows: map<string, IntentRow>): CS.Intents {
    map k | k in rows :: ReadIntent(rows[k])
  }

  /** The tables the database reads back as. */
  function Contents(db: Db): CS.Tables
    requires WellFormed(db)
  {
    CS.Tables(ReadClusters(db.clusters), ReadIntents(db.intents), db.quarantine == Some(true))
  }

  /** Every row decodes, every status text is one the store writes, and no
      column reached the sign bit. */
  predicate WellFormed(db: Db) {
    SmallRows(db.clusters) && SmallIntents(db.intents)
  }

  predicate SmallRows(rows: map<Id, ClusterRow>) {
    forall id | id in rows :: SmallRow(rows[id])
  }

  predicate SmallIntents(rows: map<string, IntentRow>) {
    forall k | k in rows :: SmallIntent(rows[k])
  }

  predicate Small(v: int) {
    0 <= v < TWO63
  }

  predicate SmallOption(v: Option<int>) {
    v.Some? ==> Small(v.value)
  }

  predicate SmallRow(r: ClusterRow) {
    && ParseDesired(r.desired).Some?
    && Small(r.generation) && Small(r.observedGeneration) && Small(r.nextAttemptAt)
    && Small(r.createdAt) && SmallOption(r.terminatedAt) && 0 <= r.failureCount < TWO32
  }

  predicate SmallIntent(r: IntentRow) {
    !r.status.OtherStatus? && Small(r.createdAt) && SmallOption(r.completedAt)
  }

  /** Clock readings, generations and cutoffs below 2^63, failure counts that are u32. */
  predicate SmallOp(op: CS.Op) {
    match op
    case UpsertOp(_, _, now) => Small(now)
    case SetDesiredOp(_, _, now) => Small(now)
    case ObservationOp(_, _, g) => Small(g)
    case AttemptOp(_, f, n) => f < TWO32 && Small(n)
    case BeginOp(_, _, now) => Small(now)
    case CompleteOp(_, _, now) => Small(now)
    case ReapOp(cutoff) => Small(cutoff)
    case _ => true
  }

  predicate GenerationsBelow(db: Db, bound: int) {
    forall id | id in db.clusters :: db.clusters[id].generation < bound
  }

  predicate ClusterOp(op: CS.Op) {
    op.UpsertOp? || op.SetDesiredOp? || op.ObservationOp? || op.ConditionOp? || op.AttemptOp?
  }

  /** One operation does to the two stores the same thing and answers the same. */
  lemma StepSimulates(db: Db, op: CS.Op)
    requires WellFormed(db) && SmallOp(op) && GenerationsBelow(db, TWO63 - 1)
    ensures WellFormed(Exec(db, op))
    ensures Contents(Exec(db, op)) == CS.Step(Contents(db), op)
    ensures Reply(db, op) == CS.Answer(Contents(db), op)
  {
    if ClusterOp(op) {
      ClusterOpSimulates(db, op);
    } else if op.ReapOp? {
      ReapSimulates(db, op);
    } else if op.BeginOp? || op.CompleteOp? {
      IntentOpSimulates(db, op);
    } else if op.RemoveOp? {
      assert Contents(Exec(db, op)).clusters == CS.Step(Contents(db), op).clusters;
    } else {
      assert Contents(Exec(db, op)) == CS.Step(Contents(db), op);
    }
  }

  lemma ReapSimulates(db: Db, op: CS.Op)
    requires WellFormed(db) && SmallOp(op) && op.ReapOp?
    ensures WellFormed(Exec(db, op))
    ensures Contents(Exec(db, op)) == CS.Step(Contents(db), op)
    ensures Reply(db, op) == CS.Answer(Contents(db), op)
  {
    var t := Contents(db);
    forall k | k in db.intents
      ensures Deletable(db.intents[k], op.appliedBefore) <==> CS.Reapable(t.intents[k], op.appliedBefore)
    {
      assert SmallIntent(db.intents[k]);
    }
    assert (set k | k in db.intents && Deletable(db.intents[k], op.appliedBefore))
        == (set k | k in t.intents && CS.Reapable(t.intents[k], op.appliedBefore));
    assert Contents(Exec(db, op)).intents == CS.Step(t, op).intents;
  }

  lemma IntentOpSimulates(db: Db, op: CS.Op)
    requires WellFormed(db) && SmallOp(op) && (op.BeginOp? || op.CompleteOp?)
    ensures WellFormed(Exec(db, op))
    ensures Contents(Exec(db, op)) == CS.Step(Contents(db), op)
    ensures Reply(db, op) == CS.Answer(Contents(db), op)
  {
    var db' := Exec(db, op);
    if db' != db {
      assert op.key in db.intents ==> SmallIntent(db.intents[op.key]);
      var row := db'.intents[op.key];
      assert db'.intents == db.intents[op.key := row];
      assert SmallIntent(row);
      assert ReadIntents(db'.intents) == ReadIntents(db.intents)[op.key := ReadIntent(row)];
    }
  }

  lemma ClusterOpSimulates(db: Db, op: CS.Op)
    requires WellFormed(db) && SmallOp(op) && GenerationsBelow(db, TWO63 - 1) && ClusterOp(op)
    ensures WellFormed(Exec(db, op))
    ensures Contents(Exec(db, op)) == CS.Step(Contents(db), op)
    ensures Reply(db, op) == CS.Answer(Contents(db), op)
  {
    var db' := Exec(db, op);
    if op.id in db.clusters || op.UpsertOp? {
      var row := db'.clusters[op.id];
      assert db' == db.(clusters := db.clusters[op.id := row]);
      RowSimulates(db, op);
      ReadUpdated(db.clusters, op.id, row);
      assert CS.Step(Contents(db), op).clusters
          == Contents(db).clusters[op.id := CS.Step(Contents(db), op).clusters[op.id]];
    }
    AnswersAlike(db, op);
  }

  lemma ReadUpdated(rows: map<Id, ClusterRow>, id: Id, row: ClusterRow)
    requires SmallRows(rows) && SmallRow(row)
    ensures SmallRows(rows[id := row])
    ensures ReadClusters(rows[id := row]) == ReadClusters(rows)[id := ReadCluster(id, row).value]
  {}

  /** The one row the operation touches. */
  lemma RowSimulates(db: Db, op: CS.Op)
    requires WellFormed(db) && SmallOp(op) && GenerationsBelow(db, TWO63 - 1) && ClusterOp(op)
    requires op.id in Exec(db, op).clusters
    ensures SmallRow(Exec(db, op).clusters[op.id])
    ensures op.id in CS.Step(Contents(db), op).clusters
    ensures ReadCluster(op.id, Exec(db, op).clusters[op.id]).value == CS.Step(Contents(db), op).clusters[op.id]
  {
    if op.id in db.clusters {
      assert SmallRow(db.clusters[op.id]);
      assert Contents(db).clusters[op.id] == ReadCluster(op.id, db.clusters[op.id]).value;
    }
  }

  lemma AnswersAlike(db: Db, op: CS.Op)
    requires WellFormed(db) && ClusterOp(op)
    ensures Reply(db, op) == CS.Answer(Contents(db), op)
  {
    if op.UpsertOp? && op.id in db.clusters {
      assert SmallRow(db.clusters[op.id]);
    }
  }

  lemma GenerationsGrowByOne(db: Db, op: CS.Op, bound: int)
    requires WellFormed(db) && 1 <= bound < TWO63 && GenerationsBelow(db, bound)
    ensures GenerationsBelow(Exec(db, op), bound + 1)
  {
    forall id | id in Exec(db, op).clusters ensures Exec(db, op).clusters[id].generation < bound + 1 {
      if id in db.clusters {
        assert SmallRow(db.clusters[id]);
        assert db.clusters[id].generation < bound;
      }
    }
  }

  function RunSql(db: Db, ops: seq<CS.Op>): Db {
    if ops == [] then db else Exec(RunSql(db, ops[..|ops| - 1]), ops[|ops| - 1])
  }

  /** Every history of operations on values below 2^63 leaves the two stores
      holding the same tables and answering the next operation alike. */
  lemma {:induction false} HistoriesAgree(ops: seq<CS.Op>)
    requires |ops| < TWO63 - 2
    requires forall op | op in ops :: SmallOp(op)
    ensures var db := RunSql(EmptyDb, ops);
      && WellFormed(db) && GenerationsBelow(db, |ops| + 1)
      && Contents(db) == CS.Run(CS.EmptyTables, ops)
      && forall op | SmallOp(op) :: Reply(db, op) == CS.Answer(Contents(db), op)
  {
    var db := RunSql(EmptyDb, ops);
    if ops != [] {
      var prefix, last := ops[..|ops| - 1], ops[|ops| - 1];
      HistoriesAgree(prefix);
      assert last in ops;
      StepSimulates(RunSql(EmptyDb, prefix), last);
      GenerationsGrowByOne(RunSql(EmptyDb, prefix), last, |ops|);
    } else {
      assert Contents(db) == CS.EmptyTables;
    }
    forall op | SmallOp(op) ensures Reply(db, op) == CS.Answer(Contents(db), op) {
      StepSimulates(db, op);
    }
  }

  // --- Where the two part ---

  /** Beyond 2^63 the SQL `MAX` compares reinterpreted bits: it keeps the newer
      generation exactly when both values lie on the same side of the sign bit. */
  lemma ObservedMaxAgreesIff(stored: nat, reported: nat)
    requires stored < TWO64 && reported < TWO64
    ensures U64(SqlMax(I64(stored), I64(reported))) == CS.Max(stored, reported)
      <==> (stored < TWO63 <==> reported < TWO63)
  {}

  /** The same for the outbox sweep's age test. */
  lemma ReapTestAgreesIff(completedAt: nat, cutoff: nat)
    requires completedAt < TWO64 && cutoff < TWO64
    ensures (I64(completedAt) < I64(cutoff) <==> completedAt < cutoff)
      <==> (completedAt < TWO63 <==> cutoff < TWO63)
  {}

  /** A concrete history that separates the stores: a report of generation 2^63
      is kept in memory and dropped by the database. */
  lemma HugeGenerationSeparates(spec: ClusterSpec)
    ensures var ops := [CS.UpsertOp("c", spec, 0), CS.ObservationOp("c", None, TWO63)];
      && "c" in CS.Run(CS.EmptyTables, ops).clusters && "c" in RunSql(EmptyDb, ops).clusters
      && CS.Run(CS.EmptyTables, ops).clusters["c"].observedGeneration == TWO63
      && RunSql(EmptyDb, ops).clusters["c"].observedGeneration == 0
  {
    var up, obs := CS.UpsertOp("c", spec, 0), CS.ObservationOp("c", None, TWO63);
    var ops := [up, obs];
    assert ops[..1] == [up] && [up][..0] == [];
    assert CS.Run(CS.EmptyTables, [up]) == CS.Step(CS.EmptyTables, up);
    assert RunSql(EmptyDb, [up]) == Exec(EmptyDb, up);
  }
}
