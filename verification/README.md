# Mobula control plane: a verified model

Mobula keeps the desired state of Ray and Dask clusters in a store and drives
providers towards it. This project models the parts of the control plane whose
correctness depends on whole runs, and proves what they guarantee.

**Reconcile engine and transactional outbox.** `Outbox` is a state machine in
which every step is one store or provider call of a reconcile pass, an API
write, a pool pass, an intent sweep, an out-of-band change or a crash, so passes
work from rows of any age and can stop between any two calls. `Fencing`,
`IntentReuse`, `Refusals`, `BootFence`, `FencingLimits` and `TokenBucket` prove
safety over all its runs. `Passes` is the same engine as an object whose methods
run a row without interruption, and `Treatments` says what that does and answers,
field by field; `PassRuns` proves that such a pass is a run of the machine, and
`LoopSafety` carries fencing over to it; `Convergence` and `BackoffBounds` reason
about sequences of such passes.

**Store.** `ClusterStore` has the in-memory store as an object and its histories
as a function; `SqliteStore` has the relational store, with its casts between
signed and unsigned 64-bit integers written out, and the simulation between them.

**Quota admission.** `Quota` does the accounting, `Admission` the protocol
(concurrent requests that lock, list, check and write, against every other row
write), `Scaling` says what a demand means for clusters that grow and shrink, and
`Resuming` treats the one write that bypasses admission.

**Audit trail.** `Audit` (chain, append, replay), `AuditTamper` (what the chain
makes evident and what it does not), `AuditWindows`, `Backfill`, `AuditPages`,
`AuditCsv`, `AuditColumns`.

**Pools, sweeps, login, decoding.** `PoolFingerprint`, `PoolReconcile`,
`PoolSafety`, `PoolHeld`; `Reaper`, `Expiry` and `Tombstones`; `Lockout`;
`Base64Url`.

How things are represented:

- Every call that crosses to the store or the provider is atomic. Errors,
  answers of the provider, clock readings, the queue assignment, password
  verification and number parsing are parameters, so a statement holds for all
  of them.
- JSON text is represented by the value it encodes (`Types.Fingerprint`), which
  takes serialization to be injective. The audit digest and its canonical
  serialization are functions; a lemma that needs them free of collisions
  assumes it of the inputs that occur, never of all strings.
- Resource amounts and bucket levels are reals. Counters are unbounded except
  where the source saturates, wraps or casts, which is written out.
- Only an apply stamps a generation on a backing cluster; any other change keeps
  or drops the stamp (`Outbox.KeepsStamp`).

Where the code and its comments differ, the model follows the code. An
allocation change that is taken back within one generation, and a pool deleted
and created again as it was, are not applied again
(`PoolHeld.ReversalNotReapplied`, `PoolHeld.RecreatedPoolNotReapplied`), although
the comment on the pool loop says that any desired change produces a fresh key.
An idle window of zero flips a busy cluster (`Reaper.ZeroWindowFlipsBusy`),
although a busy cluster is described as never idle. The SQL audit append hashes
an event before clamping two of its numbers (`Audit.SqlAppendIntactIff`).

Properties that turn out not to hold come with a concrete run and the exact
condition under which they do: change of owner or re-creation of a row
(`FencingLimits`, `IntentReuse`, `Refusals`), several loops at once
(`FencingLimits.TwoLoopsLowerAGeneration`, `BootFence.LowersIffOvertaken`), a
failed boot check (`LoopSafety`), a clock that goes back (`TokenBucket`), 64-bit
values past the sign bit (`SqliteStore`), resume without admission (`Resuming`),
a row re-created under a running sweep (`Tombstones`), and the two pool failures
above (`PoolHeld`).

`dafny verify dfyconfig.toml` checks the project with Dafny 4.11.

## Model

| member | source | states |
|---|---|---|
| `Types.UnchangedSpecFingerprint` | crates/mobula-controller/src/store.rs:101-120 | a spec that does not bump the generation differs from the old one in engine and owner at most, and its fingerprint differs exactly when one of those moved |
| `Keys.DecimalRoundTrip` | crates/mobula-controller/src/store.rs:93-95 | the generation written into a key can be read back |
| `Keys.ClusterKeyInjective` | crates/mobula-controller/src/store.rs:93-95 | `{id}/{generation}` determines id and generation for ids with any characters, slashes included |
| `Keys.PoolKeyInjective` | crates/mobula-controller/src/pool_reconcile.rs:227-234 | `pool:{name}/{generation}:{digest}` determines name, generation and digest for any name |
| `Keys.ClusterPoolKeysDisjoint` | crates/mobula-controller/src/pool_reconcile.rs:227-234 | no cluster key is ever a pool key, even for a cluster id that starts with `pool:` |
| `ClusterStore.InMemoryStore.UpsertDesired` | crates/mobula-controller/src/store.rs:986-1013 | new tables are the upsert of the old ones; answers the stored generation |
| `ClusterStore.InMemoryStore.FlipDesired` | crates/mobula-controller/src/store.rs:1023-1043 | entering Terminated stamps once, leaving clears; unknown id is an error that changes nothing |
| `ClusterStore.InMemoryStore.Observe` | crates/mobula-controller/src/store.rs:1049-1064 | observed generation becomes the maximum of old and reported |
| `ClusterStore.InMemoryStore.OpenIntent` | crates/mobula-controller/src/store.rs:1099-1125 | a fresh key opens Pending, a known key with the same fingerprint is a replay, another fingerprint is refused and changes nothing |
| `ClusterStore.InMemoryStore.CloseIntent` | crates/mobula-controller/src/store.rs:1127-1134 | only that row becomes Applied |
| `ClusterStore.InMemoryStore.SweepIntents` | crates/mobula-controller/src/store.rs:1140-1148 | exactly the Applied rows completed before the cutoff go, and their number is returned |
| `ClusterStore.GenerationCountsChanges` | crates/mobula-controller/src/store.rs:986-1064 | after every history, generation is one plus the number of spec changes since creation, the spec is the last one written, and the observed generation is the newest ever reported |
| `ClusterStore.GenerationsNeverFall` | crates/mobula-controller/src/store.rs:986-1064 | generation and observed generation never decrease over any history without removal of the row |
| `ClusterStore.RowTellsHistory` | crates/mobula-controller/src/store.rs:986-1097 | after every history a row carries the clock of the write that created it, and in each other column what was last written there since |
| `ClusterStore.IntentTellsHistory` | crates/mobula-controller/src/store.rs:1099-1148 | after every history an intent has the fingerprint and clock of the begin that opened it, is Applied exactly when completed, with the response and clock of the last completion, and is gone exactly when completed before the cutoff of a later reap; a begin answers by that |
| `ClusterStore.PendingIntentsStay` | crates/mobula-controller/src/store.rs:1099-1148 | over any history a Pending intent that nobody completes stays exactly as it is: no sweep reaps it and no begin rewrites it |
| `SqliteStore.SqliteStore.UpsertDesired` | crates/mobula-controller/src/store_sqlite.rs:404-465 | the update-two-columns transaction leaves the rows of the relational step and returns its generation |
| `SqliteStore.SqliteStore.SetDesired` | crates/mobula-controller/src/store_sqlite.rs:482-504 | the two-column update with the conditional stamp is the relational step |
| `SqliteStore.SqliteStore.RecordObservation` | crates/mobula-controller/src/store_sqlite.rs:515-538 | the SQL MAX update is the relational step |
| `SqliteStore.SqliteStore.BeginIntent` | crates/mobula-controller/src/store_sqlite.rs:628-676 | insert-or-read of the intent row is the relational step, with the same three answers |
| `SqliteStore.SqliteStore.CompleteIntent` | crates/mobula-controller/src/store_sqlite.rs:678-689 | the status update is the relational step |
| `SqliteStore.SqliteStore.RemoveCluster` | crates/mobula-controller/src/store_sqlite.rs:506-513 | the delete is the relational step, and answers whether a row went |
| `SqliteStore.StepSimulates` | crates/mobula-controller/src/store_sqlite.rs:404-721 | one operation on the database is the same operation on the in-memory tables, for values below 2^63 |
| `SqliteStore.HistoriesAgree` | crates/mobula-controller/src/store_sqlite.rs:404-721 | every history of operations leaves both stores with the same cluster and intent tables and the same answer to the next operation (values below 2^63) |
| `SqliteStore.ObservedMaxAgreesIff` | crates/mobula-controller/src/store_sqlite.rs:515-538 | with full 64-bit values the SQL maximum equals the in-memory one exactly when both lie on the same side of 2^63 |
| `SqliteStore.ReapTestAgreesIff` | crates/mobula-controller/src/store_sqlite.rs:711-721 | likewise for the age test of the intent sweep |
| `SqliteStore.HugeGenerationSeparates` | crates/mobula-controller/src/store_sqlite.rs:515-538 | a two-operation history with a report of 2^63 separates the stores |
| `Fencing.NextKeepsInv` | crates/mobula-controller/src/reconcile.rs:285-323 | every single store or provider call, of any pass with any stale rows, keeps: each (id, generation) names one spec, each cluster intent carries that spec, each Applied intent had an apply |
| `Fencing.OneKeyOneActuation` | crates/mobula-controller/src/reconcile.rs:285-323 | over every run of writes, passes from stale snapshots, crashes between any two calls, pool passes and intent sweeps (no row removal, engine and owner fixed per id): all applies under one key have the same id, generation and spec, no pass is refused for a conflicting intent, every Applied intent was handed to the provider |
| `IntentReuse.DifferentAppliesNeedAReap` | crates/mobula-controller/src/reconcile.rs:285-323 | over every run, with removals, re-creations and changes of owner and engine: two applies under one key are of one id and generation, and if their specs differ that key's intent was reaped between the two begins that let them go on |
| `FencingLimits.OneKeyTwoSpecs` | crates/mobula-controller/src/reconcile.rs:285-323 | a run in which an Applied intent is reaped, the owner changes at the same generation, and one key carries two specs with nobody refused; two of those applies have no reap between them, only between their begins |
| `LoopSafety.LoopIsFenced` | crates/mobula-controller/src/reconcile.rs:207-440 | the call log the loop over `reconcile_one` leaves, from any reachable plane, has one id, generation and spec per key |
| `FencingLimits.ReuseRefusedIff` | crates/mobula-controller/src/store.rs:101-120 | without the fixed engine and owner: the pass after a write is refused exactly when the write keeps the generation and its engine or owner is not the one the intent on file was opened with, however often they moved before |
| `Refusals.RefusedIffFiledOtherwise` | crates/mobula-controller/src/store.rs:1099-1125 | over every run, removals included: a row is refused exactly when the begin that opened the intent on file was of another spec |
| `Refusals.RefusedIffMoved` | crates/mobula-controller/src/reconcile.rs:285-323 | over every run that keeps the row: a begin is refused exactly when the row in hand has another engine or owner than the row whose begin opened the intent on file |
| `Refusals.RecreationRefusedIff` | crates/mobula-controller/src/store.rs:986-1013 | after any run, a row removed and created again is at generation 1 and refused exactly when a begin of the former row at generation 1, of another spec, opened an intent that was not reaped since |
| `FencingLimits.OwnerChangeGoesStale` | crates/mobula-controller/src/reconcile.rs:285-323 | a concrete run in which a change of owner gets a pass refused |
| `FencingLimits.RecreatedRowGoesStale` | crates/mobula-controller/src/reconcile.rs:285-323 | a concrete run in which a re-created row gets a pass refused |
| `BootFence.BootCheck.DetectStaleRestore` | crates/mobula-controller/src/reconcile.rs:560-581 | the first listed row that cannot be observed or is behind the provider decides; Fresh means no stored id is behind the provider, Failed leaves the plane as it was |
| `BootFence.QuarantineHolds` | crates/mobula-controller/src/reconcile.rs:251-260 | from a quarantined plane no run that does not lift the quarantine makes any apply, suspend, terminate, posture, apply_pool or delete_pool call; policy reaps are all it can add to the call log |
| `BootFence.QuarantineLetsSweepReap` | crates/mobula-controller/src/reconcile.rs:533-541 | the retention sweep reaps network policies on a quarantined plane too |
| `LoopSafety.FailedBootLowersAGeneration` | crates/mobula-controller/src/reconcile.rs:560-581 | when the boot check fails on a row that is behind a cluster that is down, listed first among any others and not refused by the outbox, the next pass lowers the generation the provider carries |
| `BootFence.LowersIffOvertaken` | crates/mobula-controller/src/reconcile.rs:223-323 | after a clean boot check, in every run that keeps the row, with any number of passes at once and crashes anywhere: the provider is ahead of an apply exactly when, while its pass was under way, another pass landed a newer generation of that cluster whose stamp still stands; an apply that lands lowers the provider's generation exactly then |
| `BootFence.CurrentRowNeverLowers` | crates/mobula-controller/src/reconcile.rs:285-323 | in all those runs an apply made while the stored row is still of the generation in hand lowers nothing |
| `BootFence.NoApplyLowersAGeneration` | crates/mobula-controller/src/reconcile.rs:285-323 | so with one loop, crashes anywhere and the row not removed, no apply lowers the generation the provider carries for an id stored at boot |
| `FencingLimits.TwoLoopsLowerAGeneration` | crates/mobula-controller/src/reconcile.rs:223-323 | a concrete run of two loops in which an apply takes the provider from generation 2 back to 1 |
| `TokenBucket.TokenBucket.TryTake` | crates/mobula-controller/src/reconcile.rs:103-114 | grants exactly when the refilled level holds a token, and keeps the level within 0 and capacity |
| `TokenBucket.GrantsWithinInflow` | crates/mobula-controller/src/reconcile.rs:86-114 | over any calls at any times, grants plus what is left never exceed what was there plus what flowed in |
| `TokenBucket.CallAccount` | crates/mobula-controller/src/reconcile.rs:103-114 | a call is granted exactly when a whole token is there after the refill, a grant takes exactly one, and only a call that fills the bucket spills |
| `TokenBucket.ExactAccount` | crates/mobula-controller/src/reconcile.rs:86-114 | over any calls, grants plus what is left plus what spilled equal what was there plus what flowed in |
| `TokenBucket.RefusedMeansSpent` | crates/mobula-controller/src/reconcile.rs:103-114 | a stretch without a spill that ends in a refusal granted more than start plus inflow less one |
| `TokenBucket.FullBurst` | crates/mobula-controller/src/reconcile.rs:76-82 | from a full bucket any asks up to the capacity are all granted, whenever they come |
| `TokenBucket.GrantsInAStretch` | crates/mobula-controller/src/reconcile.rs:86-114 | every contiguous stretch of calls, however full or long idle the bucket was before, gets at most capacity plus what flows in from its first call to its last |
| `TokenBucket.GrantsInSeconds` | crates/mobula-controller/src/reconcile.rs:86-114 | on a clock that does not step back that is capacity plus refill times the seconds between first and last call |
| `TokenBucket.ForwardIsElapsedIff` | crates/mobula-controller/src/reconcile.rs:103-108 | the clock moves forward by the elapsed time if and only if it never steps back, and otherwise by more |
| `TokenBucket.BackwardClockGrantsForever` | crates/mobula-controller/src/reconcile.rs:103-114 | on a clock that swings back and forth a ten-second window holds any number of grants |
| `TokenBucket.AppliesWithinGrants` | crates/mobula-controller/src/reconcile.rs:290-315 | over any run from any plane, applies of all clusters and passes, crashed ones included, never outnumber the tokens granted in it and those held at its start |
| `TokenBucket.ProviderBudget` | crates/mobula-controller/src/reconcile.rs:191-196 | in any window of a run whose tokens come from the bucket, applies are at most the tokens held when it opens plus capacity plus what flows in from the first ask in the window to the last; without an ask, only what was held |
| `TokenBucket.ProviderBudgetInSeconds` | crates/mobula-controller/src/reconcile.rs:191-196 | on a clock that does not step back: held plus capacity plus refill times the seconds between those asks |
| `Passes.Reconciler.ReconcileOne` | crates/mobula-controller/src/reconcile.rs:223-440 | the imperative body leaves the world and gives the answer of the treatment functions, on every path and error return; what those mean is stated by the next six rows |
| `Treatments.CallsAre` | crates/mobula-controller/src/reconcile.rs:279-404 | the calls of a treatment, from what is due: posture and apply for a wanted cluster that is missing, going, held down by no queue or behind; terminate and suspend for one that is there and not wanted; none under backoff or quarantine, without a token or when refused |
| `Treatments.AnswersTell` | crates/mobula-controller/src/reconcile.rs:115-133 | each answer is given exactly for its own event: Backoff when gated or without a token, Drift for a degraded or edited cluster, Applied, Terminated and Suspended for the calls they name |
| `Treatments.AnswersUnlessRefused` | crates/mobula-controller/src/reconcile.rs:302-308 | when every call succeeds the only error is the outbox's refusal of an apply |
| `Treatments.CompletedTreatmentIsTruthful` | crates/mobula-controller/src/reconcile.rs:405-437 | a treatment that answers leaves the row with the provider's final state and newest generation; Degraded exactly when seen degraded, SpecDrift exactly when seen up at its generation with live fields that differ, else no condition; backoff counted with min(300, 5*2^(n-1)), cleared or left as the action asks; and nothing else of any row changed |
| `Treatments.QuarantinedOnlyObserves` | crates/mobula-controller/src/reconcile.rs:255-269 | under quarantine a treatment records what it saw and does nothing else |
| `Treatments.OutboxTells` | crates/mobula-controller/src/reconcile.rs:298-316 | a treatment files only under its own key: opened with the row's spec when it goes ahead with an apply, completed with response and clock exactly when it gets that far |
| `Passes.Reconciler.ReconcileAll` | crates/mobula-controller/src/reconcile.rs:207-221 | one row after another, an error on one does not stop the next |
| `PassRuns.PassIsRun` | crates/mobula-controller/src/reconcile.rs:207-440 | a full uninterrupted pass is a run of the call-by-call machine with the same store, outbox, provider and call log, so what is proved of every run holds of the loop |
| `PassRuns.RowRuns` | crates/mobula-controller/src/reconcile.rs:223-440 | the same for one row, through every branch and every error return of the provider and the store |
| `Convergence.TreatQuiets` | crates/mobula-controller/src/reconcile.rs:271-404 | one treatment by a provider that settles leaves the row with no mutating call to make |
| `Convergence.OnePassConverges` | crates/mobula-controller/src/reconcile.rs:271-404 | from any store and provider state one pass (tokens, no backoff, no quarantine, settling provider) reaches a state from which every later pass, at any time and under any outcome, makes no mutating call, and in which the provider has what each row wants unless the outbox refused that row from the start; Running, Suspended and Terminated, queued or not |
| `Convergence.QuietIffAttained` | crates/mobula-controller/src/reconcile.rs:726-742 | no mutating call is left to make exactly when the provider has what the row wants (up and at its generation, gone, or suspended) or the row wants to run and the outbox refuses it |
| `Convergence.RefusalStays` | crates/mobula-controller/src/reconcile.rs:302-308 | a treatment neither lifts nor causes a refusal by the outbox, of its own row or another |
| `Convergence.QuietForever` | crates/mobula-controller/src/reconcile.rs:726-742 | a quiet state stays quiet over any number of passes |
| `BackoffBounds.BackoffClosedForm` | crates/mobula-controller/src/reconcile.rs:67-72 | the capped shift equals min(300, 5*2^(n-1)) for every failure count and the product never saturates |
| `BackoffBounds.AppliesSpreadOut` | crates/mobula-controller/src/reconcile.rs:411-437 | against a provider that accepts and never progresses, applies k and k+1 of a cluster are at least min(300, 5*2^(k-1)) seconds apart, whatever passes, spec writes, flips of desired state and changes of the provider's copy come in between, also between the listing of the row and its treatment |
| `BackoffBounds.RecreationForgetsBackoff` | crates/mobula-controller/src/store.rs:986-1013 | a row removed and created again starts without backoff |
| `BackoffBounds.AppliesInAWindow` | crates/mobula-controller/src/reconcile.rs:228-230 | so any T seconds hold at most 7 + T div 300 applies of it |
| `BackoffBounds.AttemptCountedIff` | crates/mobula-controller/src/reconcile.rs:411-437 | an apply counts towards backoff exactly when it was accepted, the row re-observed, the cluster still down and the store took all of it; a failed apply leaves the row untouched |
| `Quota.ClusterDemand` | crates/mobula-policy/src/lib.rs:133-152 | one loop returns the smallest and the largest sum, or None; `Scaling.DemandBrackets` says what they mean |
| `Scaling.DemandBrackets` | crates/mobula-policy/src/lib.rs:133-152 | both demands are answered exactly for well-formed specs; head plus n_i workers of each group takes, for every n_i within the group's bounds and every resource, at least the first and at most the second, which are reached at all minima and all maxima |
| `Scaling.DemandNames` | crates/mobula-policy/src/lib.rs:95-132 | a demand names cpu and memory, and GPUs exactly when a group asks for some |
| `Quota.MinWithinMax` | crates/mobula-policy/src/lib.rs:133-152 | a demand that is accepted is never negative and its minimum never exceeds its maximum, per resource |
| `Quota.DemandNonNegative` | crates/mobula-policy/src/lib.rs:133-152 | no spec can lower a project's usage |
| `Quota.SumInUse` | crates/mobula-api/src/clusters.rs:428-448 | the accumulation loop is the sum over the listed rows, None as soon as one does not parse |
| `Quota.InUseIsTotal` | crates/mobula-api/src/clusters.rs:428-448 | that sum is, per resource, the set total of the project's other running clusters, whatever order the rows are listed in |
| `Admission.CommitWithin` | crates/mobula-api/src/clusters.rs:402-506 | the write of an admitted request keeps its project within the limit although rows changed since it listed |
| `Admission.NextKeepsInv` | crates/mobula-api/src/clusters.rs:402-506 | every step of every request and every other row write except a resume keeps: locks exclude, a request that passes the check by what it listed also fits by the rows there are now, every limited project is within its limit |
| `Admission.CheckIsExact` | crates/mobula-api/src/clusters.rs:409-470 | the check on listed rows passes exactly when the project fits its limit with that row running |
| `Admission.NoOverCommit` | crates/mobula-api/src/clusters.rs:402-506 | no interleaving of concurrent creations, cross-project moves, suspends, deletes, purges and status writes takes a limited project over its limit on any resource |
| `Scaling.WithinIffFitsScaled` | crates/mobula-policy/src/lib.rs:126-152 | a project is within its limit by the computed demand exactly when it fits however its running clusters scale within their bounds |
| `Scaling.NoOverCommitOfDemand` | crates/mobula-api/src/clusters.rs:402-506 | so no interleaving takes a limited project over its limit however its running clusters scale, whatever the quantity parsers return |
| `Scaling.AdmitsIffFitsScaled` | crates/mobula-policy/src/lib.rs:201-223 | the check on listed rows passes exactly when the project fits with the new cluster running, however everything scales |
| `Admission.AdmittedIff` | crates/mobula-api/src/clusters.rs:409-470 | from behind the lock, list and check admit a request exactly when its project fits with its row running |
| `Admission.LockFreeIff` | crates/mobula-api/src/clusters.rs:402-416 | no lock is lost: over every run whoever waits can take a project's lock exactly when no request of the project is past it |
| `Resuming.InvIffSafe` | crates/mobula-api/src/clusters.rs:402-506 | the protocol's invariant is exact: it holds of a desk exactly when no continuation without a resume takes a limited project over its limit |
| `Resuming.ResumeSafeIff` | crates/mobula-api/src/clusters.rs:738-859 | a resume, which takes no lock and makes no check, leaves every later resume-free run within the limits exactly when the project fits with the row running, and also with the row of a request that listed before the resume and passes its check |
| `Resuming.ResumeWithinIff` | crates/mobula-api/src/clusters.rs:738-859 | the rows after a resume fit exactly when the creation check on the same rows would have passed |
| `Resuming.LockFreeResumeIff` | crates/mobula-api/src/clusters.rs:738-859 | while nobody holds the project's lock, that check alone is the exact condition for a safe resume |
| `Resuming.NoOverCommitWithResumes` | crates/mobula-api/src/clusters.rs:738-859 | no run with resumes, each of them safe when it comes, takes a limited project over its limit |
| `Resuming.ResumesSafeIff` | crates/mobula-api/src/clusters.rs:738-859 | all resumes of a run are safe exactly when from no point of it a resume-free continuation goes over a limit |
| `Resuming.ResumeUnderAdmission` | crates/mobula-api/src/clusters.rs:738-859 | a run in which a resume fits by the rows, comes between a creation's check and its write, and the project ends with two clusters of one |
| `Resuming.ResumeOverCommits` | crates/mobula-api/src/clusters.rs:738-859 | a legal resume of an observed Suspended cluster that breaks the limit, with the demand the source computes |
| `Audit.VerifyAuditChain` | crates/mobula-controller/src/store.rs:437-454 | reports the seq of the first row that does not chain and the number of rows before it; reports none exactly for an intact window |
| `Audit.IntactIffUnbroken` | crates/mobula-controller/src/store.rs:437-454 | the report is empty if and only if every row chains from its predecessor |
| `Audit.AuditLog.RecordAudit` | crates/mobula-controller/src/store.rs:1272-1282 | appends one chained row with the next seq and keeps the trail ascending and intact |
| `Audit.AppendKeepsIntact` | crates/mobula-controller/src/store.rs:1272-1282 | an append never breaks an intact trail |
| `Audit.SqlAppendIntactIff` | crates/mobula-controller/src/store_sqlite.rs:977-1017 | the SQL append, which hashes first and clamps `ts` and `latency_ms` afterwards, keeps the trail intact exactly when both fit a signed 64-bit integer |
| `Audit.Unambiguous` | crates/mobula-controller/src/store.rs:399-413 | hashes of one length make the concatenated hash input determine predecessor and event |
| `AuditTamper.SameEndSameRows` | crates/mobula-controller/src/store.rs:399-454 | two intact trails from one head that end in the same stored hash hold the same events and hashes; equal length need not be assumed when no row hashes to the head |
| `AuditTamper.HashesDistinct` | crates/mobula-controller/src/store.rs:399-454 | no hash repeats along an intact trail |
| `AuditTamper.EditReported` | crates/mobula-controller/src/store.rs:437-454 | an edit of any row but the newest is reported at that row, or at the next one if its hash was recomputed to match |
| `AuditTamper.DeleteReported` | crates/mobula-controller/src/store.rs:437-454 | a deleted row that is not the newest is reported at the row after it |
| `AuditTamper.InsertReported` | crates/mobula-controller/src/store.rs:437-454 | an inserted row is reported itself, or, if its hash was computed to match, at the row after it |
| `AuditTamper.NewestRowsUnprotected` | crates/mobula-controller/src/store.rs:360-371 | dropping the newest rows is never reported, and rewriting the newest row is unreported exactly when its hash is recomputed |
| `AuditTamper.RenumberingUnseen` | crates/mobula-controller/src/store.rs:399-413 | sequence numbers are not hashed: renumbering a trail is never reported |
| `AuditWindows.AuditChain` | crates/mobula-controller/src/store.rs:1284-1304 | the two scans return the rows from `from_seq` on, at most `limit`, and the hash in front of them |
| `AuditWindows.WindowTells` | crates/mobula-controller/src/store.rs:1284-1304 | a window is the first `limit` rows from its start on, headed by the hash in front of it or the genesis |
| `AuditWindows.SqlWindowAgrees` | crates/mobula-controller/src/store_sqlite.rs:1089-1128 | the SQL window with its genesis shortcut and clamped bound is the same window |
| `AuditWindows.GrowingWindows` | crates/mobula-api/src/audit.rs:385-400 | each verification appends a row, so each window reads a longer trail: a window that breaks reports what the first trail whole would have, passing all rows of the first trail means it is intact, and that takes at most as many windows as it has rows |
| `AuditWindows.WindowsAddUp` | crates/mobula-controller/src/store.rs:1284-1304 | on one reading of the trail, verifying from any seq by successive windows of any sizes reports what verifying the rest in one go reports |
| `AuditWindows.WholeTrailByWindows` | crates/mobula-controller/src/store.rs:1284-1304 | so on one reading all windows verify if and only if the whole trail does, with the same first broken seq |
| `AuditWindows.AppendKeepsReport` | crates/mobula-api/src/audit.rs:391-394 | the row each verification appends changes no report, on broken trails too |
| `Backfill.AuditTable.BackfillAuditChain` | crates/mobula-controller/src/store_sqlite.rs:191-220 | the loop terminates (the count of unhashed rows falls) with every unhashed row chained from its predecessor |
| `Backfill.AuditTable.RecordAudit` | crates/mobula-controller/src/store_sqlite.rs:977-1017 | chains from the newest row and stores the clamped event under the hash of the unclamped one |
| `Backfill.FilledChangesOnlyUnhashed` | crates/mobula-controller/src/store_sqlite.rs:191-220 | rows that had a hash are untouched, the others keep seq and event |
| `Backfill.BackfillVerifiesIff` | crates/mobula-controller/src/store_sqlite.rs:191-220 | the backfilled trail verifies from genesis exactly when every hash already there is the one a chain rebuilt from the events has |
| `Backfill.IntactPrefixBackfills` | crates/mobula-controller/src/store_sqlite.rs:191-220 | an intact hashed prefix, possibly empty, is enough, and any number of later SQL appends whose `ts` and `latency_ms` fit keep the trail verifying |
| `AuditPages.ListInMemory` | crates/mobula-controller/src/store.rs:1324-1347 | filter, reverse, truncate gives the page and cursor of the query |
| `AuditPages.ListSql` | crates/mobula-controller/src/store_sqlite.rs:1070-1086 | fetch one row past the limit and truncate gives the same page and cursor |
| `AuditPages.WhereAgrees` | crates/mobula-controller/src/store_sqlite.rs:1024-1069 | the SQL conditions and the in-memory filter pick the same rows for every filter and cursor, below the signed maximum |
| `AuditPages.WhereDiffersIff` | crates/mobula-controller/src/store_sqlite.rs:1024-1069 | at the signed maximum they differ exactly when the clamped cursor or lower time bound lies above it |
| `AuditPages.ClausesNarrow` | crates/mobula-core/src/audit.rs:135-164 | without conditions everything matches, and each condition added keeps exactly the events that meet it |
| `AuditPages.PageSizes` | crates/mobula-core/src/audit.rs:119-134 | 100 rows by default, otherwise what is asked within 1 and 1000 |
| `AuditPages.PageTells` | crates/mobula-controller/src/store.rs:1324-1347 | a page holds the newest matches up to its size, and the cursor of its last row exactly when there are more |
| `AuditPages.MatchingIsFilter` | crates/mobula-core/src/audit.rs:135-164 | a query is about exactly the rows that match, strictly newest first |
| `AuditPages.CursorContinues` | crates/mobula-controller/src/store.rs:1324-1347 | the cursor from a page's last row continues right after that row |
| `AuditPages.CursorsReturnSnapshot` | crates/mobula-controller/src/store.rs:1324-1347 | following the cursors to the end returns exactly what matched at the first request, newest first and once each, for any limit and any appends between pages, in at most one request more than there are full pages |
| `AuditCsv.CsvWriter.Field` | crates/mobula-api/src/audit.rs:155-168 | pushes the field, quoted and with quotes doubled exactly when it holds a comma, quote, CR or LF |
| `AuditCsv.CsvWriter.Render` | crates/mobula-api/src/audit.rs:172-209 | the buffer holds the header line and one record of 14 cells per row |
| `AuditCsv.TableRoundTrip` | crates/mobula-api/src/audit.rs:155-209 | reading any rendered table of non-empty records with a quoting-aware reader returns its cells |
| `AuditCsv.ExportRoundTrip` | crates/mobula-api/src/audit.rs:172-209 | reading an export returns the header and the 14 cells of every row, whatever the cells hold |
| `AuditColumns.ExportTellsRows` | crates/mobula-api/src/audit.rs:172-209 | whoever reads an export back finds under each of the 14 column names the row's own field, numbers in decimal, absent fields empty and roles separated by semicolons |
| `AuditColumns.PlainIff` | crates/mobula-api/src/audit.rs:155-168 | a cell is written bare exactly when it has no comma, quote, CR or LF |
| `PoolFingerprint.FingerprintCanonical` | crates/mobula-controller/src/pool_reconcile.rs:203-211 | two listings of allocations give one fingerprint if and only if spec and set of allocations agree, whatever their order |
| `PoolFingerprint.ComputeDigest` | crates/mobula-controller/src/pool_reconcile.rs:215-222 | the wrapping FNV-1a loop gives the 16 hex characters of the fold |
| `PoolFingerprint.KnownDigests` | crates/mobula-controller/src/pool_reconcile.rs:215-222 | the published 64-bit FNV-1a values of two texts |
| `PoolReconcile.PoolReconciler.ReconcileOne` | crates/mobula-controller/src/pool_reconcile.rs:113-163 | the imperative body is the treatment function, with its answer |
| `PoolReconcile.PoolReconciler.ReconcileAll` | crates/mobula-controller/src/pool_reconcile.rs:68-111 | every listed pool, then one delete for each converged name that is no longer listed, none while quarantined |
| `PoolSafety.PoolTreatmentTells` | crates/mobula-controller/src/pool_reconcile.rs:138-162 | when every call succeeds: the desired state on file as Applied is a no-op, another state under its key an error, and otherwise the pool is applied and its row completed |
| `PoolSafety.AnswerMarks` | crates/mobula-controller/src/pool_reconcile.rs:143-162 | outside quarantine a treatment that answers, no-op included, marks its pool converged; a failed or quarantined one marks nobody |
| `PoolSafety.AnsweredThenDeleted` | crates/mobula-controller/src/pool_reconcile.rs:83-162 | in every run, once a pool was answered for, the next sweep outside quarantine that does not list it asks for its delete, unless the process restarts in between |
| `PoolSafety.RestartThenPass` | crates/mobula-controller/src/pool_reconcile.rs:68-162 | a restart forgets the marks and one pass restores those of all pools it gets an answer for |
| `PoolSafety.QuarantinedPoolsHold` | crates/mobula-controller/src/pool_reconcile.rs:125-132 | while quarantined the pool loop makes no call and marks nobody, over every run |
| `PoolSafety.NoOpMeansApplied` | crates/mobula-controller/src/pool_reconcile.rs:113-149 | in every run, a no-op outside quarantine is about a fingerprint the provider once accepted for that pool |
| `PoolSafety.AppliedAtMostOnce` | crates/mobula-controller/src/pool_reconcile.rs:138-162 | between intent sweeps a pool in unchanged desired state gets at most one completed apply, however its allocations are listed and whatever else happens |
| `PoolSafety.ConvergedLeavesAfterDelete` | crates/mobula-controller/src/pool_reconcile.rs:83-100 | a name leaves the converged set only in a sweep that no longer lists the pool and in which its delete succeeded |
| `PoolSafety.SweepTriesEveryVanished` | crates/mobula-controller/src/pool_reconcile.rs:83-100 | a sweep outside quarantine asks for the delete of every converged pool no longer listed and forgets exactly those whose delete succeeded |
| `PoolHeld.NoOpHoldsIff` | crates/mobula-controller/src/pool_reconcile.rs:138-162 | in every run, with deletes, reaps, restarts and failed calls that may have landed: after a no-op outside quarantine the provider holds the desired state exactly when no delete and no apply to the pool took effect after the last apply of that state |
| `PoolHeld.RecreatedPoolNotReapplied` | crates/mobula-controller/src/pool_reconcile.rs:138-151 | a pool applied, deleted and listed again as it was: every later pass answers NoOp and the provider has nothing |
| `PoolHeld.PassesHold` | crates/mobula-controller/src/pool_reconcile.rs:138-162 | after passes over one pool that all succeed the provider holds the last desired state that was new when it came |
| `PoolHeld.HoldsDesiredIff` | crates/mobula-controller/src/pool_reconcile.rs:138-162 | so it holds the current one exactly when every new state with another fingerprint was followed by a new one with the current fingerprint |
| `PoolHeld.HoldsDesiredWhileItLives` | crates/mobula-controller/src/pool_reconcile.rs:138-162 | while generations only rise: exactly when nothing new, equivalently nothing new with another fingerprint, came after the current (generation, fingerprint) first showed |
| `PoolHeld.ReversalNotReapplied` | crates/mobula-controller/src/pool_reconcile.rs:138-162 | an allocation change that is taken back within one generation leaves the provider with the change |
| `Reaper.LastActivityAt` | crates/mobula-controller/src/reconcile.rs:689-700 | `now` if any job is unfinished, else the latest of creation and job ends; the early return loses nothing |
| `Reaper.LifecycleReaper.ReapExpired` | crates/mobula-controller/src/reconcile.rs:462-509 | the bucketed pass flips and returns what a per-cluster reading of the whole history does |
| `Reaper.ReasonIs` | crates/mobula-controller/src/reconcile.rs:659-711 | flipped for age exactly when wanted and observed Running and created at least its max age ago (a max age of zero always counts); for idleness exactly when wanted and observed Running, not over age, and the window is zero or every job is finished and everything lies at least the window back |
| `Reaper.TerminalStatuses` | crates/mobula-controller/src/reconcile.rs:667-677 | three statuses end a job, in any case; every other leaves the cluster busy |
| `Expiry.CreatedBy` | crates/mobula-controller/src/store.rs:986-1013 | every stored row was created by one upsert of its history and carries its clock |
| `Expiry.FlippedForAgeIff` | crates/mobula-controller/src/reconcile.rs:659-665 | over every store history a row is flipped for age exactly when last wanted and reported Running, with a max age in the spec last written, and created by an upsert at least that far back |
| `Expiry.PassFlipsDue` | crates/mobula-controller/src/reconcile.rs:462-509 | a pass over the stored rows flips and returns exactly those with a reason and leaves every other as it was |
| `Expiry.AgedStaysAged` | crates/mobula-controller/src/reconcile.rs:659-665 | a row due for its age stays due at every later time, after any writes that keep it and do not raise its max age, whenever it is wanted and seen Running |
| `Reaper.OrderOfJobsIrrelevant` | crates/mobula-controller/src/reconcile.rs:465-475 | the order of the job history does not matter |
| `Reaper.BusyClustersSurvive` | crates/mobula-controller/src/reconcile.rs:689-711 | with a positive idle window a cluster with an unfinished job is never flipped before its max age |
| `Reaper.ZeroWindowFlipsBusy` | crates/mobula-controller/src/reconcile.rs:705-711 | a busy cluster is flipped exactly when over age or with an idle window of zero |
| `Reaper.FlipsExactly` | crates/mobula-controller/src/reconcile.rs:478-506 | after a pass exactly the reaped rows are Terminated and every other row is as before |
| `Tombstones.StampIsStretchStart` | crates/mobula-controller/src/store.rs:1023-1043 | in every reachable table `terminated_at` is set exactly for Terminated rows and is the time of the write that began the current Terminated stretch |
| `Tombstones.RetentionSweep.ReapTerminated` | crates/mobula-controller/src/reconcile.rs:517-552 | per listed row: nothing, a policy reap, or a policy reap and a removal; a failed reap keeps the row |
| `Tombstones.RemovalsJustified` | crates/mobula-controller/src/reconcile.rs:517-552 | each removal follows directly a successful reap of that row's policies and concerns a purgeable listed row |
| `Tombstones.RemovedIff` | crates/mobula-controller/src/reconcile.rs:517-552 | of stored rows listed once, those removed are exactly the purgeable ones whose policies were reaped |
| `Tombstones.SweepKeepsRetention` | crates/mobula-controller/src/reconcile.rs:517-552 | each removed row had been Terminated without a break for at least the retention window and was last observed gone |
| `Tombstones.SweepIsExact` | crates/mobula-controller/src/reconcile.rs:517-552 | after any history a sweep removes exactly the rows Terminated since a write at least the retention window ago, last observed gone, whose policies it could reap |
| `Tombstones.SweepOfMovedTable` | crates/mobula-controller/src/reconcile.rs:517-552 | with any writes between listing and removal: what is removed met retention and was observed gone when listed, and is still in that Terminated stretch exactly when none of the writes removed it or wanted it up or suspended |
| `Tombstones.StretchUnbrokenIff` | crates/mobula-controller/src/store.rs:1023-1047 | a Terminated stretch lasts through a history of writes exactly when none of them breaks it |
| `Tombstones.RecreatedRowIsSwept` | crates/mobula-controller/src/reconcile.rs:517-552 | a purge and re-creation in that gap: the sweep removes the new row, which is wanted Running |
| `Lockout.LocalAuthenticator.Login` | crates/mobula-auth/src/local.rs:214-252 | unknown, disabled, locked, wrong and right in that order; only the last two change the user, and no other user changes |
| `Lockout.CounterStaysBelow` | crates/mobula-controller/src/store.rs:348-355 | the failure counter never reaches five |
| `Lockout.LockedRunsChangeNothing` | crates/mobula-auth/src/local.rs:232-238 | while a lock is in force no attempt, right or wrong, changes anything or is counted |
| `Lockout.SuccessStartsOver` | crates/mobula-auth/src/local.rs:232-247 | after an accepted password four wrong ones still let the right one in; five lock everything out until 300 seconds after the fifth, and then the right one is accepted |
| `Lockout.DisabledStaysOut` | crates/mobula-auth/src/local.rs:226-231 | a disabled user is refused at every attempt and nothing is recorded |
| `Lockout.WrongPasswordsBounded` | crates/mobula-auth/src/local.rs:214-252 | any sequential run of T seconds without a success gets at most 5*(T div 300 + 1) wrong passwords counted |
| `Lockout.BoundReached` | crates/mobula-controller/src/store.rs:348-355 | the bound is the best one: for every T there is such a run within T seconds that reaches it |
| `Base64Url.Base64UrlDecode` | crates/mobula-cli/src/main.rs:1070-1096 | the 32-bit accumulator that drops high bits decodes as one unbounded integer would; None exactly when a character in front of the first '=' is no digit |
| `Base64Url.Base64UrlEncode` | crates/mobula-cli/src/main.rs:1539-1557 | the chunk loop is the encoding function |
| `Base64Url.RoundTrip` | crates/mobula-cli/src/main.rs:1070-1096 | decoding inverts encoding for every byte string, bare, padded or followed by anything after an '=' |
| `Base64Url.AlphabetOrder` | crates/mobula-cli/src/main.rs:1071-1081 | the digits are the URL-safe alphabet in its order |

## Left out

- Gateway proxying, websocket bridging, header filters and observability routes: input and output with one-branch filters.
- OIDC, JWKS, JWT validation, OAuth flows and bcrypt: network calls and libraries outside the repository; password checks are a parameter.
- The Postgres store: it mirrors the SQLite one, and its transactions reduce to the same atomic steps.
- Metering, usage reports, time-windowed budgets and Prometheus rendering: aggregation and formatting beside the admission protocol; a budget refusal is a request that leaves.
- Role and permission tables, scope grammar, policy seeding, GPU tenant-isolation checks, job-status merging: case analyses that would only add easy members.
- API tokens (issue, prefix lookup, revocation): they rest on bcrypt and random numbers.
- CLI wiring, OpenAPI, tracing, demo data and deployment files.
- Opaque provider internals (KubeRay, Dask, Kueue): a provider is any sequence of answers and states.
- Limits that change while requests are in flight, and more than one API process: `Admission` fixes the limits and has one set of locks, as the source's in-process locks do.
- Floating-point rounding of resource amounts and token levels: both are reals.
- Concurrent logins of one user: `Lockout` takes attempts one after another; the source reads and writes the counter in two calls.
- Reconcile errors of `reap_expired` part-way through: a pass that stops early has treated a prefix of the listed rows.
- `list_audit` columns: the SQL conditions are modelled over stored values, not over SQL text.
- Quota.ClusterDemand: numbers are parsed by parameters, so suffixes and units are not modelled.
- Lockout.WrongPasswordsBounded: `now + 300` is taken not to overflow 64 bits.
- Fencing.OneKeyOneActuation: the queue assignment an apply also carries is resolved at each pass and not part of the recorded call, so one key means one id, generation and spec, not one queue.
- Passes.Reconciler.ReconcileOne: a store call that fails leaves no trace here; one that takes effect and then fails is, in the call-by-call machine, that call followed by an abort.
- BackoffBounds.AppliesSpreadOut: the passes of one cluster do not overlap, as one loop runs them, the row is not removed, and the store calls after an apply succeed (`BackoffBounds.AttemptCountedIff` says what happens otherwise).
- Convergence.OnePassConverges: the pass is uninterrupted and every call in it settles; a degraded cluster counts as there, since it is reported and not re-applied.
- AuditTamper.SameEndSameRows: equality is of events and hashes, because sequence numbers are not hashed.
