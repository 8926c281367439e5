# Network operations platform: proved models of six components

The project models the parts of the repository whose correctness depends on histories rather than on
single calls, and proves what they promise.

| files | component |
|---|---|
| `Incidents`, `Cleanup`, `CleanupUndo`, `CleanupRuns`, `CleanupSchedule`, `CleanupWriters`, `CleanupStack`, `CleanupLedger`, `CleanupAttached`, `CleanupPlan`, `CleanupColumns`, `CleanupDatabase` | the reversible, resumable cleanup of duplicate incidents, as transactions over incidents, foreign-key cells, and the pending, undo and relink tables |
| `RateWindow`, `RateOptimal`, `RateWaiters`, `RateLimiter` | the sliding-window rate limiter and its waiting tasks |
| `MigrationGraph` | breadth-first ancestors and downgrade targets over the migration graph |
| `SnmpOids`, `SnmpMib`, `SnmpRoundTrip`, `SnmpServed`, `SnmpAgent` | the lab SNMP agent: OID table, GETNEXT order, decoding, every entry with its identifier and type |
| `IndexSwap` | the online replacement of the dedup index of normalized_events |
| `HealthThresholds`, `HealthPayload` | health readings against thresholds |
| `Wrappers`, `Sets` | Option, Result, counting through a bijection |

State that the program changes in place lives in classes (`Database`, `RateLimiter`, `NormalizedEvents`,
`LabSnmpAgent`). Their methods are proved against functions on values (`TryStart`, `TryBatch`, `TryUndo`,
`Decide`, `After`, `Migrate`, `Table`, `Next`), and the properties are lemmas about those functions over
every run. What those functions compute is in turn characterised column by column and with the literal
constants (`KeeperIsLatest`, `CleanupColumns`, `TargetDeclared`, `SnmpServed`, `HealthPayload`). PostgreSQL transactions are atomic steps; a crash is a process that stops between two of them.
Clocks, UUIDs, the rows picked by `LIMIT`, the wake order of tasks and everything other writers do are
arbitrary.

What came out differently from what the code's comments say, or only holds under a condition:

* Undo writes NULL to `archived_at` and `closure_reason` (`backend/scripts/cleanup_duplicate_incidents.py:397`),
  so it restores the very database exactly when both were NULL on the incidents archived
  (`UndoFromAnyPoint`).
* Undo can be refused as a whole by a constraint, after legal writes of the application: when a
  reference inserted after the relinking is exclusive with one that would return
  (`LateReferenceBlocksUndo`), when an archived incident's alert has fired again and opened a new
  incident with the same signature (`RefiredSignatureBlocksUndo`), or when the incident a reference would
  return to has been deleted (`DeletedOriginBlocksUndo`). `UndoRefusedIff` and `StackedUndo` give the
  exact conditions.
* "Nothing is left attached to an archived incident" (lines 12-15) holds exactly if no reference to an
  incident the run archives is written, and stays, after the relinking (`NothingLeftAttachedIff`).
* `undo.incident_id` is UNIQUE (line 62). A run one of whose incidents was archived by an earlier run and
  reopened by other means cannot finish while that run's undo row exists (`ReopenedRunIsStuck`);
  `StuckIff` gives the exact condition.
* `main` calls the apply only when the dry run counts something to archive (lines 435-440). If the
  application closes the rest of an interrupted run's incidents, that count is zero and the run's rows
  stay in the pending table (`ClosedIncidentsStrandRun`).
* Undoing the older of two stacked runs first is right exactly when no reference was moved by both and
  neither undo is refused (`OldestFirstIff`).
* The waiting form of the limiter lets N tasks in within 60 s for every started group of `rpm` tasks if
  every rejected try has at least 1 ms left, and within 60.001 s in any case (`WaitersGetIn`). Sixty
  seconds is not enough in general, because of the 1 ms floor (`SixtySecondsIsTooTight`).
* The retry hint is tight exactly when at least 1 ms was left (`RetryHint`).
* The downgrade target of a merge head is a nearest common ancestor, not always the lowest one
  (`TargetNeedNotBeLowest`); `TargetLowestIff` and `LowestIff` say when it is.
* `IF NOT EXISTS` looks at the index name only. As long as the version row is left to alembic this is
  harmless, because a temporary index is always of the kind being built (`EveryMigrationSwaps`). With the
  version row set by hand after an interrupted downgrade, the next upgrade installs the full index
  (`InterruptedDowngrade`).

## Model

| member | source | states |
|---|---|---|
| Incidents.FirstExists | backend/scripts/cleanup_duplicate_incidents.py:109-115 | the order (last alert, alert count, id) has a first row in every non-empty group, so `first_value` is well defined |
| Incidents.RowNumberOneIsKeeper | backend/scripts/cleanup_duplicate_incidents.py:110-114 | `row_number() = 1` marks exactly the incident that `first_value(id)` names |
| Incidents.OneKeeperPerGroup | backend/scripts/cleanup_duplicate_incidents.py:98-116 | two open incidents have the same keeper exactly when they are in the same (scope, title) group; a keeper is open, in the tenant and never a duplicate; the duplicates are exactly the others |
| Incidents.KeeperSurvives | backend/scripts/cleanup_duplicate_incidents.py:98-116 | archiving any duplicates changes no remaining incident's keeper |
| Incidents.KeeperIsLatest | backend/scripts/cleanup_duplicate_incidents.py:109-115 | of the open incidents with the same device, site and title the keeper is one that alerted last, among those one with most alerts, and among those the first by id |
| Incidents.DuplicateIff | backend/scripts/cleanup_duplicate_incidents.py:98-116 | an incident is archived if and only if it is open and another open one with the same title and scope (device, else site) precedes it by date, then count, then id, all said of the columns |
| Incidents.KeeperFields | backend/scripts/cleanup_duplicate_incidents.py:109-115 | the keeper of an open incident is open, has its title and scope, and comes before every other such incident by date, then count, then id |
| CleanupRuns.SnapshotOk | backend/scripts/cleanup_duplicate_incidents.py:266-283 | the pending rows of a new run are exactly the tenant's duplicates with their present statuses, and no keeper is itself pending in the run |
| CleanupRuns.StartedCell | backend/scripts/cleanup_duplicate_incidents.py:287-316 | after the first transaction a reference has a relink row exactly if it pointed at a duplicate; then it points at that group's keeper and the row says where it came from; otherwise it is unchanged |
| CleanupRuns.RelinkSound | backend/scripts/cleanup_duplicate_incidents.py:272-316 | one pass over the columns leaves no reference on a duplicate, every changed reference is on its own group's keeper and recorded, the set of references, all incidents and all undo rows are unchanged |
| CleanupRuns.RelinkCompose | backend/scripts/cleanup_duplicate_incidents.py:289-315 | column after column equals all columns at once, whatever order or repetition the catalog has: no reference moves twice in a run |
| CleanupRuns.StartedReferences | backend/scripts/cleanup_duplicate_incidents.py:287-316 | the first transaction breaks no foreign key, because every keeper exists |
| CleanupUndo.UndoFromAnyPoint | backend/scripts/cleanup_duplicate_incidents.py:255-409 | undo after the first transaction and any committed batches (none, some, all) restores statuses, references and bookkeeping; the result is the very database before the run if and only if the archived incidents had no closing date or reason; it is accepted if and only if the state before the run was legal |
| CleanupUndo.UndoRefusedIff | backend/scripts/cleanup_duplicate_incidents.py:369-407 | on a legal database undo is refused if and only if a reference it would return meets an exclusive partner that then holds the same incident, a catalog reference would return to an incident that is gone, or an incident it would open again meets another one with its signature that is open or opened by the same undo |
| CleanupStack.StackedUndo | backend/scripts/cleanup_duplicate_incidents.py:287-316 | any number of runs stacked with new incidents and references in between, each stopped anywhere, keepers archived and references moved again: undoing latest first is accepted throughout if and only if for every layer the state before its run together with the later additions is legal, and then leaves the start plus exactly the additions, up to the closing fields of archived incidents |
| CleanupStack.LateReferenceBlocksUndo | backend/app/models/incident_notification.py:22 | after a run has moved a reference off a duplicate, inserting an exclusive partner for the duplicate is legal and makes undo of the run be refused |
| CleanupStack.RefiredSignatureBlocksUndo | backend/app/models/incident.py:106-112 | after a run has archived an open incident, a new open incident with its signature makes undo of the run be refused |
| CleanupStack.DeletedOriginBlocksUndo | backend/scripts/cleanup_duplicate_incidents.py:382-386 | once a run has moved a reference off an incident, deleting that incident is legal and makes undo of the run be refused by the foreign key |
| CleanupStack.UndoesCommute | backend/scripts/cleanup_duplicate_incidents.py:365-409 | in any state, if either of two runs that recorded no common reference may be undone first, both orders end alike or are both refused at the second undo |
| CleanupStack.SharedCellStranded | backend/scripts/cleanup_duplicate_incidents.py:382-386 | if both undos are accepted oldest first, a reference moved by both runs ends on the first run's keeper, not where it started |
| CleanupStack.OldestFirstIff | backend/scripts/cleanup_duplicate_incidents.py:365-409 | oldest-first undo of two stacked runs is accepted and gives start plus additions if and only if no reference was moved by both, the first undo is accepted and that result is legal |
| CleanupSchedule.ArchivingCompose | backend/scripts/cleanup_duplicate_incidents.py:326-348 | two disjoint batches equal one batch over their union, in any state, also after outside status changes |
| CleanupSchedule.DrainIsOneStep | backend/scripts/cleanup_duplicate_incidents.py:319-360 | for every batch size and every pick of `LIMIT`, the committed batches equal one archive step over all they picked |
| CleanupSchedule.DrainRemaining | backend/scripts/cleanup_duplicate_incidents.py:320-359 | after k batches of n exactly max(0, pending - k*n) rows are left: the loop ends for n >= 1 and never progresses for n = 0 |
| CleanupSchedule.StuckIff | backend/scripts/cleanup_duplicate_incidents.py:341-348 | a run can be emptied by some schedule if and only if none of its archivable incidents still has an undo row; if so no batch ever fails |
| CleanupSchedule.DuplicatesAt | backend/scripts/cleanup_duplicate_incidents.py:98-116 | in the middle of a run the ranking finds exactly the not yet archived duplicates |
| CleanupSchedule.PendingAt | backend/scripts/cleanup_duplicate_incidents.py:232-239 | in the middle of a run the tenant's pending rows all belong to that run and are exactly the duplicates not yet archived |
| CleanupSchedule.ApplyIsFixpoint | backend/scripts/cleanup_duplicate_incidents.py:266-286 | after a complete run another apply finds nothing, returns None and changes nothing |
| CleanupSchedule.ScheduleRefinesOneStep | backend/scripts/cleanup_duplicate_incidents.py:255-362 | any number of processes with any batch sizes, picks and crashes: the tenant is untouched or exactly some duplicates of the run of one of the processes are archived, and when nothing is pending the end is the one-step archive of all duplicates of the start |
| CleanupSchedule.UndoAfterSchedule | backend/scripts/cleanup_duplicate_incidents.py:365-409 | whatever such a schedule left, undo of the run of one of its processes is accepted and gives the starting database, with the closing fields of exactly the incidents in its undo rows cleared |
| CleanupWriters.WritesThenOneStep | backend/scripts/cleanup_duplicate_incidents.py:319-360 | with writes of others, deletions included, in any order between the batches, none to an incident after its batch, the end is all writes first and then one archive step over everything picked; an incident whose status a write changed before its batch is skipped |
| CleanupWriters.RunAmongWriters | backend/scripts/cleanup_duplicate_incidents.py:266-360 | a complete run among such writers, whatever its processes, crashes, batch sizes and picks: exactly its snapshot is picked, in one step after all writes |
| CleanupWriters.ReopenedRunIsStuck | backend/scripts/cleanup_duplicate_incidents.py:62 | after a complete run, an incident reopened as it was ranks as the tenant's one duplicate; the next run commits its first transaction, can never finish while the first run's undo row exists, and can once it is gone |
| CleanupLedger.FreshIsBalanced | backend/scripts/cleanup_duplicate_incidents.py:270 | a run id without rows, as a new one has, starts every history balanced |
| CleanupLedger.SessionIsHistory | backend/scripts/cleanup_duplicate_incidents.py:255-362 | what a process does, started on any database and stopped anywhere, is a history of starts and batches as the ledger records them |
| CleanupLedger.BatchObserved | backend/scripts/cleanup_duplicate_incidents.py:326-348 | a picked incident with its recorded status is written down as archived, any other one as skipped with the status it has or as gone |
| CleanupLedger.Conservation | backend/scripts/cleanup_duplicate_incidents.py:287-345 | over every history of runs, undos, batches and arbitrary legal outside edits, each incident of a run's snapshot is in exactly one of pending, undo and skipped; it has an undo row if and only if a batch of this run was seen to change it, and the row holds the status it had just before; it was skipped only with another status than in the snapshot or without a row; and the run's relink rows are exactly the references it was seen to move, with old and new incident |
| CleanupLedger.UndoRespectsEdits | backend/scripts/cleanup_duplicate_incidents.py:365-407 | after every such history undo either changes nothing, exactly when one of the three conflicts exists, or reopens exactly the incidents the run archived that are still archived, returns exactly the references seen to move that are still where the run put them, and leaves skipped incidents, later edits and all rows of other runs alone |
| CleanupAttached.NothingLeftAttachedIff | backend/scripts/cleanup_duplicate_incidents.py:12-16 | after the start of a run and any history of batches, outside writes and other runs, no catalog reference is on an incident the run has archived if and only if no later step put one there that stayed |
| CleanupAttached.AttachingStep | backend/scripts/cleanup_duplicate_incidents.py:12-16 | only an outside write, the start of a run whose keeper the incident is (and then it is open), or the undo of a run that had moved the reference off it can put a reference on an incident; a batch never does |
| CleanupAttached.LateReferenceStaysAttached | backend/scripts/cleanup_duplicate_incidents.py:326-340 | a reference written to a duplicate after the first transaction and before its batch is left on the archived incident |
| CleanupPlan.PlanAddsUp | backend/scripts/cleanup_duplicate_incidents.py:171-184 | keep + archive = open total, keep = number of groups, and something is archived exactly when some group has two members |
| CleanupPlan.PlanPredictsApply | backend/scripts/cleanup_duplicate_incidents.py:167-211 | a complete apply on the state of the dry run archives exactly `archive` incidents, moves exactly the reported number of references per column and leaves `keep` open incidents |
| CleanupPlan.PlanPredictsResume | backend/scripts/cleanup_duplicate_incidents.py:167-211 | a dry run in the middle of an interrupted run announces exactly what resuming it does: it archives `archive` more incidents, namely those pending, reports no references to move, and none moves |
| CleanupPlan.NoDuplicatesOnePerGroup | backend/scripts/cleanup_duplicate_incidents.py:98-116 | a tenant has no duplicates if and only if no group has two open members |
| CleanupColumns.StartOutcome | backend/scripts/cleanup_duplicate_incidents.py:269-317 | the first transaction finds nothing exactly without duplicates; fails for a duplicate that is pending, else for a table without id column, else for a unique constraint; otherwise commits |
| CleanupColumns.SnapshotColumns | backend/scripts/cleanup_duplicate_incidents.py:266-283 | the pending row of a duplicate has the run, the tenant, its status, and an open incident of the same title and scope as keeper, which is itself kept |
| CleanupColumns.BatchColumns | backend/scripts/cleanup_duplicate_incidents.py:326-348 | a committed batch sets status, closing date and the literal reason of exactly the picked incidents that still have their recorded status, and their undo rows repeat the pending rows with the date of the batch; picked rows leave the pending table; nothing else changes |
| CleanupColumns.BatchRefusedIff | backend/scripts/cleanup_duplicate_incidents.py:341-348 | a batch is refused if and only if a picked incident it would archive has an undo row |
| CleanupColumns.LegalIff | backend/app/models/incident.py:106-112 | the constraints of a legal database, said of the columns: exclusive pairs, one open incident per tenant and signature, references to existing incidents |
| CleanupColumns.UndoColumns | backend/scripts/cleanup_duplicate_incidents.py:369-407 | an accepted undo, incident by incident and reference by reference, and the rows it removes |
| CleanupColumns.PlanFailsIff | backend/scripts/cleanup_duplicate_incidents.py:152-163 | the report fails if and only if there are duplicates and a table of the catalog has no id column |
| CleanupColumns.PlanReports | backend/scripts/cleanup_duplicate_incidents.py:171-211 | the report counts the open incidents, the groups with two or more of them, the duplicates, the kept ones, and per column the references to duplicates, omitting columns with none |
| CleanupDatabase.Database.BuildPlan | backend/scripts/cleanup_duplicate_incidents.py:167-211 | the dry run computes the plan, including the error for a table without id column, and changes nothing |
| CleanupDatabase.Database.PendingRunOf | backend/scripts/cleanup_duplicate_incidents.py:232-239 | finds a pending run of the tenant exactly when there is one |
| CleanupDatabase.Database.RelinkColumns | backend/scripts/cleanup_duplicate_incidents.py:289-315 | the loop over the catalog's columns amounts to one relink over all of them |
| CleanupDatabase.Database.RelinkOrAbort | backend/scripts/cleanup_duplicate_incidents.py:287-316 | all columns move or, if a unique constraint refuses the result, none |
| CleanupDatabase.Database.StartRun | backend/scripts/cleanup_duplicate_incidents.py:269-317 | the first transaction commits snapshot and relinks, or leaves the database as it was with nothing to do or an error |
| CleanupDatabase.Database.ArchiveBatch | backend/scripts/cleanup_duplicate_incidents.py:321-356 | one archive transaction over a pick of `LIMIT` rows, with the number left; on a repeated undo row nothing changes |
| CleanupDatabase.Database.Drain | backend/scripts/cleanup_duplicate_incidents.py:319-361 | the batch loop terminates with nothing pending, or stops at a blocked incident; what it did is a sequence of valid batches |
| CleanupDatabase.Database.ApplyCleanup | backend/scripts/cleanup_duplicate_incidents.py:255-362 | one call is one session of a schedule: it resumes a pending run or starts a new one; None means nothing to archive and no change; a returned run has nothing pending |
| CleanupDatabase.Database.RunTenant | backend/scripts/cleanup_duplicate_incidents.py:435-440 | the apply happens exactly if asked for and the dry run counts duplicates; otherwise nothing changes |
| CleanupDatabase.Database.RestoreCells | backend/scripts/cleanup_duplicate_incidents.py:369-391 | undo's loop over the recorded columns restores every recorded reference that is still on the keeper, and no other |
| CleanupDatabase.Database.UndoRun | backend/scripts/cleanup_duplicate_incidents.py:365-409 | undo is all or nothing and returns the number of incidents it reopened |
| CleanupDatabase.ClosedIncidentsStrandRun | backend/scripts/cleanup_duplicate_incidents.py:435-440 | after the application resolved the tenant's open incidents the dry run counts nothing, while the tenant still has pending rows |
| RateWindow.DecidesLikeLog | backend/app/main.py:386-399 | the lazily evicted deque decides exactly as a limiter that keeps the whole admission history and counts the last 60 seconds, and goes on standing for that history |
| RateWindow.WindowBound | backend/app/main.py:386-399 | over every run with a monotone clock every interval (t-60, t], at any t, holds at most `rpm` admissions |
| RateWindow.NextVerdict | backend/app/main.py:386-399 | after any run the next request is admitted if and only if fewer than `rpm` admissions lie in the last 60 seconds |
| RateOptimal.NoPolicyAdmitsMore | backend/app/main.py:386-399 | no admission policy that keeps every window at or below `rpm` has admitted more of the arrivals, at any moment |
| RateOptimal.NoPolicyIsEarlier | backend/app/main.py:386-399 | the k-th admission is never later than the k-th of such a policy |
| RateOptimal.LimiterIsLegal | backend/app/main.py:386-399 | the limiter is itself such a policy |
| RateOptimal.RetryHint | backend/app/main.py:386-399 | a rejection leaves no trace on later decisions; a retry after the hinted wait is admitted; every earlier one is rejected if and only if at least 1 ms was left |
| RateOptimal.RetryAfterCovers | backend/app/main.py:434-442 | the advertised Retry-After is in 1..60 and at least the wait, less than one second more |
| RateWaiters.WaitersMakeProgress | backend/app/main.py:401-404 | with N tasks looping and no other arrivals at most N*(N+2) tries happen in any wake order, somebody can move while a task waits, and no task is lost |
| RateWaiters.WakesByExpiryIff | backend/app/main.py:397 | a rejected task wakes no later than the head's expiry if and only if at least 1 ms was left, and otherwise less than 1 ms late |
| RateWaiters.NoSlotIdles | backend/app/main.py:401-404 | at every moment of a run no rejected task sleeps past the head's expiry by more than the slack, and every slot freed after the last arrival is taken within the slack and never early; the slack is nothing if no wait was floored, else 1 ms |
| RateWaiters.WaitersGetIn | backend/app/main.py:401-404 | the first r*rpm tasks are in within r windows after the last arrival: of 60 s if every rejected try had at least 1 ms left, of 60.001 s in any case |
| RateWaiters.EntersBy | backend/app/main.py:401-404 | the i-th task let in, with i below r*rpm, enters no later than r*60.001 s after the last arrival, and r*60 s if no wait was floored |
| RateWaiters.GridNeverFloors | backend/app/main.py:397 | when all times are whole milliseconds no wait is ever floored |
| RateWaiters.SixtySecondsIsTooTight | backend/app/main.py:397 | a run in continuous time in which two tasks and two slots take longer than 60 s |
| RateLimiter.RateLimiter.constructor | backend/app/main.py:351-359 | both limits are at least 1; a nonpositive session limit falls back to the default |
| RateLimiter.RateLimiter.TryAcquire | backend/app/main.py:386-399 | evicts, then admits and records or returns the wait and records nothing; no other key's deque changes |
| RateLimiter.RateLimiter.Acquire | backend/app/main.py:401-404 | tries, and sleeps for the returned wait while any finite sequences of calls of other tasks, on any keys, go on; it is let in at the first try that finds a slot, and the deques are those that its tries and the others' calls leave |
| RateLimiter.RateLimiter.AcquireAlone | backend/app/main.py:401-404 | without other calls it terminates and has recorded exactly one request, at a moment when the original deque admits it; at once if it does so at the start |
| RateLimiter.WaitedIsTraffic | backend/app/main.py:386-404 | waiting amounts to a sequence of calls, the task's own among the others', ending with the one that lets it in |
| RateLimiter.CallsAreRuns | backend/app/main.py:379-404 | every sequence of calls with the limits of their keys leaves the deques of such a run, so the bounds on runs hold with waiting tasks |
| RateLimiter.RateLimiter.Dispatch | backend/app/main.py:430-455 | session keys are answered at once with the clamped hint and change only their own deque; other keys wait among the other tasks until admitted |
| RateLimiter.KeysAreIndependent | backend/app/main.py:359-399 | in any traffic one key's deque and answers are those of a limiter that saw only that key's requests |
| RateLimiter.EveryKeyKeepsItsLimit | backend/app/main.py:379-399 | in any traffic under a monotone clock no key gets more than its rpm in any 60 seconds |
| MigrationGraph.Ancestors | ci/migration_roundtrip.py:33-43 | on every finite graph, cycles included, terminates and returns each reachable revision once and nothing else, in nondecreasing order of shortest distance |
| MigrationGraph.CommonAncestors | ci/migration_roundtrip.py:52-54 | the narrowed set is exactly the revisions every parent reaches |
| MigrationGraph.TargetFor | ci/migration_roundtrip.py:46-58 | a merge head goes to a common ancestor with none nearer to the first parent, and to base if and only if there is none; other heads to their parent |
| MigrationGraph.ReachesIff | ci/migration_roundtrip.py:26-43 | a revision has another one as ancestor if and only if some revision its `down_revision` names is that one or has it as ancestor |
| MigrationGraph.TargetDeclared | ci/migration_roundtrip.py:46-58 | a head without `down_revision` goes to base, one with a single one to it, and a merge head to a revision all of the listed ones have in common, nearest to the first, or to base if there is none |
| MigrationGraph.LowestIff | ci/migration_roundtrip.py:52-58 | a nearest common ancestor is the lowest if and only if every place where the first parent's history enters the common part is an ancestor of it |
| MigrationGraph.NearestIsLowestOnSingleLine | ci/migration_roundtrip.py:52-58 | if every non-common ancestor of the first parent has at most one parent, every common ancestor is the target or an ancestor of it |
| MigrationGraph.TargetLowestIff | ci/migration_roundtrip.py:46-58 | for a merge head every possible target is the lowest common ancestor if and only if every nearest common ancestor reaches every entry |
| MigrationGraph.TargetNeedNotBeLowest | ci/migration_roundtrip.py:46-58 | a merge head of two lines over the same two roots for which no possible target is the lowest common ancestor |
| SnmpOids.PrefixBlock | backend/scripts/lab_snmp_agent.py:290 | the identifiers under any prefix are contiguous in the order |
| SnmpOids.LessIff | backend/scripts/lab_snmp_agent.py:290 | one identifier precedes another if and only if it is a proper prefix or smaller in the first component in which they differ |
| SnmpOids.NextIsSuccessor | backend/scripts/lab_snmp_agent.py:322-327 | GETNEXT answers with the least greater identifier, and with none if and only if there is none |
| SnmpOids.WalkVisitsTheRest | backend/scripts/lab_snmp_agent.py:375-390 | a walk from any identifier visits exactly the greater ones, each once, increasing, then stops |
| SnmpOids.ColumnWalkReturnsColumn | backend/scripts/lab_snmp_agent.py:322-327 | a walk that stops at the first identifier outside a column returns exactly the column |
| SnmpOids.SortOids | backend/scripts/lab_snmp_agent.py:290 | the sorted list is strictly increasing and has exactly the table's keys |
| SnmpMib.KeyInjective | backend/scripts/lab_snmp_agent.py:56-86 | no two columns or indexes share an identifier, for indexes of any length |
| SnmpMib.BuildMib | backend/scripts/lab_snmp_agent.py:179-247 | the loops assign exactly the profile's rows, in order |
| SnmpMib.AssignHolds | backend/scripts/lab_snmp_agent.py:186-245 | rows that agree wherever their keys do can all be read back from the table, which holds nothing else |
| SnmpRoundTrip.NoCollisions | backend/scripts/lab_snmp_agent.py:193-245 | for a profile with distinct ports, addresses and route keys no row overwrites another with a different value |
| SnmpRoundTrip.TableHolds | backend/scripts/lab_snmp_agent.py:179-247 | a column, index and value are in the table if and only if an item of the profile puts them there |
| SnmpRoundTrip.CdpOnlyIfDeclared | backend/scripts/lab_snmp_agent.py:227-232 | an identifier under the CDP table exists if and only if the profile has CDP neighbours |
| SnmpRoundTrip.ChassisIffExposed | backend/scripts/lab_snmp_agent.py:209-210 | the local chassis row exists if and only if the profile exposes it |
| SnmpRoundTrip.LldpDecode | backend/scripts/lab_snmp_agent.py:212-225 | decoding gives exactly the LLDP neighbours of which anything is served, all their texts included (an absent row stands for the empty text), and their management address exactly if it has four octets |
| SnmpRoundTrip.RoutesDecode | backend/scripts/lab_snmp_agent.py:242-245 | decoding gives exactly the routes, split out of their thirteen-part index |
| SnmpRoundTrip.ProfileRoundTrip | backend/scripts/lab_snmp_agent.py:179-247 | decoding the table recovers system group, interfaces (speed saturated at 4294967295), neighbours, addresses and routes, and nothing else |
| SnmpServed.SysDescrEntry | backend/scripts/lab_snmp_agent.py:187 | the system description is served as text under its literal identifier |
| SnmpServed.SysNameEntry | backend/scripts/lab_snmp_agent.py:188 | the system name is served as text under its literal identifier |
| SnmpServed.SysObjectIdEntry | backend/scripts/lab_snmp_agent.py:189 | the lab object identifier is the literal one |
| SnmpServed.IfNumberEntry | backend/scripts/lab_snmp_agent.py:190 | the number of interfaces as an integer |
| SnmpServed.ChassisEntry | backend/scripts/lab_snmp_agent.py:209-210 | the local chassis identifier is served as the system name, exactly if the profile exposes it |
| SnmpServed.IfDescrEntry | backend/scripts/lab_snmp_agent.py:195 | the description of each interface under its index |
| SnmpServed.IfSpeedEntry | backend/scripts/lab_snmp_agent.py:200 | the speed of each interface as a 32-bit gauge, at most 4294967295 |
| SnmpServed.IfAdminEntry | backend/scripts/lab_snmp_agent.py:201 | the administrative status of each interface |
| SnmpServed.IfOperEntry | backend/scripts/lab_snmp_agent.py:202 | the operational status of each interface |
| SnmpServed.IfInOctetsEntry | backend/scripts/lab_snmp_agent.py:204 | received octets of each interface as a 64-bit counter |
| SnmpServed.IfOutOctetsEntry | backend/scripts/lab_snmp_agent.py:205 | sent octets of each interface as a 64-bit counter |
| SnmpServed.IfInErrorsEntry | backend/scripts/lab_snmp_agent.py:206 | receive errors of each interface as a 32-bit counter |
| SnmpServed.IfOutErrorsEntry | backend/scripts/lab_snmp_agent.py:207 | send errors of each interface as a 32-bit counter |
| SnmpServed.LldpChassisIdEntry | backend/scripts/lab_snmp_agent.py:212-220 | the chassis identifier of each LLDP neighbour under time mark 0, its port and remote index 1, absent exactly if the text is empty |
| SnmpServed.LldpPortIdEntry | backend/scripts/lab_snmp_agent.py:212-220 | the port identifier of each LLDP neighbour under the same index, absent exactly if empty |
| SnmpServed.LldpPortDescEntry | backend/scripts/lab_snmp_agent.py:212-220 | the port description of each LLDP neighbour under the same index, absent exactly if empty |
| SnmpServed.LldpSysNameEntry | backend/scripts/lab_snmp_agent.py:212-220 | the system name of each LLDP neighbour under the same index, absent exactly if empty |
| SnmpServed.LldpAddressEntry | backend/scripts/lab_snmp_agent.py:221-225 | a four-octet management address under time mark 0, port, remote index 1, subtype 1, length 4 and its octets |
| SnmpServed.CdpAddressEntry | backend/scripts/lab_snmp_agent.py:227-229 | the address of each CDP neighbour under its port and 1 |
| SnmpServed.CdpDeviceIdEntry | backend/scripts/lab_snmp_agent.py:230 | the device of each CDP neighbour under its port and 1 |
| SnmpServed.CdpDevicePortEntry | backend/scripts/lab_snmp_agent.py:231 | the remote port of each CDP neighbour under its port and 1 |
| SnmpServed.CdpPlatformEntry | backend/scripts/lab_snmp_agent.py:232 | the platform of each CDP neighbour under its port and 1 |
| SnmpServed.IpAddrIfIndexEntry | backend/scripts/lab_snmp_agent.py:236-238 | the interface of each address under its octets |
| SnmpServed.IpAddrNetmaskEntry | backend/scripts/lab_snmp_agent.py:239 | the mask of each address as an IpAddress |
| SnmpServed.RouteIfIndexEntry | backend/scripts/lab_snmp_agent.py:242-244 | the interface of each route under destination, mask, service type 0 and next hop |
| SnmpServed.RouteProtoEntry | backend/scripts/lab_snmp_agent.py:245 | the protocol of each route under the same index |
| SnmpServed.NothingElse | backend/scripts/lab_snmp_agent.py:179-247 | every identifier of the table is one of those, for an item of the profile |
| SnmpAgent.LabSnmpAgent.NextOid | backend/scripts/lab_snmp_agent.py:322-327 | the linear search finds the first greater identifier |
| SnmpAgent.LabSnmpAgent.Handle | backend/scripts/lab_snmp_agent.py:362-396 | GET answers every identifier or fails at the first unknown one with its position; GETNEXT and GETBULK answer each request with its successor or the end marker; other requests are refused; only successes are counted |
| SnmpAgent.SuccessorIsNext | backend/scripts/lab_snmp_agent.py:385-390 | a GETNEXT binding is determined by the set of keys alone, and equals what the search over the sorted list gives |
| SnmpAgent.WalkRecoversProfile | backend/scripts/lab_snmp_agent.py:179-247 | a collector that walks the agent from the root rebuilds the whole table and from it the profile |
| IndexSwap.StatementOutcome | backend/alembic/versions/f3a9c1e7b2d5_reconcile_normalized_events_dedup_index.py:57-71 | when each of the three statements fails and what it does to the two index names; none changes a row |
| IndexSwap.NeverUnprotected | backend/alembic/versions/f3a9c1e7b2d5_reconcile_normalized_events_dedup_index.py:24-28 | in every history of upgrades, downgrades, crashes, reruns, writes and hand-set version rows no two active rows share a non-null key |
| IndexSwap.NoActivePair | backend/alembic/versions/f3a9c1e7b2d5_reconcile_normalized_events_dedup_index.py:24-28 | in every such history, of two rows with the same integration and signature, both not NULL, one is suppressed or deleted |
| IndexSwap.UniqueIff | backend/alembic/versions/f3a9c1e7b2d5_reconcile_normalized_events_dedup_index.py:52-54 | what the partial and the full index forbid, said of the columns |
| IndexSwap.InsertAllowed | backend/alembic/versions/f3a9c1e7b2d5_reconcile_normalized_events_dedup_index.py:52-54 | under the partial index an insert is refused if and only if the row is neither suppressed nor deleted, has integration and signature, and so has another row that is neither; under the full index, if and only if any row agrees |
| IndexSwap.EveryMigrationSwaps | backend/alembic/versions/f3a9c1e7b2d5_reconcile_normalized_events_dedup_index.py:57-86 | in every history of upgrades and downgrades that the version row allows, crashed and rerun anywhere, a completed migration leaves exactly its own index under the final name; no statement fails except the CREATE of a downgrade, and that exactly when it has to build the full index and the rows contradict it |
| IndexSwap.StaleIndexIsStart | backend/alembic/versions/f3a9c1e7b2d5_reconcile_normalized_events_dedup_index.py:26-28 | the non-partial index over consistent rows is a starting point for that |
| IndexSwap.MigrateOutcome | backend/alembic/versions/f3a9c1e7b2d5_reconcile_normalized_events_dedup_index.py:57-86 | on any consistent database, whatever the version row says, a migration fails if and only if it has to build an index the rows contradict, and leaves the wanted kind if and only if no temporary index of the other kind was there |
| IndexSwap.InterruptedDowngrade | backend/alembic/versions/f3a9c1e7b2d5_reconcile_normalized_events_dedup_index.py:74-86 | after a downgrade that died after its CREATE an upgrade is not started and the downgrade run again completes; only with the version row set by hand an upgrade runs, and ends with the full index |
| IndexSwap.NormalizedEvents.RunMigration | backend/alembic/versions/f3a9c1e7b2d5_reconcile_normalized_events_dedup_index.py:57-86 | the three statements leave exactly the outcome of the migration, or everything as it was if the CREATE fails |
| HealthThresholds.LabelsLandInTheirBucket | backend/app/actions/health_thresholds.py:58-118 | every label lands in the bucket of the table it came from, for any index, process id or pool name |
| HealthThresholds.EvaluateHealth | backend/app/actions/health_thresholds.py:149-178 | one verdict per reading in order, and the status is the health of the readings |
| HealthThresholds.HealthMeaning | backend/app/actions/health_thresholds.py:68-76 | critical if and only if some reading reaches its bucket's critical threshold, unknown if and only if there are no readings, ok if and only if none reaches any threshold |
| HealthThresholds.HealthIgnoresOrder | backend/app/actions/health_thresholds.py:149-178 | the status is unique and depends on the set of readings only |
| HealthThresholds.WorseInputsNeverImprove | backend/app/actions/health_thresholds.py:68-76 | the status never improves when readings rise or thresholds fall, also with warning above critical |
| HealthPayload.ReadingIff | backend/app/actions/health_thresholds.py:88-118 | the readings are exactly the numeric fields of the items of the five tables, each under its literal label, the processor tables in the one bucket and memory in the other |
| HealthPayload.ReadingCount | backend/app/actions/health_thresholds.py:88-118 | there are as many readings as numeric fields |
| HealthPayload.CpuOrder | backend/app/actions/health_thresholds.py:89-94 | the readings of the k-th processor stand in field order after those of the earlier ones |
| HealthPayload.ProcessOrder | backend/app/actions/health_thresholds.py:95-102 | the readings of the k-th process stand in field order after all processors and the earlier processes |
| HealthPayload.ProcessorOrder | backend/app/actions/health_thresholds.py:103-109 | the reading of the k-th Aruba processor stands after all processes and the earlier processors |
| HealthPayload.MemoryOrder | backend/app/actions/health_thresholds.py:110-112 | the memory reading stands after all processor readings |
| HealthPayload.PoolOrder | backend/app/actions/health_thresholds.py:113-117 | the reading of the k-th pool, under its name or else its index, stands after memory and the earlier pools |
| HealthPayload.BucketIff | backend/app/actions/health_thresholds.py:58-65 | a label falls in the processor bucket if and only if it starts with cpu, processor or process and a dot, in any case |
| HealthPayload.ThresholdsOf | backend/app/actions/health_thresholds.py:121-146 | an absent or malformed override leaves the literal default, null switches the threshold off, a number replaces it, each key on its own |
| HealthPayload.VerdictOf | backend/app/actions/health_thresholds.py:159-171 | a verdict repeats metric, value and bucket of its reading with the limits of the bucket, and its status says which limit the value reaches |
| HealthPayload.HealthOfFields | backend/app/actions/health_thresholds.py:149-178 | under any overrides the status of a payload follows from which of its numeric fields reach the thresholds of their table |
| HealthPayload.DefaultHealth | backend/app/actions/health_thresholds.py:22-26 | without overrides a payload is critical if and only if some numeric field is at least 95, else a warning if and only if one of a processor is at least 80 or one of memory at least 85, and unknown if and only if it has no number |

## Left out

- CleanupSchedule.ScheduleRefinesOneStep: no other writer acts between the commits; that case is CleanupWriters.RunAmongWriters, and writes to incidents after their batch are in CleanupLedger.UndoRespectsEdits.
- CleanupDatabase.Database.BuildPlan: the severity counts and the five largest groups of the report are not computed; they would be two more counts over the same ranking.
- Title normalization (lower case, prefix and white space) in the ranking query: incidents carry the normalized title.
- `updated_at`, the surrogate ids of undo rows, the constant reason column and legacy undo rows without a run id.
- Schema changes that remove a table or a column whose references a run has recorded.
- SQL execution, statement timeouts, catalog queries, table creation and log output of the cleanup script.
- Unique constraints of referencing tables are checked on the state after all columns have moved, not row by row during a statement. For the signature index both come to the same, since undo only adds open incidents.
- Batch sizes below 1: a negative LIMIT is an SQL error, and 0 is covered by CleanupSchedule.DrainRemaining.
- Binary floating point: times and percentages are exact reals, and NaN, booleans and integers too large for a float do not occur as readings or thresholds.
- Key extraction from tokens, the billing-period quota and the rest of the middleware; asyncio scheduling beyond which task wakes next.
- Revisions missing from the script directory (`get_revision` raises), alembic's own upgrades and downgrades except for its version row, and `depends_on` edges, which the script does not follow.
- BER, UDP, community strings and object range checks of the SNMP agent; addresses carry the numbers of their dotted text instead of parsing it. GET's noSuchName answer is in the style of SNMPv1, so full conformance of GET to RFC 3416 is not claimed.
- CREATE INDEX CONCURRENTLY internals: a statement either completes or has no effect.
- Lower-casing of characters outside ASCII in labels.
