# Verified models of SPINA's operational protocols

SPINA is a lending and accounting system. Around its backend it keeps tools that may touch live
data or decide about a release: migration runners, a caching service worker, evidence readers,
decision engines. This project models the hard ones in Dafny 4.11 and proves what they promise,
for every input, every interleaving and every place of failure. `dafny verify dfyconfig.toml`
checks all of it.

What changes state in place in the source is a class or a method here, proved equal to a
specification function or to a step of a state machine; the promises are lemmas about those.

## The modules

- **Receipt split (0096).** `CollectionTable` is the receipt table with the writes of other
  sessions and the runner's queries. `ReceiptSplitMigration` is the runner as a step system, one
  step per SQL statement, read-committed reads in front of the lock and a private copy under it,
  a failure possible anywhere; the migration body is arbitrary. `ReceiptSplitSafety` has the
  theorems over all runs, `ReceiptSplitShipped` those about the body the repository ships, and
  `ReceiptSplitRunner` the imperative `main`. `ReceiptSplitGates`, `ReceiptSplitVerdicts` and
  `ReceiptSplitGap` say on the fields of database and receipts what the queries find, where runs
  end and which writes between evidence and lock roll back; `ColumnSums` what a sum is. The runner
  reads its evidence before it locks. The comment at
  `tools/apply_0096_receipt_split_migration.py:245` says that the lock blocks concurrent receipt
  writes; it does so only from then on, after the evidence. What a commit proves is that the legacy
  columns are those of the first read, and the model says exactly when that is the locked table.
- **Remittance review and rejection (0102).** `RemittanceTables`, `ReviewRejectionMigration`,
  `ReviewRejectionSafety`, `ReviewRejectionGates`, `ReviewRejectionRunner`: the contrast, three locks
  first and evidence second, so no other session can influence the verdict.
- **Live ECL migrations.** `EclMigrationPlan` and `EclMigrationRunner`: n migrations that commit
  one by one and must not be replayed, planned from probes. Assumption: a probe is truthful, it
  sees a migration exactly when it was executed.
- **Portal service worker.** `ServiceWorker` makes every await a step boundary;
  `ServiceWorkerHandlers` is the event handlers over the browser's caches; `ServiceWorkerRules` says
  by origin, method and path which requests take part.
- **Statements on members.** The modules named `...Fields`, with `JsonMembers`,
  `ValidationReuseEnough`, `ScannerFingerprints` and `DisposableVerdicts` say on the members of
  documents, the letters of texts and the events of scripts what the predicates of the models decide.
- **Readers and printers.** `Text` and `Listing` are the few Python routines used; `Utf8` says what
  it means that bytes decode, `Integers` which texts are integers. `RangeNotation` and
  `RangeCompressor`: the compact list of line numbers. `SourceManifest`, `ObjectBatch`,
  `SourceInventory`: git's listing and object stream. `VersionDelta`: what changed between two
  source versions. `JsonValues`: JSON with Python's equality, where numbers of every kind compare
  by value.
- **Decisions.** `ValidationReuse`, `ValidationReuseSafety`, `ValidationReuseLoop`: may a commit
  reuse its pull request's validation, against an API that may answer every call differently.
  `AlertNotifier`: alerts over a persisted state file, with a clock that does not go back and no
  other writer of the file. `PerformanceEvidence`, `ReleaseEvidence`, `ReleaseEvidenceSafety`: the
  evidence gates of a release candidate.
- **Bags and partitions.** `ScannerRegression`, `TestShard`.
- **Ownership.** `DisposableDatabases`: databases a validation run creates and must drop again.

Inputs of the models stand for what is outside: other sessions' events, the migration body, the
network, API replies, file contents, digests, clocks, delivery and SQL outcomes. Hashes are opaque.

## Promises that hold only under a condition

- 0096 keeps a gap write for every body exactly when the write leaves no trace in the evidence
  (`GapDecidesWhetherReceiptsSurvive`, with `GapWritesCanBeErased` as the failing family); with the
  shipped body none is ever lost, and the run commits exactly when no legacy cell was changed
  (`GapCommitsIffItLeavesNoTrace`, `OneChangedCellRollsBack`).
- The ECL executor runs each migration once and in order exactly when each is still missing as it
  runs (`ExactlyOnceIffFresh`). Sessions that take turns meet this; `OverlappingSessionsReplay` and
  `OneMissingMigrationCanRunTwice` give the failing schedules for every starting point.
- A cached entry is final exactly when no request in flight threatens it (`EntryIsFinalIffFrozen`);
  `ConcurrentMissesOverwrite` is a run in which one does.
- A git listing is read exactly when every path is UTF-8 and every wanted entry a regular file, and
  a commit has a manifest exactly when also its version files can be read, the bounds hold and the
  documents are there (`ListingRoundTrip`, `ManifestIsTheCommit`).
- A source manifest is usable as a prior one exactly when its names are plain
  (`BackslashNamesAreRefused`).
- Every owned database gets its drop attempt exactly when no earlier drop is interrupted by an
  error other than a database error or an exit (`EveryOwnedDatabaseIsAttemptedOnce`), and the error
  of the proof is reported exactly when no drop at all is, the same error aside
  (`TheFirstErrorIsReportedIff`, with `AnInterruptedDropReplacesTheError`).
- A database another session creates between look-up and CREATE is lost exactly when it took the
  generated name and the drop removes it (`ForeignDatabaseOfTheFirstGap`,
  `ForeignDatabaseOfTheSecondGap`).

## Model

| member | source | states |
|---|---|---|
| ReceiptSplitMigration.RunKeepsInv | tools/apply_0096_receipt_split_migration.py:193-292 | for any database, any sessions already writing, any body and any interleaving of runner statements, writer transactions and failures: the committed table is the writers' own work, or the migrated table with the later writes on top, and every statement's reads are what they claim to be |
| ReceiptSplitSafety.FailureLeavesOnlyTheWritersWork | tools/apply_0096_receipt_split_migration.py:192-295 | whatever fails and whenever, a run that did not commit leaves exactly the database the other sessions alone would have made |
| ReceiptSplitSafety.RerunWritesNothing | tools/apply_0096_receipt_split_migration.py:204-207 | a database that already has the view is never written to, whatever the verification says |
| ReceiptSplitSafety.TriggerStaysUp | tools/apply_0096_receipt_split_migration.py:250-267 | the immutability trigger, disabled half-way, is never seen disabled in a committed state, and is enabled after every commit |
| ReceiptSplitSafety.CommitProvesEvidence | tools/apply_0096_receipt_split_migration.py:235-292 | for any body: a commit holds, cell by cell, exactly the receipts of the table of the first read; the three reads, which may have seen three different tables, agree with it |
| ReceiptSplitSafety.EvidencePins | tools/apply_0096_receipt_split_migration.py:269-289 | evidence that holds of a table pins its receipts to those of the first read, cell by cell in every legacy column, and voided rows, count and cash total with them |
| ReceiptSplitSafety.GapDecidesWhetherReceiptsSurvive | tools/apply_0096_receipt_split_migration.py:235-248 | evidence is read before the lock: the committed legacy contents are those of the locked table if and only if the writes in the gap left no trace in them |
| ReceiptSplitSafety.NoReceiptIsLost | tools/apply_0096_receipt_split_migration.py:245-292 | with a body that leaves the legacy columns alone, every reachable committed table has, cell by cell, the receipts the writers alone would have made: no receipt of any interleaving is lost or altered |
| ReceiptSplitSafety.VoidedReceiptsOutliveAnyBody | tools/apply_0096_receipt_split_migration.py:237-284 | for any body, however hostile: a receipt voided before the run keeps its legacy contents in every committed state, as long as other sessions do not delete it |
| ReceiptSplitSafety.WritersKeepVoided | gilbic_backend/sql/0017_add_management_collection_voids.sql:84-127 | with the lock-guard trigger enabled no sequence of updates by other sessions changes a voided receipt |
| ReceiptSplitSafety.PristineRunPasses | tools/apply_0096_receipt_split_migration.py:193-233 | from a pristine database no fault-free run is refused in front of the lock |
| ReceiptSplitSafety.OutcomeIsDecidedUnderTheLock | tools/apply_0096_receipt_split_migration.py:193-292 | such a run, once finished, committed if and only if the migration goes through on the table it locked with the evidence it had read |
| CollectionTable.SnapshotIsFaithful | tools/apply_0096_receipt_split_migration.py:51-63 | equal full snapshots mean the same receipts, equal cell by cell: type, amount, voided flag and every selected column, present in both or in neither |
| CollectionTable.ImagesDetermineEvidence | tools/apply_0096_receipt_split_migration.py:236-243 | conversely the contents in the legacy columns determine both snapshots and the totals |
| CollectionTable.ApplyAllKeepsAgreement | gilbic_backend/sql/0017_add_management_collection_voids.sql:84-127 | writers do the same to two tables that agree in the legacy columns |
| ReceiptSplitShipped.ShippedPreserves | gilbic_backend/sql/0096_separate_collection_receipt_cash_from_loan_application.sql:1-163 | the shipped body changes no legacy cell and no receipt, on any table |
| ReceiptSplitShipped.SuspensionIsNeeded | gilbic_backend/sql/0096_separate_collection_receipt_cash_from_loan_application.sql:15-30 | with the lock-guard trigger enabled the shipped backfill fails exactly on the tables with a voided receipt; suspended, it never fails on a pristine one |
| ReceiptSplitShipped.ShippedMigrates | gilbic_backend/sql/0096_separate_collection_receipt_cash_from_loan_application.sql:1-163 | on every pristine table the transaction goes through and leaves a table that passes all eight installation checks |
| ReceiptSplitShipped.ShippedSucceedsIffEvidenceHolds | tools/apply_0096_receipt_split_migration.py:269-292 | with the shipped body the gates pass if and only if the evidence read before still holds of the locked table |
| ReceiptSplitShipped.ShippedCommitsIffGapIsQuiet | tools/apply_0096_receipt_split_migration.py:235-292 | a fault-free run with the shipped body commits if and only if the evidence still holds at the lock; in particular whenever nothing was written between first read and lock |
| ReceiptSplitShipped.RunnerFinishes | tools/apply_0096_receipt_split_migration.py:193-292 | once no other session holds the table, the runner alone finishes within a fixed number of its own steps |
| ReceiptSplitShipped.GapRun | tools/apply_0096_receipt_split_migration.py:235-248 | from every pristine database every gap of writes between evidence and lock can happen, and the run reaches its verdict |
| ReceiptSplitShipped.GapWritesCanBeErased | tools/apply_0096_receipt_split_migration.py:235-292 | for every pristine database and every gap there is a body that undoes the gap's writes behind a commit that passes every gate: the evidence pins the table before the gap, not the locked one |
| ReceiptSplitGap.OneChangedCellRollsBack | tools/apply_0096_receipt_split_migration.py:57-62 | one legacy cell of one receipt that is not voided, changed by another session between evidence and lock, rolls the shipped migration back: the new cell stays and the schema is as before |
| ReceiptSplitGap.GapCommitsIffItLeavesNoTrace | tools/apply_0096_receipt_split_migration.py:235-279 | from every legacy table every gap of writes has a run with it, and that run commits if and only if the gap leaves every legacy cell as it was |
| ReceiptSplitGap.ShippedCommitsIffCellsAgree | tools/apply_0096_receipt_split_migration.py:235-292 | under every interleaving a finished fault-free shipped run commits if and only if the locked table has the receipts of the first read, the voided receipts of the second, cell by cell, and the count and total of the third |
| ReceiptSplitGap.ShippedSplits | gilbic_backend/sql/0096_separate_collection_receipt_cash_from_loan_application.sql:9-151 | the migrated table on its fields: each receipt as before with its whole amount applied, nothing unallocated and the state of its kind, three columns, four constraints, a view that hides nothing, both triggers enabled |
| ReceiptSplitGap.FourShapes | gilbic_backend/sql/0096_separate_collection_receipt_cash_from_loan_application.sql:75-120 | the four constraints admit exactly four shapes of receipt, whose applied and unallocated parts add up to the amount |
| ReceiptSplitGap.PristineIff | tools/apply_0096_receipt_split_migration.py:193-233 | the tables the gates let pass, on their fields |
| ReceiptSplitGap.WriterEffect | gilbic_backend/sql/0017_add_management_collection_voids.sql:84-92 | a write to a voided receipt while the trigger is up, or of an illegal receipt, has no effect; any other write of the model exactly its own |
| ReceiptSplitVerdicts.GatesDecide | tools/apply_0096_receipt_split_migration.py:193-233 | from any database, under any interleaving: which verdicts a finished fault-free run can have, by the table, view, columns and trigger it started from and the receipts of some moment |
| ReceiptSplitVerdicts.QuietVerdicts | tools/apply_0096_receipt_split_migration.py:80-233 | without other writes: already installed exactly on a complete, settled and reconciled installation, and the lock is reached exactly on an untouched schema with legal receipts |
| ReceiptSplitVerdicts.TouchedSchemaStopsTheRun | tools/apply_0096_receipt_split_migration.py:193-217 | a missing table, a view, any one of the three columns or a trigger that is not enabled keeps every run, faults included, in front of the evidence |
| ReceiptSplitVerdicts.IllegalReceiptStopsTheRun | tools/apply_0096_receipt_split_migration.py:219-233 | so does a receipt that is neither a pass of nothing nor a payment or advance of something, when no other session touches it |
| ReceiptSplitGates.ChecksAre | tools/apply_0096_receipt_split_migration.py:80-181 | what each of the eight queries finds out, on columns, names, trigger states and cells |
| ReceiptSplitGates.CommitIsVerified | tools/apply_0096_receipt_split_migration.py:80-181 | for any body: a committed table has the three columns, the four constraints, both triggers enabled, only settled receipts, reconciled totals, the count read before the lock and a view that hides no receipt |
| ReceiptSplitGates.CommitIsTheBodysTable | tools/apply_0096_receipt_split_migration.py:250-267 | for any body: a committed table is what the body made of the locked table with the trigger disabled, and only a trigger the body left in place is enabled again |
| ReceiptSplitGates.OneMoreReceipt | tools/apply_0096_receipt_split_migration.py:154-163 | with the empty table, what count, cash total, applied total and unallocated total are: one more receipt adds its own cells, NULL nothing |
| ReceiptSplitRunner.Migration.OtherSession | tools/apply_0096_receipt_split_migration.py:245-248 | another session's event changes the committed state as in the step system; it cannot start writing while the lock is held |
| ReceiptSplitRunner.Migration.Gates | tools/apply_0096_receipt_split_migration.py:193-212 | the existence and partial-installation gates |
| ReceiptSplitRunner.Migration.VerifyExisting | tools/apply_0096_receipt_split_migration.py:80-181 | the check of an installed database, one query after another |
| ReceiptSplitRunner.Migration.LegacyGates | tools/apply_0096_receipt_split_migration.py:214-233 | the trigger and legacy-row gates |
| ReceiptSplitRunner.Migration.ReadEvidence | tools/apply_0096_receipt_split_migration.py:235-243 | the three evidence queries, with other sessions in between |
| ReceiptSplitRunner.Migration.LockTable | tools/apply_0096_receipt_split_migration.py:245-248 | the lock is granted only when no other session writes |
| ReceiptSplitRunner.Migration.Migrate | tools/apply_0096_receipt_split_migration.py:250-267 | suspend, body, restore and check on the transaction's own copy |
| ReceiptSplitRunner.Migration.CompareEvidence | tools/apply_0096_receipt_split_migration.py:269-289 | the comparison of all three pieces of evidence |
| ReceiptSplitRunner.Migration.VerifyAndCommit | tools/apply_0096_receipt_split_migration.py:291-292 | the final verification, and commit only when all of it passed |
| ReceiptSplitRunner.Migration.RunMigration | tools/apply_0096_receipt_split_migration.py:184-300 | main as a whole: whatever it does is a run of the step system, and it returns that run's outcome |
| ReviewRejectionMigration.RunKeepsInv | tools/apply_0102_remittance_review_rejection_migration.py:235-288 | the invariant of the lock-first protocol over every interleaving: locks exclude writers, and evidence read under them is the evidence of the locked tables |
| ReviewRejectionSafety.FailureLeavesOnlyTheWritersWork | tools/apply_0102_remittance_review_rejection_migration.py:235-288 | a run that did not commit leaves schema and rows as the other sessions alone made them |
| ReviewRejectionSafety.OnlyAPristineSchemaIsMigrated | tools/apply_0102_remittance_review_rejection_migration.py:247-268 | from a partial or full installation the run never locks, never reaches the body and never changes the database |
| ReviewRejectionSafety.CommitKeepsTheLockedEvidence | tools/apply_0102_remittance_review_rejection_migration.py:270-286 | for any body: a commit kept the aggregates of the very tables it locked, and every later write is still there |
| ReviewRejectionSafety.OnlyTheLockedTablesDecide | tools/apply_0102_remittance_review_rejection_migration.py:270-286 | no other session can cause a refusal: the verdict of a fault-free run depends only on the body and the locked tables |
| ReviewRejectionSafety.ShippedCommitsUnderEveryInterleaving | tools/apply_0102_remittance_review_rejection_migration.py:229-295 | with the shipped body every finished fault-free run from a pristine schema commits, under every interleaving, if and only if the collection trigger is enabled |
| ReviewRejectionSafety.RunnerFinishes | tools/apply_0102_remittance_review_rejection_migration.py:235-288 | once no other session holds a table, the runner alone finishes within twelve of its own steps |
| ReviewRejectionSafety.ShippedRunCanBeFinished | tools/apply_0102_remittance_review_rejection_migration.py:229-295 | wherever a fault-free shipped run stands, once the others have let go of the tables twelve more steps commit it |
| ReviewRejectionSafety.NoWriteIsLost | tools/apply_0102_remittance_review_rejection_migration.py:270-286 | a body that keeps the rows is invisible in them in every reachable state |
| ReviewRejectionSafety.SignatureIsBlindToTransfers | tools/apply_0102_remittance_review_rejection_migration.py:181-209 | the evidence of 0102 pins totals and counts only: moving cash from one receipt to another leaves it as it is |
| ReviewRejectionGates.GatesDecide | tools/apply_0102_remittance_review_rejection_migration.py:237-268 | the verdict of every finished fault-free run by the catalogue alone: refused without the three tables; with all objects, already installed exactly when complete; with some, refused; only with none is a table locked |
| ReviewRejectionGates.AnyObjectStopsTheRun | tools/apply_0102_remittance_review_rejection_migration.py:259-268 | with any one object of 0102 present, or the item constraint already dropped, no reachable state is past the probes and only the other sessions change rows |
| ReviewRejectionGates.CommitIsComplete | tools/apply_0102_remittance_review_rejection_migration.py:286-288 | for any body: a committed catalogue has every column, constraint, index and function marker the verification asks for |
| ReviewRejectionGates.NextLockIsTaken | tools/apply_0102_remittance_review_rejection_migration.py:270-278 | the locks are taken in the order remittances, items, transactions, each exactly when no session holds that table |
| ReviewRejectionGates.FreeTablesCanBeWritten | tools/apply_0102_remittance_review_rejection_migration.py:270-278 | a table the runner has not locked can be written by any session, which lets go of its own tables only when it ends |
| ReviewRejectionGates.RemittanceCounts | tools/apply_0102_remittance_review_rejection_migration.py:181-209 | what one more remittance adds to each figure of the signature |
| ReviewRejectionGates.ItemCounts | tools/apply_0102_remittance_review_rejection_migration.py:181-209 | what one more item adds, the distinct transactions included |
| ReviewRejectionGates.TransactionCounts | tools/apply_0102_remittance_review_rejection_migration.py:181-209 | what one more collection adds, locked and handed-over counts included |
| ColumnSums.SumOfInsert | tools/apply_0102_remittance_review_rejection_migration.py:181-209 | a sum over a column does not depend on the order of ids: one more row adds its value |
| ReviewRejectionRunner.Migration.OtherSession | tools/apply_0102_remittance_review_rejection_migration.py:270-278 | an event of another session, which gets no table the runner has locked |
| ReviewRejectionRunner.Migration.Gates | tools/apply_0102_remittance_review_rejection_migration.py:237-268 | the prerequisite, installed and partial gates |
| ReviewRejectionRunner.Migration.LockTables | tools/apply_0102_remittance_review_rejection_migration.py:270-278 | the three locks in their order |
| ReviewRejectionRunner.Migration.Migrate | tools/apply_0102_remittance_review_rejection_migration.py:279-285 | signature, body, signature, comparison |
| ReviewRejectionRunner.Migration.VerifyAndCommit | tools/apply_0102_remittance_review_rejection_migration.py:286-288 | verification, then commit |
| ReviewRejectionRunner.Migration.RunMigration | tools/apply_0102_remittance_review_rejection_migration.py:229-295 | main as a whole is a run of the step system with that outcome |
| EclMigrationPlan.PlanIffContiguous | tools/apply_ecl_live_migrations_version_aware.py:277-299 | for any number of migrations and any probe vector: planning succeeds exactly on installed...installed missing...missing; the plan is the missing suffix, and the skipped names followed by it are the whole list in order |
| EclMigrationPlan.InstalledStaysAPrefix | tools/apply_ecl_credit_risk_labels_migration.py:474-476 | however many sessions overlap, crash and are repeated, the installed set stays a prefix of the list and never loses a migration |
| EclMigrationPlan.ExactlyOnceIffFresh | tools/apply_ecl_credit_risk_labels_migration.py:474-476 | for every schedule of any sessions from every starting point: each migration from the starting point on ran exactly once and in order if and only if each was still missing when it ran; otherwise some migration ran twice |
| EclMigrationPlan.SessionsInTurn | tools/apply_ecl_live_migrations_version_aware.py:327-340 | sessions that take turns, each crashing anywhere, execute a contiguous piece of the list |
| EclMigrationPlan.SessionsInTurnReplayNothing | tools/apply_ecl_live_migrations_version_aware.py:327-340 | such sessions meet the condition |
| EclMigrationPlan.OneMissingMigrationCanRunTwice | tools/apply_ecl_live_migrations_version_aware.py:327-340 | wherever the run starts, one missing migration is enough for two sessions to run it twice |
| EclMigrationPlan.OverlappingSessionsReplay | tools/apply_ecl_live_migrations_version_aware.py:327-340 | wherever the run starts, with two migrations missing two sessions that both planned first run the older one again after the newer |
| EclMigrationPlan.EverySessionMakesProgress | tools/apply_ecl_credit_risk_labels_migration.py:474-476 | each execution of such a run lowers the missing count by exactly one; a session with nothing left has brought it to zero |
| EclMigrationPlan.NonContiguousIsNeverTouched | tools/apply_ecl_live_migrations_version_aware.py:289-297 | from a state that is not a prefix nothing is ever executed |
| EclMigrationRunner.LiveDatabase.Invoke | tools/apply_ecl_live_migrations_version_aware.py:327-340 | one invocation, planner and executor: what it executes, where it stops and that nothing is rolled back when a check fails |
| EclMigrationRunner.LiveDatabase.InvokeAll | tools/apply_ecl_credit_risk_labels_migration.py:455-490 | any number of invocations execute one contiguous piece of the list, and one that runs through leaves nothing missing |
| ServiceWorker.CacheAndAnswersComeFromTheNetwork | spina_portal/sw.js:124-159 | under every interleaving of requests in flight: a cached entry is an ok response the network gave for that key, and an answer is such an entry or the network's own reply to that request |
| ServiceWorker.CacheFirstRefinesTheNetwork | spina_portal/sw.js:124-159 | with one deployed version cache-first is indistinguishable from asking the network: an ok answer is the deployed response of its key |
| ServiceWorker.ForeignRequestsChangeNothing | spina_portal/sw.js:144-151 | API, health, non-GET and cross-origin requests can be left out of any run without changing anything |
| ServiceWorkerRules.RunsStayInScope | spina_portal/sw.js:144-159 | from a fresh worker no reachable cache key, flight or answer belongs to anything but a GET of its own origin outside /api/ and /health/, and no failed or partial reply is cached |
| ServiceWorkerRules.OthersAreLeftAlone | spina_portal/sw.js:144-151 | a request that is no such read can be left out of any run |
| ServiceWorkerRules.CachedReadIsAnswered | spina_portal/sw.js:125-127 | conversely every such read is taken up, and answered from its key when that is cached |
| ServiceWorkerRules.MissedReadIsAnsweredAndStored | spina_portal/sw.js:126-136 | and otherwise from the network, whose reply is stored exactly when it is successful, whole and there is room |
| ServiceWorkerRules.FailedReadIsAnError | spina_portal/sw.js:126-136 | a network failure is the answer and stores nothing |
| ServiceWorkerRules.NoRequestIsDropped | spina_portal/sw.js:124-137 | in every continuation a request taken up is in flight until it is answered |
| ServiceWorkerRules.InstallStoresEachAsset | spina_portal/sw.js:106-113 | an installation stores each asset's own reply under its own address, or nothing |
| ServiceWorker.EntryIsTheLastStored | spina_portal/sw.js:129-135 | between two states of a run an entry is the response last stored under its key by a request that had missed it, and unchanged where none was |
| ServiceWorker.EntryIsFinalIffFrozen | spina_portal/sw.js:126-136 | a cached entry stays the same in every continuation if and only if no request in flight has missed its key and still waits for the network or holds another response that the cache takes |
| ServiceWorker.ConcurrentMissesOverwrite | spina_portal/sw.js:126-136 | on every site a run from the first installation in which two requests miss a key, one stores its response and the other then overwrites it |
| ServiceWorker.ShellStaysOnOneVersion | spina_portal/sw.js:106-159 | after installation every shell entry stays the one of the installed batch, and every navigation and shell request is answered from it, whatever is released later |
| ServiceWorker.InstallFillsTheShell | spina_portal/sw.js:106-113 | an installation, all or nothing, establishes that premise; navigations then have a shell key |
| ServiceWorkerHandlers.Worker.OnInstall | spina_portal/sw.js:106-113 | addAll stores all assets or nothing |
| ServiceWorkerHandlers.Worker.OnActivate | spina_portal/sw.js:115-122 | every older cache is deleted and the own one untouched |
| ServiceWorkerHandlers.Worker.OnFetch | spina_portal/sw.js:139-159 | foreign requests are left alone, the others start with their cache key |
| ServiceWorkerHandlers.Worker.MatchCache | spina_portal/sw.js:125-127 | a hit answers and writes nothing |
| ServiceWorkerHandlers.Worker.Fetched | spina_portal/sw.js:128-129 | the network's reply, stored next only when ok |
| ServiceWorkerHandlers.Worker.FetchFailed | spina_portal/sw.js:128 | a network error is the answer and writes nothing |
| ServiceWorkerHandlers.Worker.StoreAndAnswer | spina_portal/sw.js:129-136 | a stored or refused put, then the network's answer either way |
| RangeCompressor.Compress | tools/render_ci_deep_review.py:110-119 | parsing the returned text gives exactly the set of the input numbers; the text is that of ascending, non-adjacent ranges |
| RangeNotation.PrintedRoundTrip | tools/render_ci_deep_review.py:110-119 | every printed canonical list parses back to its set, the lone dash to the empty set |
| RangeNotation.CanonicalIsUnique | tools/render_ci_deep_review.py:110-119 | a set has one canonical range list, so the text is independent of order and duplicates |
| RangeNotation.CanonicalCountsRuns | tools/render_ci_deep_review.py:110-119 | the number of ranges is the number of runs of the set |
| RangeNotation.CanonicalIsShortest | tools/render_ci_deep_review.py:110-119 | no list of ranges with the same numbers is shorter |
| SourceManifest.ReadListing | tools/build_bir_registration_package.py:301-318 | the record loop over git's listing, with its refusals |
| SourceManifest.ListingRoundTrip | tools/build_bir_registration_package.py:301-318 | what git prints for a tree, padding included, is read back as its directories and wanted blobs in order; accepted if and only if every path is UTF-8 and every wanted entry a regular file |
| SourceManifestFields.ListingNamesTheSourceFiles | tools/build_bir_registration_package.py:276-318 | the listing of a commit is accepted exactly when every path is UTF-8 and everything at a source path, the seven roots and seven files by name, is a directory or a blob of mode 100644 or 100755; it then has exactly those files |
| Utf8.DecodesIffEncoded | tools/build_bir_registration_package.py:306 | bytes decode exactly when they are the UTF-8 encoding of some sequence of Unicode scalar values |
| SourceManifestFields.ObjectIsReadIff | tools/build_bir_registration_package.py:329-339 | an object is read exactly when its id, the word blob, its size in decimal and a newline stand at the offset, followed by that many bytes |
| SourceManifestFields.ManifestHoldsIff | tools/build_bir_registration_package.py:298-381 | a commit has a manifest exactly with one to ten thousand source files of at most 256 MiB in all, readable versions and the seven documents by name; every file, version and document is held with its own bytes |
| ObjectBatch.AcceptsExactlyTheFramed | tools/build_bir_registration_package.py:329-339 | a stream of any bytes is accepted if and only if every object stands where the sizes before it put it; the bytes standing there are returned |
| ObjectBatch.BatchRoundTrip | tools/build_bir_registration_package.py:323-339 | git's own stream gives every object back exactly, embedded newlines and headers included |
| ObjectBatch.SeparatorsAreNotChecked | tools/build_bir_registration_package.py:337 | the byte after an object is never looked at: replacing it changes nothing |
| SourceInventory.ReadObjects | tools/build_bir_registration_package.py:329-354 | the loop with its moving offset builds inventory, component versions and documents of exactly the objects read |
| SourceInventory.BuildManifest | tools/build_bir_registration_package.py:298-381 | the two readers with the bounds and the completeness check in between |
| SourceInventory.ManifestIsTheCommit | tools/build_bir_registration_package.py:298-381 | for every commit with regular wanted entries: a manifest exists if and only if every path is UTF-8, the bounds hold, every version file can be read and all documents are committed; it then lists exactly the wanted blobs, byte for byte, the documents, the component versions and the directories |
| SourceInventory.SpecialFilesRefuse | tools/build_bir_registration_package.py:311-315 | a commit with a wanted link or special file is refused whatever the object stream holds |
| SourceInventory.InventoryIsExact | tools/build_bir_registration_package.py:339-344 | the inventory has exactly the listed paths, each with its own object |
| SourceInventory.DocsHoldTheBytes | tools/build_bir_registration_package.py:353-354 | each document is held with the bytes committed for it |
| SourceInventory.VersionsAreExact | tools/build_bir_registration_package.py:345-352 | the component versions are those of the committed version files, each read from its own bytes; one that cannot be read refuses |
| VersionDelta.VersionComparison | tools/build_bir_registration_package.py:384-415 | the validation loop, in any order of names, and the three lists |
| VersionDelta.DeltaIsExact | tools/build_bir_registration_package.py:402-412 | added, removed and changed are sorted, disjoint and name exactly the differing paths |
| VersionDelta.PatchGivesTheNewInventory | tools/build_bir_registration_package.py:402-412 | the delta with the entries of its added and changed names turns the earlier inventory into the new one |
| VersionDelta.WrittenIsAcceptedIffNamesArePlain | tools/build_bir_registration_package.py:385-401 | a manifest this tool wrote is accepted later exactly when all its names are plain |
| VersionDelta.BackslashNamesAreRefused | tools/build_bir_registration_package.py:398 | the failing case: git allows a backslash in a name, and such a version is refused as a prior one |
| VersionDelta.WrittenDelta | tools/build_bir_registration_package.py:402-412 | between two written versions the lists are the new, the missing and the differing paths |
| VersionDelta.SwapMirrors | tools/build_bir_registration_package.py:402-412 | comparing the other way round swaps added and removed and keeps changed, list for list |
| VersionDelta.EmptyIffEqual | tools/build_bir_registration_package.py:402-412 | the delta is empty exactly when the inventories are equal |
| VersionDelta.DeltasCompose | tools/build_bir_registration_package.py:402-412 | every path in the delta of two steps is in the delta of one of them |
| VersionDelta.UnlistedFilesKeepTheirBytes | tools/build_bir_registration_package.py:339-344 | between two commits whose contents the digest separates, a kept file is listed as changed if and only if its blob, mode, size or bytes differ |
| VersionDeltaFields.PriorIsAcceptedIff | tools/build_bir_registration_package.py:384-401 | a document is a prior version exactly when it has schema version 1, the kind, a commit of 40 hexadecimal digits and, for every file, a plain source path and a record with a SHA-256 |
| VersionDeltaFields.DeltaListsTheFiles | tools/build_bir_registration_package.py:402-412 | the delta of such a document: both commits and, in code point order, the names that are new, gone, and whose record differs in any member |
| VersionDeltaFields.StringLeIff | tools/build_bir_registration_package.py:402-412 | the order of names is by the code point where they first differ, a proper prefix first |
| ValidationReuseLoop.DecideValidationReuse | tools/reuse_validated_pr_ci.py:95-298 | the retry loop and everything after it decide as specified, with the number of listings and sleeps |
| ValidationReuseLoop.TryOnce | tools/reuse_validated_pr_ci.py:132-175 | one attempt: the listing and the detail of every numbered pull request |
| ValidationReuseLoop.FetchDetails | tools/reuse_validated_pr_ci.py:146-175 | the detail loop, stopping at the first invalid or disagreeing record |
| ValidationReuseLoop.Select | tools/reuse_validated_pr_ci.py:242-298 | the run filter and the choice of the latest run |
| ValidationReuseSafety.ReuseIsProven | tools/reuse_validated_pr_ci.py:131-298 | for every API, also one that changes between calls: a reuse rests on one listing whose details all agree and of which exactly one is merged, owned and on the base, on equal trees, and on the latest accepted run |
| ValidationReuseSafety.EvidenceIsEnough | tools/reuse_validated_pr_ci.py:131-298 | conversely that evidence, after attempts without a candidate, leads to the reuse |
| ValidationReuseFields.ReuseRestsOnTheReplies | tools/reuse_validated_pr_ci.py:43-298 | a reuse means, on the replies themselves: a closed, merged pull request of the owner on the base branch, its own record, equal trees, and a completed, successful pull-request run of this repository for that head and branch by the owner |
| ValidationReuseEnough.RepliesAreEnough | tools/reuse_validated_pr_ci.py:95-298 | conversely, on the replies: one numbered closed pull request, its own merged record, one tree for both commits and a successful run lead to the reuse of the latest such run |
| ValidationReuseFields.VerdictIff | tools/reuse_validated_pr_ci.py:242-278 | a run is accepted exactly with these members |
| ValidationReuseFields.OneSpoiledMemberRefuses | tools/reuse_validated_pr_ci.py:242-278 | replacing any one of the members of the only such run by another value refuses |
| ValidationReuseFields.NoSuccessfulRunRefuses | tools/reuse_validated_pr_ci.py:280-287 | without such a run nothing is reused |
| ValidationReuseFields.LatestRunIsReused | tools/reuse_validated_pr_ci.py:280-298 | of several the one with the greatest run number, then id, is reused |
| ValidationReuseFields.OwnerPullIff | tools/reuse_validated_pr_ci.py:43-68 | a listed pull request is a candidate exactly when it is closed, merged, the owner's, on the base branch and of this repository |
| ValidationReuseFields.RequestIsGoodIff | tools/reuse_validated_pr_ci.py:95-130 | which requests are turned down at once |
| ValidationReuseSafety.PickedRunIsLatest | tools/reuse_validated_pr_ci.py:280-298 | the returned run is the (run_number, id) maximum of all accepted runs of the list |
| ValidationReuseSafety.LatestAcceptedIsPicked | tools/reuse_validated_pr_ci.py:280-298 | and that maximum is what is returned, for integer ids |
| ValidationReuseSafety.RetriesOnlyWithoutCandidates | tools/reuse_validated_pr_ci.py:131-188 | a new attempt only after one without candidates; at most association_attempts listings and one sleep fewer than listings; an empty outcome has used every attempt |
| ValidationReuseSafety.AmbiguityRefuses | tools/reuse_validated_pr_ci.py:177-188 | two candidates stop at once, without a sleep, and refuse |
| ValidationReuseSafety.PickIgnoresOrder | tools/reuse_validated_pr_ci.py:242-287 | permuting or repeating runs, or inserting ones the filters reject, does not change the choice |
| ValidationReuseSafety.OwnerPullsIgnoreOthers | tools/reuse_validated_pr_ci.py:43-68 | inserting a pull request the filter rejects does not change the candidates |
| ValidationReuseSafety.DecisionIgnoresIrrelevantRecords | tools/reuse_validated_pr_ci.py:95-298 | two APIs that do not change over time and differ only in such records and in the order of the runs lead to the same decision |
| AlertNotifier.Monitor.Notify | tools/check_operational_health.py:191-217 | one call: the state file is replaced only by a saved delivery, and the result says whether the set is acknowledged |
| AlertNotifier.ComparesWithTheLastAcknowledged | tools/check_operational_health.py:191-206 | over any sequence of calls a call compares with the set the latest call that returned True was given |
| AlertNotifier.FailureIsRetried | tools/check_operational_health.py:207-217 | a failed call changes nothing, and the next call with the same failures tries again |
| AlertNotifier.StoredAlertsAreAnHourApart | tools/check_operational_health.py:203-206 | two stored alerts of the same set in a row are at least 3600 s apart, and only for a set that still fails |
| AlertNotifier.PersistingFailureIsRepeated | tools/check_operational_health.py:203-214 | with working delivery, polls at gaps of at most d repeat the alert no sooner than 3600 s and before 3600 s + d |
| AlertNotifier.RecoveryIsAnnouncedOnce | tools/check_operational_health.py:203-206 | a recovery is announced exactly when the acknowledged set was not empty |
| AlertNotifier.TriesIff | tools/check_operational_health.py:191-206 | a call tries exactly when its failures are not the recorded texts, or are not empty and 3600 s old; a missing, malformed or future file records none |
| ScannerRegression.Compare | tools/check_release_scanner_regressions.py:138-160 | the loop over the sorted tools: passed if and only if the tool sets are equal and no finding of any tool is reported more often; one result for every tool of either side |
| ScannerRegression.FindingsAreConserved | tools/check_release_scanner_regressions.py:144-155 | baseline + added = current + removed as bags, added and removed are disjoint, and the totals differ accordingly |
| ScannerRegression.EachFindingIsCounted | tools/check_release_scanner_regressions.py:147-148 | a finding is added as often as its count rose and removed as often as it fell |
| ScannerRegression.PassingIsReflexive | tools/check_release_scanner_regressions.py:138-160 | a report passes against itself |
| ScannerRegression.PassingChains | tools/check_release_scanner_regressions.py:138-160 | if every revision passes against the one before, the last passes against the first |
| ScannerRegression.FixesDoNotPayForNewFindings | tools/check_release_scanner_regressions.py:147-149 | one occurrence more of any fingerprint fails, whatever was fixed elsewhere |
| ScannerRegression.RemovingFindingsKeepsPassing | tools/check_release_scanner_regressions.py:132-160 | dropping any finding from any tool keeps a passing report passing |
| ScannerRegression.OrderIsNotCounted | tools/check_release_scanner_regressions.py:132-134 | a report counts the same in whatever order its findings are listed |
| ScannerRegression.LinesAreNotCounted | tools/check_release_scanner_regressions.py:31-62 | a report counts the same with its findings at other reported lines |
| ScannerRegression.CheckoutDirectoryIsDropped | tools/check_release_scanner_regressions.py:23-28 | a path below any of the four source roots is named alike in a checkout directory if and only if the directory does not lead to that root, nor the whole path to one listed earlier |
| ScannerFingerprints.CountedTogetherIff | tools/check_release_scanner_regressions.py:31-62 | two findings of one tool are counted together exactly when they agree in every member but the line, defaults filled in and files compared by the source they name |
| ScannerFingerprints.RelativeSourceIs | tools/check_release_scanner_regressions.py:23-28 | the source a path names: from the first place of the first of the four roots in it, or without a leading ./, with slashes for backslashes |
| TestShard.Configure | tools/pytest_ci_shard.py:16-37 | a shard exactly for two integers with index in [0, count); neither variable means no sharding, anything else is a usage error |
| Integers.IntOfTextIff | tools/pytest_ci_shard.py:16-37 | which texts are read as an integer, and as which: blanks around it, at most one sign, digits with single underscores between them |
| TestShard.Collection.ModifyItems | tools/pytest_ci_shard.py:40-61 | the item list is replaced in place by the shard, the rest is deselected, and nothing changes without a shard |
| TestShard.EveryFileInOneShard | tools/pytest_ci_shard.py:51-52 | every collected file, hence with all its tests, is in exactly one shard |
| TestShard.ShardsPartitionTheTests | tools/pytest_ci_shard.py:51-55 | together the shards hold every test exactly as often as it was collected |
| TestShard.KeepIsASubsequence | tools/pytest_ci_shard.py:53-55 | a shard keeps the collection order and takes exactly the tests of its files |
| TestShard.FileCountsDifferByAtMostOne | tools/pytest_ci_shard.py:51-52 | any two shards differ by at most one file |
| TestShard.OrderDoesNotMatter | tools/pytest_ci_shard.py:46-53 | a shard's files depend on the set of paths only, its tests on the collected tests but not their order |
| PerformanceEvidence.ValidatePerformance | tools/build_release_candidate_evidence.py:335-420 | accepted if and only if scope, rows, coverage, totals and budget all hold |
| PerformanceEvidence.AcceptedMeansAnswered | tools/build_release_candidate_evidence.py:364-420 | in an accepted report the completed total is the number of requests answered as expected, every route and the denial have some, and p50 <= p95 <= budget in every row |
| PerformanceFields.AcceptedIff | tools/build_release_candidate_evidence.py:335-420 | a report is accepted exactly when its members say: measured scope, rows answered with the expected status and no errors, ordered latencies, every route and the denial visited, requests adding up to the completed total, and a stated budget that every row keeps |
| ReleaseEvidence.ReportBuilder.RunCheck | tools/build_release_candidate_evidence.py:482-505 | a gate is recorded with its outcome, and later gates run all the same |
| ReleaseEvidence.ReportBuilder.BuildReport | tools/build_release_candidate_evidence.py:464-674 | all 28 gates in their order, the blocked ones, the files, the attestations and the status |
| ReleaseEvidenceSafety.EveryGateIsDecidedByTheFiles | tools/build_release_candidate_evidence.py:482-667 | although the gates share and change state, each gate's outcome is a function of the files alone, whatever other gates did |
| ReleaseEvidenceSafety.RawDigestsAreRecorded | tools/build_release_candidate_evidence.py:602-607 | the raw scanner reports are digested one by one beside the inputs, all of them exactly when each can be read |
| ReleaseEvidenceSafety.ReadyIffEveryGateAgrees | tools/build_release_candidate_evidence.py:668-673 | READY exactly when every gate agrees with the files; the blocked list names exactly the others |
| ReleaseEvidenceSafety.GatesAreDistinct | tools/build_release_candidate_evidence.py:548-667 | no gate is recorded twice |
| ReleaseEvidenceSafety.AttestationsAreThePassedHumans | tools/build_release_candidate_evidence.py:625-667 | the attestations listed are the passed human gates, in order |
| JsonMembers.SameIff | tools/build_release_candidate_evidence.py:594-595 | two JSON values are equal for Python exactly when they are the same up to the kind of their numbers, at any depth |
| ReleaseEvidenceSafety.UnloadedInputBlocksItsUsers | tools/build_release_candidate_evidence.py:538-556 | a gate that uses the document of an input that did not load is blocked |
| ReleaseEvidenceSafety.ReadyHashesAreTheFiles | tools/build_release_candidate_evidence.py:638-646 | in a ready report every person accepted the very digests of the listed input files |
| ReleaseEvidenceFields.ReadyIsAttestedAndSigned | tools/build_release_candidate_evidence.py:565-673 | a ready report means for each of the seven attestations, on the document: outcome accepted, this commit, a dated review with a reference, the digests of exactly its files, and a package that is a signed release |
| ReleaseEvidenceFields.OtherOutcomeBlocksItsGate | tools/build_release_candidate_evidence.py:625-637 | an attestation of any other outcome blocks its gate, and only that one when all else is in order |
| ReleaseEvidenceFields.AttestedIff | tools/build_release_candidate_evidence.py:625-651 | when a human gate passes, on the members of its entry |
| ReleaseEvidenceFields.SigningGateIff | tools/build_release_candidate_evidence.py:565-581 | when the signing gate passes, on the members of the Android report |
| ReleaseEvidenceFields.SourceGateIff | tools/build_release_candidate_evidence.py:507-522 | when the source gate passes: the expected commit is checked out, clean, with a tree |
| ReleaseEvidenceFields.PathIff | tools/build_release_candidate_evidence.py:524-551 | which file an input names |
| ReleaseReportFields.ReportListsTheFiles | tools/build_release_candidate_evidence.py:532-607 | the files of the report: of the inputs exactly those that are files, the filled-in template, and with the scanner gate passed the baseline and the six raw reports, each with its own digest |
| ReleaseReportFields.ScannerGateIff | tools/build_release_candidate_evidence.py:587-607 | the scanner gate passes exactly when the comparison computed from the raw reports passed, equals the one handed in, and the baseline and six raw reports can be read |
| ReleaseReportFields.BindingGateIff | tools/build_release_candidate_evidence.py:611-623 | a binding is validated with the report's own digest and the tree of the candidate, if that is checked out |
| ReleaseReportFields.InputGateIff | tools/build_release_candidate_evidence.py:538-551 | a loader passes on a directory, a file or a JSON object, as its input asks for |
| ReleaseReportFields.PerformanceGateIff | tools/build_release_candidate_evidence.py:610 | the performance gate passes exactly on an acceptable report |
| DisposableDatabases.Validation.CreateDisposableDatabase | tools/run_borrower_schedule_adjustment_disposable_postgres_validation.py:84-105 | refuses a name found existing, and owns the name before CREATE, also when CREATE fails after creating |
| DisposableDatabases.Validation.BootstrapSchema | tools/run_borrower_schedule_adjustment_disposable_postgres_validation.py:108-133 | the helper runs under the temporary bound and the shared bound is back afterwards |
| DisposableDatabases.Validation.RunProof | tools/run_borrower_schedule_adjustment_disposable_postgres_validation.py:202-243 | the body of the try block up to its first error |
| DisposableDatabases.Validation.DropDatabase | tools/run_stage5d17_disposable_postgres_validation.py:196-218 | the drop with its five turns |
| DisposableDatabases.Validation.DropOwned | tools/run_borrower_schedule_adjustment_disposable_postgres_validation.py:252-265 | the cleanup loop in reverse order, going on after tolerated errors |
| DisposableDatabases.Validation.Run | tools/run_borrower_schedule_adjustment_disposable_postgres_validation.py:200-265 | try, except and finally together |
| DisposableDatabases.NewDatabasesAreOwned | tools/run_borrower_schedule_adjustment_disposable_postgres_validation.py:92-105 | on any exit from the proof, also after an ambiguous CREATE, each new database is owned or another session's, and none of the earlier ones is owned |
| DisposableDatabases.EveryOwnedDatabaseIsAttemptedOnce | tools/run_borrower_schedule_adjustment_disposable_postgres_validation.py:252-265 | the owned databases get one drop attempt each, last created first, if and only if no earlier drop raises anything but a database error or an exit |
| DisposableDatabases.ExistingDatabasesSurvive | tools/run_borrower_schedule_adjustment_disposable_postgres_validation.py:92-96 | a database that was there before is never attempted and is there afterwards |
| DisposableDatabases.SuccessLeavesNothingBehind | tools/run_borrower_schedule_adjustment_disposable_postgres_validation.py:200-265 | the run returns if and only if the proof held and every drop was done, and then nothing it created is left |
| DisposableDatabases.TheFirstErrorIsReportedIff | tools/run_borrower_schedule_adjustment_disposable_postgres_validation.py:241-265 | an error of the proof is what is raised if and only if no cleanup error escapes or the escaping one is the same; one escapes if and only if some drop raises anything but a database error or an exit |
| DisposableDatabases.AnInterruptedDropReplacesTheError | tools/run_borrower_schedule_adjustment_disposable_postgres_validation.py:252-265 | the failing family: from every server, after an ambiguous CREATE an interrupted drop replaces the error and leaves the database behind |
| DisposableDatabases.DatabaseIsLostIff | tools/run_borrower_schedule_adjustment_disposable_postgres_validation.py:252-265 | a database that is there after the proof is lost if and only if its drop was attempted and removed it |
| DisposableDatabases.ForeignDatabaseOfTheFirstGap | tools/run_borrower_schedule_adjustment_disposable_postgres_validation.py:92-105 | a database another session creates between the first look-up and CREATE is lost if and only if it took the generated name and the drop of that name removes it |
| DisposableDatabases.ForeignDatabaseOfTheSecondGap | tools/run_borrower_schedule_adjustment_disposable_postgres_validation.py:92-105 | likewise for the second look-up and CREATE |
| DisposableDatabases.DropSucceedsIff | tools/run_stage5d17_disposable_postgres_validation.py:196-218 | a drop succeeds exactly when one of five turns reaches DROP and no earlier turn breaks |
| DisposableVerdicts.RunReturnsIff | tools/run_borrower_schedule_adjustment_disposable_postgres_validation.py:200-265 | the run returns exactly when both names can be made, both suites end with 0, no other step fails and both drops reach DROP within five turns; then both are dropped in reverse order, under the bounds 109 and 111 the schemas were bootstrapped |
| DisposableVerdicts.DropIs | tools/run_stage5d17_disposable_postgres_validation.py:196-218 | what a drop ends in: the connection's error, the first turn of five that does not wait, or the error of the fifth wait |
| DisposableVerdicts.TwoDrops | tools/run_borrower_schedule_adjustment_disposable_postgres_validation.py:252-265 | with two owned databases: after which errors of the first drop the second one follows, and what is reported |
| DisposableVerdicts.BrokenProofIsReported | tools/run_borrower_schedule_adjustment_disposable_postgres_validation.py:241-265 | what the caller sees of each kind of error of the proof when the drops work |
| DisposableVerdicts.FailingTestsEndTheProof | tools/run_borrower_schedule_adjustment_disposable_postgres_validation.py:202-243 | a suite that ends with another code than 0, or raises, ends the proof there |
| DisposableVerdicts.LostIffRemoved | tools/run_borrower_schedule_adjustment_disposable_postgres_validation.py:252-265 | a database is lost exactly when attempted and dropped, or gone when the drop broke off |

## Left out

- Backend business logic, its SQL beyond the two migrations, and the mobile client: other subjects.
- The other apply scripts: the same shape as 0096 or 0102 with other object lists.
- Receipt split: a commit whose acknowledgement is lost, DDL by other sessions, deadlock detection (it would be a fault), and the trigger that fills the new columns of later legacy inserts.
- Receipt split: column order and SQL types; a snapshot is taken over the set of legacy columns, and the columns no query computes with are one map of texts.
- CollectionTable.Apply: of the guard trigger only the rule for voided receipts; its refusals of changes to locked or already remitted receipts are not modelled, so writers here can do more than the database lets them.
- ReceiptSplitGap.OneChangedCellRollsBack: hence also speaks of cells those further rules would protect.
- Review and rejection: the several catalogue queries of one probe are one step, since other sessions never change the schema here; the SQL texts of index and function are the sets of markers looked for.
- ECL migrations: the command-line and environment handling in `main`, the content of the probes, and the summary figures.
- Service worker: workers of an older release still running, quota eviction, `Vary`, `clients.claim` and `skipWaiting`; opening the cache is one step with looking up the key. `addAll` is all or nothing, section 5.4 (Cache) of W3C Service Workers.
- RangeCompressor.Compress: natural numbers only; a negative line number is outside its domain.
- SourceManifest.ReadListing: paths stay bytes, so that two paths are equal when their bytes are; a negative size is refused at once, where the code refuses it when reading the object.
- SourceInventory.BuildManifest: how a version is read from TOML, JSON or YAML bytes (an arbitrary reader that may refuse), the two name lists derived from the inventory, and the checks of the checkout.
- VersionDelta.VersionComparison: the fixed review fields of the result; `previous_source_sha` is the JSON value itself.
- JSON: NaN and infinities; the text Python gives a float, a list or an object is an abstract text that equals no other.
- ValidationReuse: case folding beyond ASCII and URL quoting.
- Text.IntOfText: digits and blanks beyond ASCII, and the limit Python puts on the number of digits.
- AlertNotifier.Monitor.Notify: a clock that goes back, other writers of the file, and a leftover temporary file; `checks` and `backup_fresh` are not part of this model.
- ScannerRegression: the parsing and validation of the six report formats; negative counts in a baseline; what Gitleaks itself puts into its fingerprint, which may include a line.
- ScannerRegression.LinesAreNotCounted: for Gitleaks says that the reported line is not counted, while a line inside the tool's own fingerprint is.
- TestShard: computing the relative POSIX path of a test, and the summary line.
- PerformanceEvidence.ValidatePerformance: adds request counts exactly; the code adds floats with rounding, so the equality of totals is the code's for integer counts only. A float as expected status is refused, since the text of a float is abstract.
- PerformanceEvidence.AcceptedMeansAnswered: the equality of totals is likewise about integer counts.
- ReleaseEvidence.ReportBuilder.BuildReport: the validators of CI, Android, recovery and binding evidence and the scanner comparison are arbitrary predicates of what they are given; files that change while the report is built, and exceptions the engine does not catch are not modelled.
- DisposableDatabases: the janitor mode, the checks in front of the run, the content of bootstrap and tests, and the sleeps between turns.
- Lines printed to consoles, exit codes of the programs, environment files.
