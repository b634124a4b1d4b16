// The body 0096 ships (gilbic_backend/sql/0096_separate_collection_receipt_cash_from_loan_application.sql),
// when a run with it commits, and what a body that does not keep the evidence could do.
module ReceiptSplitShipped {
  import opened Options
  import opened Listing
  import opened CollectionTable
  import opened ReceiptSplitMigration
  import opened ReceiptSplitSafety

  predicate NeedsBackfill(r: Row) {
    r.applied == None || r.unallocated == None || r.allocation == None
  }

  function Backfilled(r: Row): Row {
    if !NeedsBackfill(r) then r
    else r.(applied := Some(if r.entryType == "pass" then 0 else r.amount), unallocated := Some(0),
            allocation := Some(if r.entryType == "pass" then "not_applicable" else "fully_allocated"))
  }

  // The four CHECK constraints, after NOT NULL.
  predicate MeetsConstraints(r: Row) {
    && r.applied.Some? && r.unallocated.Some? && r.allocation.Some?
    && var applied, unallocated, state := r.applied.value, r.unallocated.value, r.allocation.value;
    && 0 <= applied <= r.amount
    && 0 <= unallocated <= r.amount
    && ((r.entryType == "pass" && r.amount == 0 && applied == 0 && unallocated == 0)
        || (r.entryType in {"payment", "advance"} && applied + unallocated == r.amount))
    && ((r.entryType == "pass" && state == "not_applicable")
        || (r.entryType in {"payment", "advance"}
            && ((state == "fully_allocated" && applied == r.amount && unallocated == 0)
                || (state == "partially_allocated" && applied > 0 && unallocated > 0)
                || (state == "unallocated" && applied == 0 && unallocated == r.amount))))
  }

  // The backfill is an UPDATE: with the lock-guard trigger enabled it fails on a voided receipt.
  function Shipped(db: Db): Option<Db> {
    if !db.tableExists then None
    else if db.lockTrigger == Some(ENABLED)
            && exists id | id in db.rows :: db.rows[id].voided && NeedsBackfill(db.rows[id]) then None
    else
      var rows := map id | id in db.rows :: Backfilled(db.rows[id]);
      if exists id | id in rows :: !MeetsConstraints(rows[id]) then None
      else Some(db.(columns := db.columns + NEW_COLUMNS, rows := rows, view := Some(View({})),
                    constraints := db.constraints + RECEIPT_CONSTRAINTS, normalizeTrigger := Some(ENABLED)))
  }

  lemma ShippedPreserves(columns: set<string>)
    ensures Preserves(Shipped, columns)
  {
    forall db: Db | Shipped(db).Some? ensures SameLegacy(Shipped(db).value, db, columns) {
      var after := Shipped(db).value;
      forall id | id in db.rows ensures SameCells(after.rows[id], db.rows[id], columns) {
        assert after.rows[id] == Backfilled(db.rows[id]);
      }
    }
  }

  // Suspending the trigger is not optional: with it enabled the body fails exactly on the
  // tables that hold a voided receipt.
  lemma SuspensionIsNeeded(db: Db)
    requires Pristine(db)
    ensures Shipped(db).Some? <==> forall id | id in db.rows :: !db.rows[id].voided
    ensures Shipped(db.(lockTrigger := Some(SUSPENDED))).Some?
  {
    LegacyTableBackfills(db);
  }

  lemma LegacyTableBackfills(db: Db)
    requires LegacyTable(db)
    ensures forall id | id in db.rows :: MeetsConstraints(Backfilled(db.rows[id]))
    ensures forall id | id in db.rows :: !InvalidApplication(Backfilled(db.rows[id]))
    ensures forall id | id in db.rows :: Backfilled(db.rows[id]).applied == Some(db.rows[id].amount)
    ensures forall id | id in db.rows :: Backfilled(db.rows[id]).unallocated == Some(0)
  {
  }

  lemma {:induction false} SumOfZeros(ids: seq<int>, amounts: map<int, int>)
    requires forall i | 0 <= i < |ids| :: ids[i] in amounts && amounts[ids[i]] == 0
    ensures Sum(ids, amounts) == 0
  {
    if ids != [] { SumOfZeros(ids[1..], amounts); }
  }

  // What the transaction makes of a legacy table.
  lemma ShippedMigrates(db: Db)
    requires Pristine(db)
    ensures Migrated(db, Shipped).Some?
    ensures var after := Migrated(db, Shipped).value;
            && after.tableExists && db.columns <= after.columns
            && forall check: nat | check < CHECKS :: CheckPasses(after, check, Some(|db.rows|), |after.rows|)
  {
    hide Migrated, Shipped, CheckPasses, BackfilledTable;
    ShippedBackfills(db);
    var after := Migrated(db, Shipped).value;
    BackfillPassesChecks(db, after);
  }

  // The migrated table: every receipt backfilled, the schema objects in place, the trigger up.
  ghost predicate BackfilledTable(db: Db, after: Db) {
    && after.tableExists && after.columns == db.columns + NEW_COLUMNS
    && after.rows.Keys == db.rows.Keys && (forall id | id in after.rows :: after.rows[id] == Backfilled(db.rows[id]))
    && after.view == Some(View({})) && after.constraints == db.constraints + RECEIPT_CONSTRAINTS
    && after.lockTrigger == Some(ENABLED) && after.normalizeTrigger == Some(ENABLED)
  }

  lemma ShippedBackfills(db: Db)
    requires Pristine(db)
    ensures Migrated(db, Shipped).Some?
    ensures var after := Migrated(db, Shipped).value;
            BackfilledTable(db, after) && after.tableExists && db.columns <= after.columns
  {
    hide LegacyTable, MeetsConstraints, Backfilled, NeedsBackfill;
    LegacyTableBackfills(db);
    var suspended := SetLockTrigger(db, SUSPENDED).value;
    assert suspended.rows == db.rows;
    assert Shipped(suspended).Some?;
  }

  lemma BackfillPassesChecks(db: Db, after: Db)
    requires LegacyTable(db) && BackfilledTable(db, after)
    ensures forall check: nat | check < CHECKS :: CheckPasses(after, check, Some(|db.rows|), |after.rows|)
  {
    hide LegacyTable, Backfilled, InvalidApplication, CashTotal, AppliedTotal, UnallocatedTotal;
    LegacyTableBackfills(db);
    BackfillReconciles(db, after);
    assert |after.rows| == |after.rows.Keys| == |db.rows.Keys| == |db.rows|;
    assert after.rows.Keys - {} == after.rows.Keys;
  }

  lemma BackfillReconciles(db: Db, after: Db)
    requires LegacyTable(db) && after.rows.Keys == db.rows.Keys
    requires forall id | id in after.rows :: after.rows[id] == Backfilled(db.rows[id])
    ensures CashTotal(after) == AppliedTotal(after) && UnallocatedTotal(after) == 0
  {
    LegacyTableBackfills(db);
    forall id | id in after.rows ensures after.rows[id].applied == Some(after.rows[id].amount) {
      assert after.rows[id] == Backfilled(db.rows[id]);
    }
    assert Amounts(after) == AppliedAmounts(after);
    var ids := SortedInts(after.rows.Keys);
    forall i | 0 <= i < |ids| ensures ids[i] in UnallocatedAmounts(after) && UnallocatedAmounts(after)[ids[i]] == 0 {
      assert ids[i] in ids;
    }
    SumOfZeros(ids, UnallocatedAmounts(after));
  }

  lemma ShippedSucceedsIffEvidenceHolds(db: Db, e: Evidence)
    requires Pristine(db) && e.columns == db.columns
    ensures Succeeds(db, e, Shipped) <==> EvidenceHolds(e, db)
  {
    ShippedMigrates(db);
    ShippedPreserves(db.columns);
    var after := Migrated(db, Shipped).value;
    MigratedPreserves(db, Shipped, db.columns);
    ImagesDetermineEvidence(db, after, db.columns);
    hide Select, CheckPasses, Migrated;
    if EvidenceHolds(e, db) {
      assert e.totals.value.count == |db.rows|;
      forall check: nat | check < CHECKS ensures CheckHolds(e, after, check) {
      }
    }
  }

  // With the shipped body a fault-free run from a pristine database commits if and only if the
  // evidence read before the lock still holds of the table that was locked. In particular it
  // commits whenever no other session committed a write between the first read and the lock.
  lemma ShippedCommitsIffGapIsQuiet(s0: System, events: seq<Event>)
    requires Initial(s0) && Pristine(s0.db) && NoFaults(events) && Run(s0, Shipped, events).runner.Finished?
    ensures var s := Run(s0, Shipped, events);
            var o := s.runner.outcome;
            && (o.Installed? || o.RolledBack?) && o.lockAt <= |s.history|
            && (o.Installed? <==> EvidenceHolds(o.before, Alone(s0.db, s.history, o.lockAt)))
            && (o.before.all.at == o.lockAt ==> o.Installed?)
  {
    OutcomeIsDecidedUnderTheLock(s0, Shipped, events);
    var s := Run(s0, Shipped, events);
    var o := s.runner.outcome;
    hide Run, EvidenceHolds, Succeeds, Pristine;
    PristineSurvivesWriters(s0.db, s.history[..o.lockAt]);
    ShippedSucceedsIffEvidenceHolds(Alone(s0.db, s.history, o.lockAt), o.before);
    if o.before.all.at == o.lockAt {
      QuietGap(s0.db, s.history, o.before, o.lockAt);
    }
  }

  lemma QuietGap(db0: Db, history: seq<WriterOp>, e: Evidence, lockAt: nat)
    requires EvidenceRead(db0, history, e) && e.all.at == lockAt && e.totals.at <= lockAt
    ensures EvidenceHolds(e, Alone(db0, history, lockAt))
  {
    hide Select, TotalsOf, Alone;
  }

  lemma PristineSurvivesWriters(db: Db, ops: seq<WriterOp>)
    requires Pristine(db)
    ensures Pristine(ApplyAll(db, ops)) && ApplyAll(db, ops).columns == db.columns
  {
    ApplyAllKeepsSchema(db, ops);
    ApplyAllKeepsLegacyTable(db, ops);
  }

  // ----- Every run can be driven to its end -----

  function Rank(r: Runner): nat {
    match r
    case ProbeTable => 40 case ProbeView => 39 case ProbeColumns(_) => 38
    case CheckLockTrigger(_) => 37 case CheckLegacy(_) => 36
    case SnapAll(_) => 35 case SnapVoided(_, _) => 34 case SnapTotals(_, _, _) => 33 case LockTable(_) => 32
    case VerifyExisting(check, _) => ChecksLeft(check) + 1
    case Finished(_) => 0
    case Locked(_, _, _, next) =>
      (match next
       case SuspendTrigger => 31 case RunBody => 30 case RestoreTrigger => 29 case CheckRestored => 28
       case ReSnapAll => 27 case ReSnapVoided(_) => 26 case ReSnapTotals(_, _) => 25 case Compare(_, _, _) => 24
       case Verify(check, _) => ChecksLeft(check) + 2
       case Commit => 1)
  }

  function ChecksLeft(check: nat): nat {
    if check < CHECKS then CHECKS - check else 0
  }

  function RunnerSteps(n: nat): seq<Event> {
    seq(n, _ => RunnerStep)
  }

  lemma {:induction false} RunConcat(s: System, body: Body, a: seq<Event>, b: seq<Event>)
    ensures Run(s, body, a + b) == Run(Run(s, body, a), body, b)
  {
    hide Step;
    if b == [] {
      assert a + b == a;
    } else {
      RunConcat(s, body, a, b[..|b| - 1]);
      assert (a + b)[..|a + b| - 1] == a + b[..|b| - 1];
    }
  }

  lemma RunOne(s: System, body: Body, e: Event)
    ensures Run(s, body, [e]) == Step(s, body, e)
  {
    assert [e][..0] == [];
  }

  // Once no other session holds the table, the runner alone finishes, within its rank.
  lemma {:induction false} RunnerFinishes(s: System, body: Body, n: nat)
    requires s.writers == {} && Rank(s.runner) <= n
    ensures var t := Run(s, body, RunnerSteps(n)); t.runner.Finished? && t.history == s.history
    decreases n
  {
    if n > 0 {
      hide Step, Rank, Run;
      StepLowersRank(s, body);
      RunnerStepsFromFront(s, body, n);
      RunnerFinishes(Step(s, body, RunnerStep), body, n - 1);
    } else {
      assert RunnerSteps(0) == [];
    }
  }

  lemma RunnerStepsFromFront(s: System, body: Body, n: nat)
    requires n > 0
    ensures Run(s, body, RunnerSteps(n)) == Run(Step(s, body, RunnerStep), body, RunnerSteps(n - 1))
  {
    hide Step, Run;
    assert RunnerSteps(n) == [RunnerStep] + RunnerSteps(n - 1);
    RunConcat(s, body, [RunnerStep], RunnerSteps(n - 1));
    RunOne(s, body, RunnerStep);
  }

  lemma StepLowersRank(s: System, body: Body)
    requires s.writers == {}
    ensures var t := Step(s, body, RunnerStep);
            && t.writers == {} && t.history == s.history
            && Rank(t.runner) <= if Rank(s.runner) == 0 then 0 else Rank(s.runner) - 1
  {
    hide BeforeLock, UnderLock;
    if s.runner.Locked? {
      if !s.runner.next.Commit? { UnderLockLowersRank(s.runner, body); }
    } else if !s.runner.LockTable? {
      BeforeLockLowersRank(s.runner, s.db, |s.history|);
    }
  }

  lemma BeforeLockLowersRank(r: Runner, db: Db, at: nat)
    requires !r.LockTable? && !r.Locked?
    ensures Rank(BeforeLock(r, db, at)) <= if Rank(r) == 0 then 0 else Rank(r) - 1
  {
    hide Select, TotalsOf, CheckPasses, NoLegacyViolation;
  }

  lemma UnderLockLowersRank(r: Runner, body: Body)
    requires r.Locked? && !r.next.Commit?
    ensures Rank(UnderLock(r, body)) < Rank(r)
  {
    hide Select, TotalsOf, CheckPasses, SetLockTrigger;
  }

  // ----- The price of reading the evidence before locking -----

  // From a pristine database the runner can read all its evidence, then other sessions write
  // `gap`, and only then it locks and runs to its end.
  lemma GapRun(db: Db, gap: seq<WriterOp>, body: Body) returns (events: seq<Event>)
    requires Pristine(db)
    ensures var s0 := System(db, [], {}, ProbeTable);
            var s := Run(s0, body, events);
            && Initial(s0) && NoFaults(events) && s.history == gap && s.runner.Finished?
            && (s.runner.outcome.Installed? || s.runner.outcome.RolledBack?)
            && s.runner.outcome.lockAt == |gap|
            && s.runner.outcome.before.columns == db.columns
            && EvidenceHolds(s.runner.outcome.before, db)
            && (s.runner.outcome.Installed? <==> Succeeds(ApplyAll(db, gap), s.runner.outcome.before, body))
  {
    hide Run, Step, Succeeds, EvidenceRead, Pristine;
    var s0 := System(db, [], {}, ProbeTable);
    var write := [Begin(0), CommitWrite(0, gap)];
    var read, rest := RunnerSteps(8), RunnerSteps(32);
    ReachesLock(db, body);
    var s1 := Run(s0, body, read);
    WriteInTheGap(s1, body, gap);
    FromLockToEnd(Run(s1, body, write), body);
    RunConcat(s0, body, read, write);
    RunConcat(s0, body, read + write, rest);
    events := read + write + rest;
    OutcomeIsDecidedUnderTheLock(s0, body, events);
    assert gap[..|gap|] == gap;
  }

  lemma WriteInTheGap(s: System, body: Body, gap: seq<WriterOp>)
    requires s.writers == {} && s.history == [] && s.runner.LockTable?
    ensures Run(s, body, [Begin(0), CommitWrite(0, gap)]) == System(ApplyAll(s.db, gap), gap, {}, s.runner)
  {
    var write := [Begin(0), CommitWrite(0, gap)];
    assert write == [Begin(0)] + [CommitWrite(0, gap)];
    RunConcat(s, body, [Begin(0)], [CommitWrite(0, gap)]);
    RunOne(s, body, Begin(0));
    RunOne(Step(s, body, Begin(0)), body, CommitWrite(0, gap));
    hide Run;
    assert {} + {0} - {0} == {};
    assert [] + gap == gap;
  }

  // From the lock on the evidence and the lock position no longer change.
  lemma FromLockToEnd(s: System, body: Body)
    requires s.writers == {} && s.runner.LockTable?
    ensures var t := Run(s, body, RunnerSteps(32));
            t.runner.Finished? && t.history == s.history && Keeps(t.runner, s.runner.before, |s.history|)
  {
    RunnerFinishes(s, body, 32);
    KeepsEvidence(s, body, 32);
  }

  predicate Keeps(r: Runner, e: Evidence, lockAt: nat) {
    match r
    case LockTable(before) => before == e
    case Locked(before, at, _, _) => before == e && at == lockAt
    case Finished(Installed(before, at, _)) => before == e && at == lockAt
    case Finished(RolledBack(before, at)) => before == e && at == lockAt
    case _ => false
  }

  lemma {:induction false} KeepsEvidence(s: System, body: Body, n: nat)
    requires s.writers == {} && s.runner.LockTable?
    ensures var t := Run(s, body, RunnerSteps(n));
            t.writers == {} && t.history == s.history && Keeps(t.runner, s.runner.before, |s.history|)
  {
    if n > 0 {
      KeepsEvidence(s, body, n - 1);
      assert RunnerSteps(n)[..n - 1] == RunnerSteps(n - 1);
      KeepsEvidenceOnce(Run(s, body, RunnerSteps(n - 1)), body, s.runner.before, |s.history|);
    } else {
      assert RunnerSteps(0) == [];
    }
  }

  lemma KeepsEvidenceOnce(s: System, body: Body, e: Evidence, lockAt: nat)
    requires s.writers == {} && |s.history| == lockAt && Keeps(s.runner, e, lockAt)
    ensures var t := Step(s, body, RunnerStep);
            t.writers == {} && t.history == s.history && Keeps(t.runner, e, lockAt)
  {
    hide Select, TotalsOf, CheckPasses, NoLegacyViolation, SetLockTrigger;
  }

  lemma ReachesLock(db: Db, body: Body)
    requires Pristine(db)
    ensures var s := Run(System(db, [], {}, ProbeTable), body, RunnerSteps(8));
            && s.db == db && s.history == [] && s.writers == {}
            && s.runner.LockTable? && s.runner.before.columns == db.columns && EvidenceHolds(s.runner.before, db)
  {
    hide Run, Step, BeforeLock, Select, TotalsOf;
    PassesGates(db, body);
    ReadsEvidence(System(db, [], {}, SnapAll(db.columns)), body);
  }

  lemma PassesGates(db: Db, body: Body)
    requires Pristine(db)
    ensures Run(System(db, [], {}, ProbeTable), body, RunnerSteps(8))
            == Run(System(db, [], {}, SnapAll(db.columns)), body, RunnerSteps(3))
  {
    hide Run, Step, BeforeLock, Pristine;
    GateSteps(db);
    var s := System(db, [], {}, ProbeTable);
    Advance(s, body, 8, ProbeView);
    Advance(s.(runner := ProbeView), body, 7, ProbeColumns(false));
    Advance(s.(runner := ProbeColumns(false)), body, 6, CheckLockTrigger(db.columns));
    Advance(s.(runner := CheckLockTrigger(db.columns)), body, 5, CheckLegacy(db.columns));
    Advance(s.(runner := CheckLegacy(db.columns)), body, 4, SnapAll(db.columns));
  }

  lemma GateSteps(db: Db)
    requires Pristine(db)
    ensures BeforeLock(ProbeTable, db, 0) == ProbeView && BeforeLock(ProbeView, db, 0) == ProbeColumns(false)
    ensures BeforeLock(ProbeColumns(false), db, 0) == CheckLockTrigger(db.columns)
    ensures BeforeLock(CheckLockTrigger(db.columns), db, 0) == CheckLegacy(db.columns)
    ensures BeforeLock(CheckLegacy(db.columns), db, 0) == SnapAll(db.columns)
  {
    hide NoLegacyViolation, Select, LegacyTable;
    LegacyRowsPassTheGate(db);
  }

  function Evident(db: Db): Evidence
    requires db.tableExists
  {
    Evidence(db.columns, Read(Select(db, db.columns, false).value, 0), Read(Select(db, db.columns, true).value, 0),
             Read(TotalsOf(db).value, 0))
  }

  lemma ReadSteps(db: Db)
    requires db.tableExists
    ensures var e := Evident(db);
            && EvidenceHolds(e, db)
            && BeforeLock(SnapAll(db.columns), db, 0) == SnapVoided(db.columns, e.all)
            && BeforeLock(SnapVoided(db.columns, e.all), db, 0) == SnapTotals(db.columns, e.all, e.voided)
            && BeforeLock(SnapTotals(db.columns, e.all, e.voided), db, 0) == LockTable(e)
  {
    hide SortedInts, ImageOf, Sum;
  }

  lemma ReadsEvidence(s: System, body: Body)
    requires s.runner.SnapAll? && s.runner.columns == s.db.columns && s.db.tableExists && s.history == []
    ensures var t := Run(s, body, RunnerSteps(3));
            && t.db == s.db && t.history == [] && t.writers == s.writers
            && t.runner.LockTable? && t.runner.before.columns == s.db.columns && EvidenceHolds(t.runner.before, s.db)
  {
    hide Run, Step, BeforeLock, EvidenceHolds;
    ReadSteps(s.db);
    var columns, e := s.db.columns, Evident(s.db);
    Advance(s, body, 3, SnapVoided(columns, e.all));
    Advance(s.(runner := SnapVoided(columns, e.all)), body, 2, SnapTotals(columns, e.all, e.voided));
    Advance(s.(runner := SnapTotals(columns, e.all, e.voided)), body, 1, LockTable(e));
    RunNone(s.(runner := LockTable(e)), body);
  }

  lemma Advance(s: System, body: Body, n: nat, r: Runner)
    requires n > 0 && !s.runner.Locked? && !s.runner.LockTable?
    requires BeforeLock(s.runner, s.db, |s.history|) == r
    ensures Run(s, body, RunnerSteps(n)) == Run(s.(runner := r), body, RunnerSteps(n - 1))
  {
    hide Run, BeforeLock;
    RunnerStepsFromFront(s, body, n);
  }

  lemma RunNone(s: System, body: Body)
    ensures Run(s, body, RunnerSteps(0)) == s
  {
    assert RunnerSteps(0) == [];
  }

  // A body that does not keep the evidence can undo every write of the gap behind a commit that
  // passes every gate: whatever the pristine database and whatever was written in the gap, some
  // body commits the migrated form of the database as it was before the gap.
  lemma GapWritesCanBeErased(db: Db, gap: seq<WriterOp>) returns (body: Body, events: seq<Event>)
    requires Pristine(db)
    ensures var s := Run(System(db, [], {}, ProbeTable), body, events);
            && NoFaults(events)
            && s.history == gap
            && WasInstalled(s)
            && Some(s.db) == Migrated(db, Shipped)
            && SameLegacy(s.db, db, db.columns)
  {
    ShippedMigrates(db);
    ShippedPreserves(db.columns);
    MigratedPreserves(db, Shipped, db.columns);
    var target := Migrated(db, Shipped).value;
    body := (_: Db) => Some(target);
    PristineSurvivesWriters(db, gap);
    assert Migrated(ApplyAll(db, gap), body) == Some(target);
    events := GapRun(db, gap, body);
    var s0 := System(db, [], {}, ProbeTable);
    var e := Run(s0, body, events).runner.outcome.before;
    ShippedSucceedsIffEvidenceHolds(db, e);
    SameResultSucceeds(ApplyAll(db, gap), body, db, e);
    CommittedAtLock(s0, body, events);
  }

  // Without writes after the lock, an installed system holds the migrated table itself.
  lemma CommittedAtLock(s0: System, body: Body, events: seq<Event>)
    requires Initial(s0)
    ensures var s := Run(s0, body, events);
            WasInstalled(s) && s.runner.outcome.lockAt == |s.history|
            ==> Some(s.db) == Migrated(ApplyAll(s0.db, s.history), body)
  {
    RunKeepsInv(s0, body, events);
    var s := Run(s0, body, events);
    hide Run, EvidenceRead, Succeeds, Migrated;
    assert s.history[|s.history|..] == [];
    assert s.history[..|s.history|] == s.history;
  }

  lemma SameResultSucceeds(a: Db, body: Body, b: Db, e: Evidence)
    requires Migrated(a, body) == Migrated(b, Shipped) && Succeeds(b, e, Shipped)
    ensures Succeeds(a, e, body)
  {
    hide Migrated, EvidenceHolds, Verified;
  }
}
