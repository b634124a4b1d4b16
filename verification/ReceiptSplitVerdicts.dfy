// Where the runs of 0096 end, decided by the fields of the database they start from and by the
// receipts other sessions write meanwhile.
module ReceiptSplitVerdicts {
  import opened Options
  import opened CollectionTable
  import opened ReceiptSplitMigration
  import opened ReceiptSplitSafety
  import opened ReceiptSplitGates

  // ----- What the committed table was like at some moment of the run -----

  ghost predicate At(db0: Db, history: seq<WriterOp>, n: nat, db: Db) {
    n <= |history| && db == ApplyAll(db0, history[..n])
  }

  ghost predicate OnceLegal(db0: Db, history: seq<WriterOp>, legal: bool) {
    exists n: nat, db :: At(db0, history, n, db) && AllLegal(db) == legal
  }

  ghost predicate OnceSettled(db0: Db, history: seq<WriterOp>, settled: bool) {
    exists n: nat, db :: At(db0, history, n, db) && AllSettled(db) == settled
  }

  ghost predicate OnceReconciled(db0: Db, history: seq<WriterOp>, reconciled: bool, count: nat) {
    exists n: nat, db :: At(db0, history, n, db) && Reconciles(db) == reconciled && |db.rows| == count
  }

  ghost predicate OnceShown(db0: Db, history: seq<WriterOp>, shown: bool, count: nat) {
    exists n: nat, db :: At(db0, history, n, db) && Shows(db, count) == shown
  }

  ghost predicate CountedAndShown(db0: Db, history: seq<WriterOp>, shown: bool) {
    exists count: nat :: OnceReconciled(db0, history, true, count) && OnceShown(db0, history, shown, count)
  }

  // What was once so stays once so.
  lemma Later(db0: Db, history: seq<WriterOp>, ops: seq<WriterOp>)
    ensures forall n: nat, db :: At(db0, history, n, db) ==> At(db0, history + ops, n, db)
  {
    forall n: nat, db | At(db0, history, n, db) ensures At(db0, history + ops, n, db) {
      assert (history + ops)[..n] == history[..n];
    }
  }

  lemma OnceIsForGood(db0: Db, history: seq<WriterOp>, ops: seq<WriterOp>)
    ensures forall b :: OnceLegal(db0, history, b) ==> OnceLegal(db0, history + ops, b)
    ensures forall b :: OnceSettled(db0, history, b) ==> OnceSettled(db0, history + ops, b)
    ensures forall b, k: nat :: OnceReconciled(db0, history, b, k) ==> OnceReconciled(db0, history + ops, b, k)
    ensures forall b, k: nat :: OnceShown(db0, history, b, k) ==> OnceShown(db0, history + ops, b, k)
    ensures forall b :: CountedAndShown(db0, history, b) ==> CountedAndShown(db0, history + ops, b)
  {
    hide At, AllLegal, AllSettled, Reconciles, Shows;
    Later(db0, history, ops);
  }

  lemma Now(db0: Db, history: seq<WriterOp>)
    ensures var db := ApplyAll(db0, history);
            && OnceLegal(db0, history, AllLegal(db)) && OnceSettled(db0, history, AllSettled(db))
            && OnceReconciled(db0, history, Reconciles(db), |db.rows|)
            && forall k: nat :: OnceShown(db0, history, Shows(db, k), k)
  {
    hide AllLegal, AllSettled, Reconciles, Shows;
    assert history[..|history|] == history;
    assert At(db0, history, |history|, ApplyAll(db0, history));
  }

  // ----- The track of a run -----

  // The objects the verification has found by its check-th query.
  ghost predicate FoundObjects(db: Db, check: nat) {
    && db.view.Some? && (check > 1 ==> NewColumns(db.columns)) && (check > 2 ==> Constraints(db.constraints))
    && (check > 3 ==> db.lockTrigger == Some('O')) && (check > 4 ==> db.normalizeTrigger == Some('O'))
  }

  ghost predicate FoundRows(db0: Db, history: seq<WriterOp>, check: nat, counted: nat) {
    && (check > 5 ==> OnceSettled(db0, history, true))
    && (check > 6 ==> OnceReconciled(db0, history, true, counted))
    && (check > 7 ==> CountedAndShown(db0, history, true))
  }

  ghost predicate Verifies(db0: Db, history: seq<WriterOp>) {
    Objects(db0) && OnceSettled(db0, history, true) && CountedAndShown(db0, history, true)
  }

  ghost predicate FailsToVerify(db0: Db, history: seq<WriterOp>) {
    || !Objects(db0) || OnceSettled(db0, history, false)
    || (exists count: nat :: OnceReconciled(db0, history, false, count)) || CountedAndShown(db0, history, false)
  }

  // The gates that ask for the schema alone.
  ghost predicate Untouched(db: Db) {
    db.tableExists && db.view.None? && NoNewColumn(db.columns) && db.lockTrigger == Some('O')
  }

  ghost predicate OnTrack(db0: Db, history: seq<WriterOp>, r: Runner, faulty: bool) {
    match r
    case ProbeTable => true
    case ProbeView => db0.tableExists
    case ProbeColumns(viewSeen) => db0.tableExists && viewSeen == db0.view.Some?
    case VerifyExisting(check, counted) =>
      db0.tableExists && check <= 8 && db0.view.Some? && FoundObjects(db0, check) && FoundRows(db0, history, check, counted)
    case CheckLockTrigger(_) => db0.tableExists && db0.view.None? && NoNewColumn(db0.columns)
    case CheckLegacy(_) => Untouched(db0)
    case Finished(AlreadyInstalled) => db0.tableExists && Verifies(db0, history)
    case Finished(Refused) =>
      || !db0.tableExists
      || (db0.view.Some? && FailsToVerify(db0, history))
      || (db0.view.None? && (!Untouched(db0) || OnceLegal(db0, history, false)))
    case Finished(SqlFailed) => faulty
    case _ => Untouched(db0) && OnceLegal(db0, history, true)
  }

  // The snapshot's columns are those of the table, so no query of it can fail.
  ghost predicate AsksOnly(db: Db, r: Runner) {
    match r
    case CheckLockTrigger(columns) => columns == db.columns
    case CheckLegacy(columns) => columns == db.columns
    case SnapAll(columns) => columns == db.columns
    case SnapVoided(columns, _) => columns == db.columns
    case SnapTotals(columns, _, _) => columns == db.columns
    case _ => true
  }

  lemma WritesStayOnTrack(db0: Db, history: seq<WriterOp>, ops: seq<WriterOp>, r: Runner, faulty: bool)
    requires OnTrack(db0, history, r, faulty)
    ensures OnTrack(db0, history + ops, r, faulty)
  {
    hide OnceLegal, OnceSettled, OnceReconciled, OnceShown, CountedAndShown, Objects, FoundObjects, Untouched;
    OnceIsForGood(db0, history, ops);
  }

  lemma VerifyStaysOnTrack(db0: Db, history: seq<WriterOp>, check: nat, counted: nat, faulty: bool)
    requires OnTrack(db0, history, VerifyExisting(check, counted), faulty)
    ensures OnTrack(db0, history, BeforeLock(VerifyExisting(check, counted), ApplyAll(db0, history), |history|), faulty)
  {
    var db := ApplyAll(db0, history);
    ApplyAllKeepsSchema(db0, history);
    ChecksAre(db, None, counted);
    Now(db0, history);
    hide OnceLegal, OnceSettled, OnceReconciled, OnceShown, ApplyAll, CheckPasses, AllSettled, Reconciles, Shows, NewColumns,
         Constraints;
  }

  lemma QueriesSucceed(db: Db)
    requires db.tableExists
    ensures Select(db, db.columns, false).Some? && Select(db, db.columns, true).Some? && TotalsOf(db).Some?
  {
  }

  lemma GateStaysOnTrack(db0: Db, history: seq<WriterOp>, r: Runner, faulty: bool)
    requires OnTrack(db0, history, r, faulty) && AsksOnly(db0, r) && !r.LockTable? && !r.Locked? && !r.Finished?
    ensures OnTrack(db0, history, BeforeLock(r, ApplyAll(db0, history), |history|), faulty)
  {
    var db := ApplyAll(db0, history);
    if r.VerifyExisting? {
      hide OnTrack, BeforeLock, ApplyAll;
      VerifyStaysOnTrack(db0, history, r.check, r.counted, faulty);
    } else {
      ApplyAllKeepsSchema(db0, history);
      LegacyGate(db0, history);
      hide OnTrack, BeforeLock, ApplyAll, NoLegacyViolation, OnceLegal;
      GateOnSchema(db0, db, history, r, faulty);
    }
  }

  lemma GateOnSchema(db0: Db, db: Db, history: seq<WriterOp>, r: Runner, faulty: bool)
    requires OnTrack(db0, history, r, faulty) && AsksOnly(db0, r)
    requires !r.LockTable? && !r.Locked? && !r.Finished? && !r.VerifyExisting?
    requires db == db0.(rows := db.rows) && OnceLegal(db0, history, NoLegacyViolation(db))
    ensures OnTrack(db0, history, BeforeLock(r, db, |history|), faulty)
  {
    hide OnceLegal, OnceSettled, CountedAndShown, FailsToVerify, CheckPasses, NoLegacyViolation, Select, TotalsOf, Verifies,
         NoNewColumn;
    NoNewIff(db.columns);
    if db.tableExists { QueriesSucceed(db); }
  }

  lemma NoNewIff(columns: set<string>)
    ensures NEW_COLUMNS * columns == {} <==> NoNewColumn(columns)
  {
    if NoNewColumn(columns) {
      forall c | c in NEW_COLUMNS ensures c !in columns {}
    } else {
      var c :| c in {"applied_amount", "unallocated_amount", "allocation_state"} && c in columns;
      assert c in NEW_COLUMNS * columns;
    }
  }

  lemma LegacyGate(db0: Db, history: seq<WriterOp>)
    ensures OnceLegal(db0, history, NoLegacyViolation(ApplyAll(db0, history)))
  {
    hide OnceLegal, NoLegacyViolation, AllLegal;
    NoViolationIff(ApplyAll(db0, history));
    Now(db0, history);
  }

  lemma StepStaysOnTrack(db0: Db, s: System, body: Body, e: Event, faulty: bool)
    requires OnTrack(db0, s.history, s.runner, faulty) && Inv(db0, s, body)
    ensures OnTrack(db0, Step(s, body, e).history, Step(s, body, e).runner, faulty || e.Fault?)
  {
    hide OnTrack, BeforeLock, UnderLock, ApplyAll, Select, TotalsOf;
    match e
    case RunnerStep =>
      RunnerStaysOnTrack(db0, s, body, faulty);
    case CommitWrite(w, ops) => WritesStayOnTrack(db0, s.history, ops, s.runner, faulty);
    case Fault => FaultIsOnTrack(db0, s.history, s.runner, faulty);
    case _ =>
  }

  lemma FaultIsOnTrack(db0: Db, history: seq<WriterOp>, r: Runner, faulty: bool)
    ensures OnTrack(db0, history, Finished(SqlFailed), true)
    ensures r.Finished? && OnTrack(db0, history, r, faulty) ==> OnTrack(db0, history, r, true)
  {
  }

  lemma RunnerStaysOnTrack(db0: Db, s: System, body: Body, faulty: bool)
    requires OnTrack(db0, s.history, s.runner, faulty) && Inv(db0, s, body)
    ensures OnTrack(db0, s.history, Step(s, body, RunnerStep).runner, faulty)
  {
    hide OnTrack, BeforeLock, ApplyAll, Select, TotalsOf;
    if s.runner.Locked? || s.runner.LockTable? {
      LockedStaysOnTrack(db0, s, body, faulty);
    } else if s.runner.Finished? {
      FinishedStays(s.runner, s.db, |s.history|);
    } else {
      InvAsksOnly(db0, s, body);
      GateStaysOnTrack(db0, s.history, s.runner, faulty);
    }
  }

  lemma InvAsksOnly(db0: Db, s: System, body: Body)
    requires Inv(db0, s, body) && !s.runner.Finished?
    ensures AsksOnly(db0, s.runner) && s.db == ApplyAll(db0, s.history)
  {
    hide AllRead, VoidedRead, EvidenceRead, WorkInv;
  }

  lemma LockedStaysOnTrack(db0: Db, s: System, body: Body, faulty: bool)
    requires OnTrack(db0, s.history, s.runner, faulty) && (s.runner.Locked? || s.runner.LockTable?)
    ensures OnTrack(db0, s.history, Step(s, body, RunnerStep).runner, faulty)
  {
    hide Untouched, OnceLegal, Select, TotalsOf, CheckPasses, SetLockTrigger;
  }

  lemma {:induction false} RunStaysOnTrack(s0: System, body: Body, events: seq<Event>)
    requires Initial(s0)
    ensures OnTrack(s0.db, Run(s0, body, events).history, Run(s0, body, events).runner, !NoFaults(events))
  {
    if events != [] {
      hide Step, OnTrack, Inv;
      var before, e := events[..|events| - 1], events[|events| - 1];
      assert NoFaults(events) <==> NoFaults(before) && !e.Fault? by {
        assert events == before + [e];
        assert forall x :: x in events <==> x in before || x == e;
      }
      RunStaysOnTrack(s0, body, before);
      RunKeepsInv(s0, body, before);
      StepStaysOnTrack(s0.db, Run(s0, body, before), body, e, !NoFaults(before));
    }
  }

  // ----- The verdicts -----

  // From any database, under any interleaving: a finished fault-free run never fails, and what it
  // ends in was found in the schema it started from and in the receipts of some moment.
  lemma GatesDecide(s0: System, body: Body, events: seq<Event>)
    requires Initial(s0) && NoFaults(events) && Run(s0, body, events).runner.Finished?
    ensures var s := Run(s0, body, events);
            var o, db := s.runner.outcome, s0.db;
            && (!db.tableExists ==> o.Refused?)
            && (db.tableExists && db.view.Some? ==>
                  && (o.AlreadyInstalled? || o.Refused?)
                  && (o.AlreadyInstalled? ==> Verifies(db, s.history))
                  && (o.Refused? ==> FailsToVerify(db, s.history)))
            && (db.tableExists && db.view.None? ==>
                  && (o.Installed? || o.RolledBack? || o.Refused?)
                  && (!NoNewColumn(db.columns) || db.lockTrigger != Some('O') ==> o.Refused?)
                  && (Untouched(db) && o.Refused? ==> OnceLegal(db, s.history, false))
                  && (!o.Refused? ==> OnceLegal(db, s.history, true)))
  {
    hide Run, OnceLegal, OnceSettled, CountedAndShown, FailsToVerify;
    RunStaysOnTrack(s0, body, events);
  }

  // When no other session writes, the database alone decides: the verification of an existing view
  // passes exactly on a complete and reconciled installation, and the lock is reached exactly on an
  // untouched schema with legal receipts.
  lemma QuietVerdicts(s0: System, body: Body, events: seq<Event>)
    requires Initial(s0) && NoFaults(events) && Run(s0, body, events).runner.Finished? && Run(s0, body, events).history == []
    ensures var o, db := Run(s0, body, events).runner.outcome, s0.db;
            && (o.AlreadyInstalled? <==>
                  db.tableExists && Objects(db) && AllSettled(db) && Reconciles(db) && Shows(db, |db.rows|))
            && (o.Installed? || o.RolledBack? <==> Untouched(db) && AllLegal(db))
  {
    hide Run, AllLegal, AllSettled, Reconciles, Shows, NewColumns, Constraints;
    RunStaysOnTrack(s0, body, events);
    OnlyNow(s0.db);
  }

  lemma OnlyNow(db0: Db)
    ensures forall n: nat, db :: At(db0, [], n, db) <==> n == 0 && db == db0
  {
  }

  // Faults or not, no state past the gates is reachable when the schema is not that of a legacy
  // table with its trigger up; and then nothing but the other sessions' writes happens.
  lemma TouchedSchemaStopsTheRun(s0: System, body: Body, events: seq<Event>)
    requires Initial(s0)
    requires var db := s0.db;
             || !db.tableExists || db.view.Some? || "applied_amount" in db.columns || "unallocated_amount" in db.columns
             || "allocation_state" in db.columns || db.lockTrigger != Some('O')
    ensures var r := Run(s0, body, events).runner;
            && !r.SnapAll? && !r.SnapVoided? && !r.SnapTotals? && !r.LockTable? && !r.Locked?
            && (r.Finished? ==> !r.outcome.Installed? && !r.outcome.RolledBack?)
    ensures Run(s0, body, events).db == ApplyAll(s0.db, Run(s0, body, events).history)
  {
    hide Run, OnceLegal, Verifies, FailsToVerify;
    RunStaysOnTrack(s0, body, events);
    FailureLeavesOnlyTheWritersWork(s0, body, events);
  }

  // A receipt that is neither a pass of nothing nor a payment or advance of something, and that no
  // other session touches, stops every run in front of the lock.
  lemma IllegalReceiptStopsTheRun(s0: System, body: Body, events: seq<Event>, id: int)
    requires Initial(s0) && id in s0.db.rows && !Legal(s0.db.rows[id])
    requires forall op | op in Run(s0, body, events).history :: op.id != id
    ensures var r := Run(s0, body, events).runner;
            && !r.SnapAll? && !r.SnapVoided? && !r.SnapTotals? && !r.LockTable? && !r.Locked?
            && (r.Finished? ==> !r.outcome.Installed? && !r.outcome.RolledBack?)
  {
    hide Run, Legal, Verifies, FailsToVerify;
    var s := Run(s0, body, events);
    RunStaysOnTrack(s0, body, events);
    if OnceLegal(s0.db, s.history, true) {
      var n: nat, db :| At(s0.db, s.history, n, db) && AllLegal(db);
      assert forall op | op in s.history[..n] :: op in s.history;
      Unwritten(s0.db, s.history[..n], id);
    }
  }

  lemma {:induction false} Unwritten(db: Db, ops: seq<WriterOp>, id: int)
    requires id in db.rows && forall op | op in ops :: op.id != id
    ensures id in ApplyAll(db, ops).rows && ApplyAll(db, ops).rows[id] == db.rows[id]
  {
    if ops != [] {
      var before := ops[..|ops| - 1];
      assert forall op | op in before :: op in ops;
      assert ops[|ops| - 1] in ops;
      Unwritten(db, before, id);
    }
  }
}
