// What every run of the receipt-split migration guarantees.
module ReceiptSplitSafety {
  import opened Options
  import opened Listing
  import opened CollectionTable
  import opened ReceiptSplitMigration

  predicate WasInstalled(s: System) {
    s.runner.Finished? && s.runner.outcome.Installed?
  }

  // Whatever fails and whenever, a run that did not commit has left the database exactly as
  // the other sessions alone made it.
  lemma FailureLeavesOnlyTheWritersWork(s0: System, body: Body, events: seq<Event>)
    requires Initial(s0)
    ensures var s := Run(s0, body, events);
            !WasInstalled(s) ==> s.db == ApplyAll(s0.db, s.history)
  {
    RunKeepsInv(s0, body, events);
  }

  // A database that already has the view is never written to, whatever the verification says.
  lemma RerunWritesNothing(s0: System, body: Body, events: seq<Event>)
    requires Initial(s0) && s0.db.view.Some?
    ensures var s := Run(s0, body, events);
            !WasInstalled(s) && s.db == ApplyAll(s0.db, s.history)
  {
    hide Run, EvidenceRead, Succeeds, Migrated, Alone, ApplyAll, WorkInv, AllRead, VoidedRead;
    RunKeepsInv(s0, body, events);
  }

  // The immutability trigger, which the transaction disables half-way, is never seen disabled
  // in a committed state, and is enabled whenever a migration was committed.
  lemma TriggerStaysUp(s0: System, body: Body, events: seq<Event>)
    requires Initial(s0)
    ensures var s := Run(s0, body, events);
            && s.db.lockTrigger == s0.db.lockTrigger
            && (WasInstalled(s) ==> s.db.lockTrigger == Some(ENABLED))
  {
    RunKeepsInv(s0, body, events);
    var s := Run(s0, body, events);
    hide Run, EvidenceHolds, Verified, EvidenceRead, CheckPasses;
    if WasInstalled(s) {
      var o := s.runner.outcome;
      ApplyAllKeepsSchema(o.db, s.history[o.lockAt..]);
    } else {
      ApplyAllKeepsSchema(s0.db, s.history);
    }
  }

  // For any body at all: a committed table shows, in the legacy columns, exactly what was read
  // before the lock. The three reads may have seen three different tables, but a commit means
  // that they agree with one: the table of the first read.
  lemma CommitProvesEvidence(s0: System, body: Body, events: seq<Event>)
    requires Initial(s0)
    ensures var s := Run(s0, body, events);
            WasInstalled(s) ==>
              var o := s.runner.outcome;
              && o.before.columns == s0.db.columns
              && o.before.all.at <= o.before.voided.at <= o.before.totals.at <= o.lockAt <= |s.history|
              && SameLegacy(o.db, Alone(s0.db, s.history, o.before.all.at), s0.db.columns)
              && EvidenceHolds(o.before, Alone(s0.db, s.history, o.before.all.at))
              && s.db == ApplyAll(o.db, s.history[o.lockAt..])
  {
    hide Run, Alone, SameLegacy, EvidenceHolds, EvidenceRead, ApplyAll;
    InstalledOnEvidence(s0, body, events);
    var s := Run(s0, body, events);
    if WasInstalled(s) { EvidencePins(s0.db, s.history, s.runner.outcome.before, s.runner.outcome.db); }
  }

  lemma InstalledOnEvidence(s0: System, body: Body, events: seq<Event>)
    requires Initial(s0)
    ensures var s := Run(s0, body, events);
            WasInstalled(s) ==>
              var o := s.runner.outcome;
              && o.before.columns == s0.db.columns && o.before.all.at <= o.before.voided.at <= o.before.totals.at <= o.lockAt
              && o.lockAt <= |s.history| && EvidenceRead(s0.db, s.history, o.before) && EvidenceHolds(o.before, o.db)
              && s.db == ApplyAll(o.db, s.history[o.lockAt..])
  {
    hide Run, Select, TotalsOf, Migrated, Verified, Alone, EvidenceHolds, ApplyAll, WorkInv, AllRead, VoidedRead, TotalsRead;
    RunKeepsInv(s0, body, events);
  }

  // Evidence that holds of `db` pins its legacy contents to those of the first read.
  lemma EvidencePins(db0: Db, history: seq<WriterOp>, e: Evidence, db: Db)
    requires EvidenceRead(db0, history, e) && EvidenceHolds(e, db)
    ensures SameLegacy(db, Alone(db0, history, e.all.at), e.columns)
    ensures EvidenceHolds(e, Alone(db0, history, e.all.at))
  {
    hide SameLegacy, Alone;
    var first := Alone(db0, history, e.all.at);
    AllReadPins(first, db, e);
    ImagesDetermineEvidence(first, db, e.columns);
    SameLegacySym(first, db, e.columns);
  }

  lemma AllReadPins(first: Db, db: Db, e: Evidence)
    requires Select(first, e.columns, false) == Some(e.all.value) && EvidenceHolds(e, db)
    ensures SameLegacy(first, db, e.columns) && SameLegacy(db, first, e.columns)
    ensures first.tableExists && db.tableExists && e.columns <= first.columns && e.columns <= db.columns
  {
    hide SameLegacy;
    SnapshotIsFaithful(first, db, e.columns);
    SnapshotIsFaithful(db, first, e.columns);
  }

  // The order of 0096, evidence before lock, decides what a commit says about the table that
  // was locked: for any body, the committed legacy contents are those of the locked table if
  // and only if the writes in the gap between first read and lock left no trace in them.
  lemma GapDecidesWhetherReceiptsSurvive(s0: System, body: Body, events: seq<Event>)
    requires Initial(s0)
    ensures var s := Run(s0, body, events);
            WasInstalled(s) ==>
              var o, columns := s.runner.outcome, s0.db.columns;
              && o.before.all.at <= o.lockAt <= |s.history|
              && (SameLegacy(o.db, Alone(s0.db, s.history, o.lockAt), columns)
                  <==> SameLegacy(Alone(s0.db, s.history, o.before.all.at), Alone(s0.db, s.history, o.lockAt), columns))
  {
    hide SameLegacy, Run, Alone, EvidenceHolds, ApplyAll;
    CommitProvesEvidence(s0, body, events);
    var s := Run(s0, body, events);
    if WasInstalled(s) {
      var o, columns := s.runner.outcome, s0.db.columns;
      var first, locked := Alone(s0.db, s.history, o.before.all.at), Alone(s0.db, s.history, o.lockAt);
      if SameLegacy(o.db, locked, columns) {
        SameLegacySym(o.db, first, columns);
        SameLegacyTrans(first, o.db, locked, columns);
      }
      if SameLegacy(first, locked, columns) { SameLegacyTrans(o.db, first, locked, columns); }
    }
  }

  // ----- Bodies that leave the legacy columns alone -----

  // Whether the body's SQL succeeds or not, it changes no legacy cell and no receipt.
  ghost predicate Preserves(body: Body, columns: set<string>) {
    forall db: Db | body(db).Some? :: SameLegacy(body(db).value, db, columns)
  }

  // With such a body the migration is invisible in the legacy columns: in every reachable
  // state, before, during and after the commit, the committed table agrees with the table the
  // writers alone would have made. No receipt of any interleaving is lost or altered.
  lemma NoReceiptIsLost(s0: System, body: Body, events: seq<Event>)
    requires Initial(s0) && Preserves(body, s0.db.columns)
    ensures var s := Run(s0, body, events);
            SameLegacy(s.db, ApplyAll(s0.db, s.history), s0.db.columns)
  {
    hide Preserves, SameLegacy, Run, Alone, ApplyAll, Migrated;
    InstalledTable(s0, body, events);
    var s := Run(s0, body, events);
    if WasInstalled(s) {
      InstalledAgrees(s0.db, s.history, s.runner.outcome.lockAt, body, s.runner.outcome.db);
    } else {
      SameLegacyRefl(s.db, s0.db.columns);
    }
  }

  // The committed table: the writers' own, or the migrated one with the later writes on top.
  lemma InstalledTable(s0: System, body: Body, events: seq<Event>)
    requires Initial(s0)
    ensures var s := Run(s0, body, events);
            if WasInstalled(s) then
              var o := s.runner.outcome;
              && o.lockAt <= |s.history| && Migrated(Alone(s0.db, s.history, o.lockAt), body) == Some(o.db)
              && s.db == ApplyAll(o.db, s.history[o.lockAt..])
              && s0.db.lockTrigger == Some(ENABLED)
            else s.db == ApplyAll(s0.db, s.history)
  {
    hide Run, EvidenceRead, Succeeds, Migrated, Alone, ApplyAll, Admitted, WorkInv, AllRead, VoidedRead;
    RunKeepsInv(s0, body, events);
  }

  lemma InstalledAgrees(db0: Db, history: seq<WriterOp>, lockAt: nat, body: Body, installed: Db)
    requires lockAt <= |history| && Preserves(body, db0.columns) && db0.lockTrigger == Some(ENABLED)
    requires Migrated(Alone(db0, history, lockAt), body) == Some(installed)
    ensures SameLegacy(ApplyAll(installed, history[lockAt..]), ApplyAll(db0, history), db0.columns)
  {
    hide Preserves, SameLegacy, ApplyAll, Migrated;
    var locked := Alone(db0, history, lockAt);
    ApplyAllKeepsSchema(db0, history[..lockAt]);
    MigratedPreserves(locked, body, db0.columns);
    ApplyAllKeepsAgreement(installed, locked, history[lockAt..], db0.columns);
    ApplyAllConcat(db0, history[..lockAt], history[lockAt..]);
    assert history == history[..lockAt] + history[lockAt..];
  }

  lemma MigratedPreserves(db: Db, body: Body, columns: set<string>)
    requires Preserves(body, columns) && Migrated(db, body).Some?
    ensures SameLegacy(Migrated(db, body).value, db, columns)
    ensures Migrated(db, body).value.lockTrigger == Some(ENABLED)
  {
    hide SameCells;
    var suspended := SetLockTrigger(db, SUSPENDED).value;
    assert suspended.rows == db.rows;
    assert SameLegacy(body(suspended).value, suspended, columns);
  }

  // ----- Voided receipts -----

  ghost predicate NoDeletes(ops: seq<WriterOp>) {
    forall op | op in ops :: op.Put?
  }

  // `db` still has every voided receipt of `db0`, unchanged in its columns.
  ghost predicate KeepsVoided(db0: Db, db: Db) {
    forall id | id in db0.rows && db0.rows[id].voided :: id in db.rows && SameCells(db.rows[id], db0.rows[id], db0.columns)
  }

  lemma {:induction false} WritersKeepVoided(db0: Db, db: Db, ops: seq<WriterOp>)
    requires NoDeletes(ops) && KeepsVoided(db0, db) && db.lockTrigger == Some(ENABLED)
    ensures KeepsVoided(db0, ApplyAll(db, ops))
  {
    if ops != [] {
      hide KeepsVoided, Apply;
      var before, op := ops[..|ops| - 1], ops[|ops| - 1];
      WritersKeepVoided(db0, db, before);
      ApplyAllKeepsSchema(db, before);
      assert op in ops;
      OneWriteKeepsVoided(db0, ApplyAll(db, before), op);
    }
  }

  lemma OneWriteKeepsVoided(db0: Db, db: Db, op: WriterOp)
    requires op.Put? && KeepsVoided(db0, db) && db.lockTrigger == Some(ENABLED)
    ensures KeepsVoided(db0, Apply(db, op))
  {
    hide SameCells;
    if op.id in db0.rows && db0.rows[op.id].voided { CellsHaveAmount(db.rows[op.id], db0.rows[op.id], db0.columns); }
  }

  // For any body, however hostile: a receipt that was voided when the run began keeps its
  // legacy contents in every committed state, as long as other sessions do not delete it.
  lemma VoidedReceiptsOutliveAnyBody(s0: System, body: Body, events: seq<Event>)
    requires Initial(s0) && s0.db.lockTrigger == Some(ENABLED) && NoDeletes(Run(s0, body, events).history)
    ensures KeepsVoided(s0.db, Run(s0, body, events).db)
  {
    RunKeepsInv(s0, body, events);
    var s := Run(s0, body, events);
    hide Run, Verified, CheckPasses, TotalsOf;
    if WasInstalled(s) {
      var o := s.runner.outcome;
      assert Migrated(Alone(s0.db, s.history, o.lockAt), body) == Some(o.db);
      assert o.db.lockTrigger == Some(ENABLED);
      assert forall op | op in s.history[..o.before.voided.at] :: op in s.history;
      WritersKeepVoided(s0.db, s0.db, s.history[..o.before.voided.at]);
      VoidedEvidenceCarries(s0.db, Alone(s0.db, s.history, o.before.voided.at), o.db, o.before.voided.value);
      assert forall op | op in s.history[o.lockAt..] :: op in s.history;
      WritersKeepVoided(s0.db, o.db, s.history[o.lockAt..]);
    } else {
      WritersKeepVoided(s0.db, s0.db, s.history);
    }
  }

  lemma VoidedEvidenceCarries(db0: Db, a: Db, b: Db, images: seq<Image>)
    requires KeepsVoided(db0, a)
    requires Select(a, db0.columns, true) == Some(images) == Select(b, db0.columns, true)
    ensures KeepsVoided(db0, b)
  {
    SnapshotCovers(a, db0.columns, true, images);
    SnapshotCovers(b, db0.columns, true, images);
    hide Select, SameCells, ImageOf;
    forall id | id in db0.rows && db0.rows[id].voided ensures id in b.rows && SameCells(b.rows[id], db0.rows[id], db0.columns) {
      CellsHaveAmount(a.rows[id], db0.rows[id], db0.columns);
      assert id in Selected(a, true);
      ImageHasId(id, a.rows[id], db0.columns);
      assert ImageOf(id, a.rows[id], db0.columns) in images;
      ImagesShowTheCells(id, a.rows[id], b.rows[id], db0.columns);
      SameCellsTrans(b.rows[id], a.rows[id], db0.rows[id], db0.columns);
    }
  }

  lemma SameCellsTrans(r: Row, t: Row, u: Row, columns: set<string>)
    requires (SameCells(r, t, columns) || SameCells(t, r, columns)) && SameCells(t, u, columns)
    ensures SameCells(r, u, columns)
  {
  }

  // ----- When the migration goes through -----

  ghost predicate NoFaults(events: seq<Event>) {
    forall e | e in events :: !e.Fault?
  }

  // A database the gates in front of the lock let pass, whatever legal receipts it holds.
  ghost predicate Pristine(db: Db) {
    && db.tableExists && db.view.None? && NEW_COLUMNS * db.columns == {} && db.lockTrigger == Some(ENABLED)
    && LegacyTable(db)
  }

  predicate GatePassed(r: Runner) {
    match r
    case VerifyExisting(_, _) => false
    case ProbeColumns(viewSeen) => !viewSeen
    case Finished(o) => o.Installed? || o.RolledBack?
    case _ => true
  }

  lemma LegacyRowsPassTheGate(db: Db)
    requires LegacyTable(db)
    ensures NoLegacyViolation(db)
  {
  }

  // What the statements in front of the lock want to find.
  ghost predicate LetsPass(db: Db) {
    && db.tableExists && db.view.None? && NEW_COLUMNS * db.columns == {} && db.lockTrigger == Some(ENABLED)
    && NoLegacyViolation(db)
  }

  predicate Asks(r: Runner, columns: set<string>) {
    match r
    case CheckLockTrigger(asked) => asked == columns
    case CheckLegacy(asked) => asked == columns
    case SnapAll(asked) => asked == columns
    case SnapVoided(asked, _) => asked == columns
    case SnapTotals(asked, _, _) => asked == columns
    case _ => true
  }

  lemma GatesLetPass(db: Db, r: Runner, at: nat)
    requires LetsPass(db) && GatePassed(r) && Asks(r, db.columns) && !r.LockTable? && !r.Locked?
    ensures GatePassed(BeforeLock(r, db, at))
  {
    hide NoLegacyViolation, CheckPasses, SortedInts;
  }

  lemma PristineLetsPass(db0: Db, history: seq<WriterOp>)
    requires Pristine(db0)
    ensures LetsPass(ApplyAll(db0, history)) && ApplyAll(db0, history).columns == db0.columns
  {
    hide LegacyTable, NoLegacyViolation, ApplyAll;
    ApplyAllKeepsSchema(db0, history);
    ApplyAllKeepsLegacyTable(db0, history);
    LegacyRowsPassTheGate(ApplyAll(db0, history));
  }

  lemma FinishedStays(r: Runner, db: Db, at: nat)
    requires r.Finished?
    ensures BeforeLock(r, db, at) == r
  {
  }

  lemma PristineStepPasses(db0: Db, s: System, body: Body, e: Event)
    requires Pristine(db0) && Inv(db0, s, body) && GatePassed(s.runner) && !e.Fault?
    ensures GatePassed(Step(s, body, e).runner)
  {
    hide WorkInv, EvidenceRead, AllRead, VoidedRead, CheckPasses, Succeeds, BeforeLock, Pristine, LetsPass, ApplyAll, Select,
         TotalsOf, Migrated, SetLockTrigger;
    if e.RunnerStep? && !s.runner.Finished? && !s.runner.Locked? && !s.runner.LockTable? {
      PristineLetsPass(db0, s.history);
      GatesLetPass(s.db, s.runner, |s.history|);
    }
    if s.runner.Finished? { FinishedStays(s.runner, s.db, |s.history|); }
  }

  lemma {:induction false} PristineRunPasses(s0: System, body: Body, events: seq<Event>)
    requires Initial(s0) && Pristine(s0.db) && NoFaults(events)
    ensures GatePassed(Run(s0, body, events).runner)
  {
    if events != [] {
      hide Step, Pristine;
      var before := events[..|events| - 1];
      assert forall e | e in before :: e in events;
      PristineRunPasses(s0, body, before);
      RunKeepsInv(s0, body, before);
      PristineStepPasses(s0.db, Run(s0, body, before), body, events[|events| - 1]);
    }
  }

  // From a pristine database a run without faults, once finished, has reached the lock, and it
  // committed if and only if the migration goes through on the table it locked.
  lemma OutcomeIsDecidedUnderTheLock(s0: System, body: Body, events: seq<Event>)
    requires Initial(s0) && Pristine(s0.db) && NoFaults(events) && Run(s0, body, events).runner.Finished?
    ensures var s := Run(s0, body, events);
            var o := s.runner.outcome;
            && (o.Installed? || o.RolledBack?)
            && EvidenceRead(s0.db, s.history, o.before)
            && o.before.columns == s0.db.columns
            && o.before.totals.at <= o.lockAt <= |s.history|
            && (o.Installed? <==> Succeeds(Alone(s0.db, s.history, o.lockAt), o.before, body))
  {
    hide Run, EvidenceRead, Succeeds, Alone, Migrated, ApplyAll, Pristine, WorkInv;
    PristineRunPasses(s0, body, events);
    RunKeepsInv(s0, body, events);
  }
}
