// main() of tools/apply_0096_receipt_split_migration.py over a database that other sessions
// write to between its statements. Whatever it does is a run of the step system.
module ReceiptSplitRunner {
  import opened Options
  import opened CollectionTable
  import opened ReceiptSplitMigration
  import opened ReceiptSplitSafety

  // What happens just before one statement of the runner: events of other sessions, and
  // whether the statement itself then fails.
  datatype Turn = Turn(others: seq<Event>, fails: bool)

  predicate Foreign(e: Event) {
    !e.RunnerStep? && !e.Fault?
  }

  predicate OthersOnly(schedule: seq<Turn>) {
    forall t | t in schedule :: forall e | e in t.others :: Foreign(e)
  }

  class Migration {
    const body: Body
    var db: Db                      // committed
    var history: seq<WriterOp>      // committed by other sessions
    var writers: set<nat>           // holding the table for writing
    var lockHeld: bool              // ACCESS EXCLUSIVE, by the runner
    var schedule: seq<Turn>
    ghost const start: System
    ghost var trace: seq<Event>
    ghost var at: Runner

    ghost function State(): System
      reads this
    {
      System(db, history, writers, at)
    }

    ghost predicate Valid()
      reads this
    {
      && Initial(start)
      && State() == Run(start, body, trace)
      && OthersOnly(schedule)
      && lockHeld == at.Locked?
    }

    constructor (body: Body, db: Db, writers: set<nat>, schedule: seq<Turn>)
      requires OthersOnly(schedule)
      ensures Valid() && at == ProbeTable && this.body == body
      ensures start == System(db, [], writers, ProbeTable)
    {
      this.body, this.db, this.history, this.writers, this.lockHeld := body, db, [], writers, false;
      this.schedule := schedule;
      start, trace, at := System(db, [], writers, ProbeTable), [], ProbeTable;
    }

    // One more event of the run.
    ghost method Record(before: System, e: Event)
      requires Initial(start) && OthersOnly(schedule) && lockHeld == at.Locked?
      requires before == Run(start, body, trace) && State() == Step(before, body, e)
      modifies `trace
      ensures Valid()
    {
      trace := trace + [e];
      assert trace[..|trace| - 1] == old(trace);
    }

    method OtherSession(e: Event)
      requires Valid() && Foreign(e)
      modifies `db, `history, `writers, `trace
      ensures Valid() && State() == Step(old(State()), body, e)
    {
      ghost var before := State();
      match e {
        case Begin(w) =>
          if !lockHeld { writers := writers + {w}; }
        case CommitWrite(w, ops) =>
          if w in writers { db, history, writers := ApplyAll(db, ops), history + ops, writers - {w}; }
        case Rollback(w) => writers := writers - {w};
      }
      Record(before, e);
    }

    // Let the other sessions run; then the runner's next statement fails or not.
    method NextTurn() returns (fails: bool)
      requires Valid()
      modifies `db, `history, `writers, `trace, `schedule
      ensures Valid()
      ensures if old(schedule) == [] then schedule == [] && !fails else schedule == old(schedule)[1..]
    {
      if schedule == [] { return false; }
      var turn := schedule[0];
      assert turn in schedule;
      schedule := schedule[1..];
      for i := 0 to |turn.others|
        invariant Valid() && schedule == old(schedule)[1..]
      {
        assert turn.others[i] in turn.others;
        OtherSession(turn.others[i]);
      }
      return turn.fails;
    }

    method Fail() returns (outcome: Outcome)
      requires Valid() && !at.Finished?
      modifies `trace, `at, `lockHeld
      ensures Valid() && at == Finished(outcome) && outcome == SqlFailed
    {
      ghost var before := State();
      outcome, lockHeld := SqlFailed, false;
      at := Finished(outcome);
      Record(before, Fault);
    }

    // A statement in front of the lock was executed: it read the committed database.
    ghost method Executed()
      requires Valid() && !lockHeld && !at.LockTable?
      modifies `trace, `at
      ensures Valid() && at == BeforeLock(old(at), db, |history|)
    {
      ghost var before := State();
      at := BeforeLock(at, db, |history|);
      assert !at.Locked?;
      Record(before, RunnerStep);
    }

    // A statement under the lock was executed: it worked on the transaction's own copy.
    ghost method ExecutedUnderLock()
      requires Valid() && lockHeld && at.Locked? && !at.next.Commit? && UnderLock(at, body).Locked?
      modifies `trace, `at
      ensures Valid() && at == UnderLock(old(at), body)
    {
      ghost var before := State();
      at := UnderLock(at, body);
      Record(before, RunnerStep);
    }

    method RollBackTransaction(before: Evidence, lockTime: nat) returns (outcome: Outcome)
      requires Valid() && lockHeld && at.Locked? && !at.next.Commit?
      requires at.before == before && at.lockAt == lockTime
      requires UnderLock(at, body) == Finished(RolledBack(before, lockTime))
      modifies `trace, `at, `lockHeld
      ensures Valid() && at == Finished(outcome)
    {
      hide UnderLock, Run;
      ghost var state := State();
      outcome, lockHeld := RolledBack(before, lockTime), false;
      at := Finished(outcome);
      Record(state, RunnerStep);
    }

    // _verify_installed; in front of the lock it reads the committed database, under the lock
    // the transaction's copy `work`.
    method VerifyExisting() returns (outcome: Outcome)
      requires Valid() && !lockHeld && at == ProbeColumns(true)
      modifies this
      ensures Valid() && at == Finished(outcome)
    {
      Executed();
      var check, counted: nat := 0, 0;
      while check < CHECKS
        invariant Valid() && !lockHeld && at == ReceiptSplitMigration.VerifyExisting(check, counted)
      {
        var fails := NextTurn();
        if fails { outcome := Fail(); return; }
        var passes := CheckPasses(db, check, None, counted);
        if passes { counted := Counted(db, check, counted); }
        Executed();
        if !passes { return Refused; }
        check := check + 1;
      }
      Executed();
      return AlreadyInstalled;
    }

    // The gates in front of the snapshots. None: they passed and the run goes on.
    method Gates() returns (columns: set<string>, outcome: Option<Outcome>)
      requires Valid() && !lockHeld && at == ProbeTable
      modifies this
      ensures Valid()
      ensures outcome.Some? ==> at == Finished(outcome.value)
      ensures outcome.None? ==> !lockHeld && at == ReceiptSplitMigration.SnapAll(columns)
    {
      hide CheckPasses, Run;
      columns := {};
      var fails := NextTurn();
      if fails { var o := Fail(); return columns, Some(o); }
      var tableExists := db.tableExists;
      Executed();
      if !tableExists { return columns, Some(Refused); }

      fails := NextTurn();
      if fails { var o := Fail(); return columns, Some(o); }
      var viewExists := db.view.Some?;
      Executed();

      fails := NextTurn();
      if fails { var o := Fail(); return columns, Some(o); }
      columns := db.columns;
      if viewExists {
        var o := VerifyExisting();
        return columns, Some(o);
      }
      Executed();
      if NEW_COLUMNS * columns != {} { return columns, Some(Refused); }
      outcome := LegacyGates(columns);
    }

    method LegacyGates(columns: set<string>) returns (outcome: Option<Outcome>)
      requires Valid() && !lockHeld && at == CheckLockTrigger(columns)
      modifies this
      ensures Valid()
      ensures outcome.Some? ==> at == Finished(outcome.value)
      ensures outcome.None? ==> !lockHeld && at == ReceiptSplitMigration.SnapAll(columns)
    {
      hide CheckPasses, NoLegacyViolation, Run;
      var fails := NextTurn();
      if fails { var o := Fail(); return Some(o); }
      var enabled := db.lockTrigger == Some(ENABLED);
      Executed();
      if !enabled { return Some(Refused); }

      fails := NextTurn();
      if fails { var o := Fail(); return Some(o); }
      var legal := NoLegacyViolation(db);
      Executed();
      if !legal { return Some(Refused); }
      return None;
    }

    // The three reads of the evidence.
    method ReadEvidence(columns: set<string>) returns (before: Option<Evidence>)
      requires Valid() && !lockHeld && at == SnapAll(columns)
      modifies this
      ensures Valid()
      ensures before.None? ==> at == Finished(SqlFailed)
      ensures before.Some? ==> !lockHeld && at == ReceiptSplitMigration.LockTable(before.value)
    {
      hide Select, TotalsOf, Run;
      var fails := NextTurn();
      if fails { var _ := Fail(); return None; }
      var all, allAt := Select(db, columns, false), |history|;
      Executed();
      if all.None? { return None; }

      fails := NextTurn();
      if fails { var _ := Fail(); return None; }
      var voided, voidedAt := Select(db, columns, true), |history|;
      Executed();
      if voided.None? { return None; }

      fails := NextTurn();
      if fails { var _ := Fail(); return None; }
      var totals, totalsAt := TotalsOf(db), |history|;
      Executed();
      if totals.None? { return None; }
      return Some(Evidence(columns, Read(all.value, allAt), Read(voided.value, voidedAt), Read(totals.value, totalsAt)));
    }

    // Wait for the lock; when no other session would ever let go of the table, the statement
    // is cancelled.
    method LockTable(before: Evidence) returns (work: Db, lockTime: nat, granted: bool)
      requires Valid() && !lockHeld && at == ReceiptSplitMigration.LockTable(before)
      modifies this
      ensures Valid()
      ensures granted ==> lockHeld && at == Locked(before, lockTime, work, SuspendTrigger)
      ensures !granted ==> at == Finished(SqlFailed)
    {
      work, lockTime, granted := db, 0, false;
      var fails := NextTurn();
      if fails { var _ := Fail(); return; }
      while writers != {}
        invariant Valid() && !lockHeld && at == ReceiptSplitMigration.LockTable(before) && !granted
        decreases |schedule|
      {
        if schedule == [] { var _ := Fail(); return; }
        fails := NextTurn();
        if fails { var _ := Fail(); return; }
      }
      ghost var state := State();
      work, lockTime, granted, lockHeld := db, |history|, true, true;
      at := Locked(before, lockTime, work, SuspendTrigger);
      Record(state, RunnerStep);
    }

    // Suspend the trigger, run the body, restore the trigger.
    method Migrate(before: Evidence, lockTime: nat, table: Db) returns (work: Db, outcome: Option<Outcome>)
      requires Valid() && lockHeld && at == Locked(before, lockTime, table, SuspendTrigger)
      modifies this
      ensures Valid()
      ensures outcome.Some? ==> at == Finished(outcome.value)
      ensures outcome.None? ==> lockHeld && at == Locked(before, lockTime, work, ReSnapAll)
    {
      hide Run;
      work := table;
      var fails := NextTurn();
      if fails { var o := Fail(); return work, Some(o); }
      var result := SetLockTrigger(work, SUSPENDED);
      if result.None? { var o := RollBackTransaction(before, lockTime); return work, Some(o); }
      ExecutedUnderLock();
      work := result.value;

      fails := NextTurn();
      if fails { var o := Fail(); return work, Some(o); }
      result := body(work);
      if result.None? { var o := RollBackTransaction(before, lockTime); return work, Some(o); }
      ExecutedUnderLock();
      work := result.value;

      fails := NextTurn();
      if fails { var o := Fail(); return work, Some(o); }
      result := SetLockTrigger(work, ENABLED);
      if result.None? { var o := RollBackTransaction(before, lockTime); return work, Some(o); }
      ExecutedUnderLock();
      work := result.value;

      fails := NextTurn();
      if fails { var o := Fail(); return work, Some(o); }
      if work.lockTrigger != Some(ENABLED) {
        assert false;  // ENABLE TRIGGER fails or enables
      }
      ExecutedUnderLock();
      return work, None;
    }

    // Read the evidence again and compare it with what was read before the lock.
    method CompareEvidence(before: Evidence, lockTime: nat, work: Db) returns (outcome: Option<Outcome>)
      requires Valid() && lockHeld && at == Locked(before, lockTime, work, ReSnapAll)
      modifies this
      ensures Valid()
      ensures outcome.Some? ==> at == Finished(outcome.value)
      ensures outcome.None? ==> lockHeld && at == Locked(before, lockTime, work, ReceiptSplitMigration.Verify(0, 0))
    {
      hide Select, TotalsOf, Run;
      var fails := NextTurn();
      if fails { var o := Fail(); return Some(o); }
      var all := Select(work, before.columns, false);
      if all.None? { var o := RollBackTransaction(before, lockTime); return Some(o); }
      ExecutedUnderLock();

      fails := NextTurn();
      if fails { var o := Fail(); return Some(o); }
      var voided := Select(work, before.columns, true);
      if voided.None? { var o := RollBackTransaction(before, lockTime); return Some(o); }
      ExecutedUnderLock();

      fails := NextTurn();
      if fails { var o := Fail(); return Some(o); }
      var totals := TotalsOf(work);
      if totals.None? { var o := RollBackTransaction(before, lockTime); return Some(o); }
      ExecutedUnderLock();

      if all.value != before.all.value || voided.value != before.voided.value || totals.value != before.totals.value {
        var o := RollBackTransaction(before, lockTime);
        return Some(o);
      }
      ExecutedUnderLock();
      return None;
    }

    // _verify_installed on the transaction's copy, then the commit of the connection block.
    method VerifyAndCommit(before: Evidence, lockTime: nat, work: Db) returns (outcome: Outcome)
      requires Valid() && lockHeld && at == Locked(before, lockTime, work, ReceiptSplitMigration.Verify(0, 0))
      modifies this
      ensures Valid() && at == Finished(outcome)
    {
      hide CheckPasses, Run;
      var check, counted: nat := 0, 0;
      while check < CHECKS
        invariant Valid() && lockHeld && at == Locked(before, lockTime, work, ReceiptSplitMigration.Verify(check, counted))
      {
        var fails := NextTurn();
        if fails { outcome := Fail(); return; }
        if !CheckPasses(work, check, Some(before.totals.value.count), counted) {
          outcome := RollBackTransaction(before, lockTime);
          return;
        }
        ExecutedUnderLock();
        counted := Counted(work, check, counted);
        check := check + 1;
      }
      ExecutedUnderLock();

      var fails := NextTurn();
      if fails { outcome := Fail(); return; }
      ghost var state := State();
      outcome := Installed(before, lockTime, work);
      db, lockHeld := work, false;
      at := Finished(outcome);
      Record(state, RunnerStep);
    }

    // The run ends in a state of the step system, and nothing but a commit has changed what
    // the other sessions made of the database.
    method RunMigration() returns (outcome: Outcome)
      requires Valid() && at == ProbeTable
      modifies this
      ensures Valid() && at == Finished(outcome)
      ensures !outcome.Installed? ==> db == ApplyAll(start.db, history)
      ensures db.lockTrigger == start.db.lockTrigger
    {
      outcome := RunStatements();
      FailureLeavesOnlyTheWritersWork(start, body, trace);
      TriggerStaysUp(start, body, trace);
    }

    method RunStatements() returns (outcome: Outcome)
      requires Valid() && at == ProbeTable
      modifies this
      ensures Valid() && at == Finished(outcome)
    {
      hide Run, BeforeLock, UnderLock;
      var columns, early := Gates();
      if early.Some? { return early.value; }
      var before := ReadEvidence(columns);
      if before.None? { return SqlFailed; }
      var table, lockTime, granted := LockTable(before.value);
      if !granted { return SqlFailed; }
      var work, failed := Migrate(before.value, lockTime, table);
      if failed.Some? { return failed.value; }
      failed := CompareEvidence(before.value, lockTime, work);
      if failed.Some? { return failed.value; }
      outcome := VerifyAndCommit(before.value, lockTime, work);
    }
  }
}
