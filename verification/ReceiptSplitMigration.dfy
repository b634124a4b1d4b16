// tools/apply_0096_receipt_split_migration.py as a step system: one step per SQL statement of
// the runner, with the transactions of other sessions and failures between any two of them.
module ReceiptSplitMigration {
  import opened Options
  import opened Listing
  import opened CollectionTable

  // A query result, with the number of writes committed by other sessions when it was read.
  datatype Read<T> = Read(value: T, at: nat)

  // The evidence read before the lock, in three statements.
  datatype Evidence = Evidence(columns: set<string>, all: Read<seq<Image>>, voided: Read<seq<Image>>,
                               totals: Read<Totals>)

  // The statement the runner executes next, with what it has read so far. From the lock on,
  // `work` is the transaction's own uncommitted copy of the database.
  datatype Runner =
    | ProbeTable
    | ProbeView
    | ProbeColumns(viewSeen: bool)
    | VerifyExisting(check: nat, counted: nat)
    | CheckLockTrigger(columns: set<string>)
    | CheckLegacy(columns: set<string>)
    | SnapAll(columns: set<string>)
    | SnapVoided(columns: set<string>, all: Read<seq<Image>>)
    | SnapTotals(columns: set<string>, all: Read<seq<Image>>, voided: Read<seq<Image>>)
    | LockTable(before: Evidence)
    | Locked(before: Evidence, lockAt: nat, work: Db, next: Statement)
    | Finished(outcome: Outcome)

  datatype Statement =
    | SuspendTrigger | RunBody | RestoreTrigger | CheckRestored
    | ReSnapAll | ReSnapVoided(afterAll: seq<Image>)
    | ReSnapTotals(afterAll: seq<Image>, afterVoided: seq<Image>)
    | Compare(afterAll: seq<Image>, afterVoided: seq<Image>, afterTotals: Totals)
    | Verify(check: nat, counted: nat)
    | Commit

  datatype Outcome =
    | Installed(before: Evidence, lockAt: nat, db: Db)
    | RolledBack(before: Evidence, lockAt: nat)   // refused or failed under the lock
    | AlreadyInstalled
    | Refused                                     // by a gate in front of the lock
    | SqlFailed                                   // in front of the lock, or by a fault at any point

  // `db` is the committed database, `writers` the sessions that hold the table for writing and
  // `history` every write they have committed.
  datatype System = System(db: Db, history: seq<WriterOp>, writers: set<nat>, runner: Runner)

  datatype Event =
    | RunnerStep
    | Fault
    | Begin(writer: nat)
    | CommitWrite(writer: nat, ops: seq<WriterOp>)
    | Rollback(writer: nat)

  // The migration body: any SQL at all, failing (None) or not.
  type Body = Db -> Option<Db>

  // ----- The runner's checks -----

  predicate ViolatesReceiptModel(r: Row) {
    || r.entryType !in {"payment", "advance", "pass"}
    || (r.entryType == "pass" && r.amount != 0)
    || (r.entryType in {"payment", "advance"} && r.amount <= 0)
  }

  predicate NoLegacyViolation(db: Db) {
    forall id | id in db.rows :: !ViolatesReceiptModel(db.rows[id])
  }

  // NOT (column = v) is true only for a column that is not NULL.
  predicate Differs<T(==)>(column: Option<T>, v: T) {
    column.Some? && column.value != v
  }

  predicate InvalidApplication(r: Row) {
    || (r.entryType == "pass" && (r.amount != 0 || Differs(r.applied, 0) || Differs(r.unallocated, 0)
                                  || Differs(r.allocation, "not_applicable")))
    || (r.entryType in {"payment", "advance"} && (Differs(r.applied, r.amount) || Differs(r.unallocated, 0)
                                                  || Differs(r.allocation, "fully_allocated")))
    || r.entryType !in {"payment", "advance", "pass"}
  }

  const CHECKS: nat := 8

  function CashTotal(db: Db): int {
    Sum(SortedInts(db.rows.Keys), Amounts(db))
  }

  function AppliedTotal(db: Db): int {
    Sum(SortedInts(db.rows.Keys), AppliedAmounts(db))
  }

  function UnallocatedTotal(db: Db): int {
    Sum(SortedInts(db.rows.Keys), UnallocatedAmounts(db))
  }

  // The checks of _verify_installed, in order. `expected` is the row count handed over by the
  // installing run, `counted` the one the totals query (check 6) returned.
  predicate CheckPasses(db: Db, check: nat, expected: Option<nat>, counted: nat) {
    match check
    case 0 => db.view.Some?
    case 1 => NEW_COLUMNS <= db.columns
    case 2 => db.constraints * RECEIPT_CONSTRAINTS == RECEIPT_CONSTRAINTS
    case 3 => db.lockTrigger == Some(ENABLED)
    case 4 => db.normalizeTrigger == Some(ENABLED)
    case 5 => forall id | id in db.rows :: !InvalidApplication(db.rows[id])
    case 6 =>
      && (expected.Some? ==> |db.rows| == expected.value)
      && CashTotal(db) == AppliedTotal(db)
      && UnallocatedTotal(db) == 0
    case 7 => db.view.Some? && |db.rows.Keys - db.view.value.hidden| == counted
    case _ => true
  }

  function Counted(db: Db, check: nat, counted: nat): nat {
    if check == 6 then |db.rows| else counted
  }

  // ALTER TABLE ... ENABLE | DISABLE TRIGGER fails when there is no such table or trigger.
  function SetLockTrigger(db: Db, state: char): Option<Db> {
    if db.tableExists && db.lockTrigger.Some? then Some(db.(lockTrigger := Some(state))) else None
  }

  // ----- The runner's statements -----

  // Statements before the lock read the committed database; `at` counts the writes in it.
  function BeforeLock(r: Runner, db: Db, at: nat): Runner
    requires !r.LockTable? && !r.Locked?
  {
    match r
    case ProbeTable => if db.tableExists then ProbeView else Finished(Refused)
    case ProbeView => ProbeColumns(db.view.Some?)
    case ProbeColumns(viewSeen) =>
      if viewSeen then VerifyExisting(0, 0)
      else if NEW_COLUMNS * db.columns != {} then Finished(Refused)
      else CheckLockTrigger(db.columns)
    case VerifyExisting(check, counted) =>
      if check >= CHECKS then Finished(AlreadyInstalled)
      else if CheckPasses(db, check, None, counted) then VerifyExisting(check + 1, Counted(db, check, counted))
      else Finished(Refused)
    case CheckLockTrigger(columns) =>
      if db.lockTrigger == Some(ENABLED) then CheckLegacy(columns) else Finished(Refused)
    case CheckLegacy(columns) => if NoLegacyViolation(db) then SnapAll(columns) else Finished(Refused)
    case SnapAll(columns) =>
      var rows := Select(db, columns, false);
      if rows.Some? then SnapVoided(columns, Read(rows.value, at)) else Finished(SqlFailed)
    case SnapVoided(columns, all) =>
      var rows := Select(db, columns, true);
      if rows.Some? then SnapTotals(columns, all, Read(rows.value, at)) else Finished(SqlFailed)
    case SnapTotals(columns, all, voided) =>
      var totals := TotalsOf(db);
      if totals.Some? then LockTable(Evidence(columns, all, voided, Read(totals.value, at))) else Finished(SqlFailed)
    case Finished(_) => r
  }

  // Statements under the lock work on the transaction's own copy.
  function UnderLock(r: Runner, body: Body): Runner
    requires r.Locked? && !r.next.Commit?
  {
    var work, columns := r.work, r.before.columns;
    match r.next
    case SuspendTrigger => Writes(r, SetLockTrigger(work, SUSPENDED), RunBody)
    case RunBody => Writes(r, body(work), RestoreTrigger)
    case RestoreTrigger => Writes(r, SetLockTrigger(work, ENABLED), CheckRestored)
    case CheckRestored => if work.lockTrigger == Some(ENABLED) then r.(next := ReSnapAll) else RollBack(r)
    case ReSnapAll =>
      var rows := Select(work, columns, false);
      if rows.Some? then r.(next := ReSnapVoided(rows.value)) else RollBack(r)
    case ReSnapVoided(all) =>
      var rows := Select(work, columns, true);
      if rows.Some? then r.(next := ReSnapTotals(all, rows.value)) else RollBack(r)
    case ReSnapTotals(all, voided) =>
      var totals := TotalsOf(work);
      if totals.Some? then r.(next := Compare(all, voided, totals.value)) else RollBack(r)
    case Compare(all, voided, totals) =>
      if all == r.before.all.value && voided == r.before.voided.value && totals == r.before.totals.value
      then r.(next := Verify(0, 0)) else RollBack(r)
    case Verify(check, counted) =>
      if check >= CHECKS then r.(next := Commit)
      else if CheckPasses(work, check, Some(r.before.totals.value.count), counted)
      then r.(next := Verify(check + 1, Counted(work, check, counted)))
      else RollBack(r)
  }

  function RollBack(r: Runner): Runner
    requires r.Locked?
  {
    Finished(RolledBack(r.before, r.lockAt))
  }

  function Writes(r: Runner, result: Option<Db>, next: Statement): Runner
    requires r.Locked?
  {
    if result.Some? then r.(work := result.value, next := next) else RollBack(r)
  }

  // ----- All sessions -----

  function Step(s: System, body: Body, e: Event): System {
    match e
    case RunnerStep =>
      if s.runner.LockTable? then
        // ACCESS EXCLUSIVE is granted only when no session holds the table for writing.
        if s.writers != {} then s
        else s.(runner := Locked(s.runner.before, |s.history|, s.db, SuspendTrigger))
      else if s.runner.Locked? then
        if s.runner.next.Commit? then
          s.(db := s.runner.work, runner := Finished(Installed(s.runner.before, s.runner.lockAt, s.runner.work)))
        else s.(runner := UnderLock(s.runner, body))
      else s.(runner := BeforeLock(s.runner, s.db, |s.history|))
    case Fault => if s.runner.Finished? then s else s.(runner := Finished(SqlFailed))
    case Begin(w) => if s.runner.Locked? then s else s.(writers := s.writers + {w})
    case CommitWrite(w, ops) =>
      if w in s.writers then System(ApplyAll(s.db, ops), s.history + ops, s.writers - {w}, s.runner) else s
    case Rollback(w) => s.(writers := s.writers - {w})
  }

  function Run(s: System, body: Body, events: seq<Event>): System {
    if events == [] then s
    else Step(Run(s, body, events[..|events| - 1]), body, events[|events| - 1])
  }

  // Any database, and any sessions already writing.
  predicate Initial(s: System) {
    s.runner == ProbeTable && s.history == []
  }

  // ----- The invariant -----

  // The database the writers alone would have made of `db` after their first n writes.
  function Alone(db: Db, history: seq<WriterOp>, n: nat): Db
    requires n <= |history|
  {
    ApplyAll(db, history[..n])
  }

  // The transaction's effect on the table it locked: suspend, run the body, restore.
  function Migrated(db: Db, body: Body): Option<Db> {
    var suspended := SetLockTrigger(db, SUSPENDED);
    if suspended.None? then None else
      var ran := body(suspended.value);
      if ran.None? then None else SetLockTrigger(ran.value, ENABLED)
  }

  ghost predicate AllRead(db0: Db, history: seq<WriterOp>, columns: set<string>, r: Read<seq<Image>>) {
    r.at <= |history| && Select(Alone(db0, history, r.at), columns, false) == Some(r.value)
  }

  ghost predicate VoidedRead(db0: Db, history: seq<WriterOp>, columns: set<string>, r: Read<seq<Image>>) {
    r.at <= |history| && Select(Alone(db0, history, r.at), columns, true) == Some(r.value)
  }

  ghost predicate TotalsRead(db0: Db, history: seq<WriterOp>, r: Read<Totals>) {
    r.at <= |history| && TotalsOf(Alone(db0, history, r.at)) == Some(r.value)
  }

  ghost predicate EvidenceRead(db0: Db, history: seq<WriterOp>, e: Evidence) {
    && AllRead(db0, history, e.columns, e.all)
    && VoidedRead(db0, history, e.columns, e.voided)
    && TotalsRead(db0, history, e.totals)
    && e.all.at <= e.voided.at <= e.totals.at
  }

  // The guards in front of the snapshots.
  ghost predicate Admitted(db0: Db, columns: set<string>) {
    && db0.tableExists && db0.view.None? && columns == db0.columns && NEW_COLUMNS * columns == {}
  }

  ghost predicate EvidenceHolds(e: Evidence, db: Db) {
    && Select(db, e.columns, false) == Some(e.all.value)
    && Select(db, e.columns, true) == Some(e.voided.value)
    && TotalsOf(db) == Some(e.totals.value)
  }

  ghost predicate CheckHolds(e: Evidence, db: Db, check: nat) {
    CheckPasses(db, check, Some(e.totals.value.count), |db.rows|)
  }

  ghost predicate Verified(e: Evidence, db: Db, upTo: nat) {
    forall check: nat | check < upTo :: CheckHolds(e, db, check)
  }

  // The migration goes through on the table `db`, given the evidence read before the lock.
  ghost predicate Succeeds(db: Db, e: Evidence, body: Body) {
    && Migrated(db, body).Some?
    && EvidenceHolds(e, Migrated(db, body).value)
    && Verified(e, Migrated(db, body).value, CHECKS)
  }

  // What holds of the copy before each statement, for the table `db` that was locked.
  ghost predicate WorkInv(db: Db, r: Runner, body: Body)
    requires r.Locked?
  {
    var work, e := r.work, r.before;
    match r.next
    case SuspendTrigger => work == db
    case RunBody => SetLockTrigger(db, SUSPENDED) == Some(work)
    case RestoreTrigger => SetLockTrigger(db, SUSPENDED).Some? && body(SetLockTrigger(db, SUSPENDED).value) == Some(work)
    case CheckRestored => Migrated(db, body) == Some(work)
    case ReSnapAll => Migrated(db, body) == Some(work)
    case ReSnapVoided(all) => Migrated(db, body) == Some(work) && Select(work, e.columns, false) == Some(all)
    case ReSnapTotals(all, voided) =>
      && Migrated(db, body) == Some(work) && Select(work, e.columns, false) == Some(all)
      && Select(work, e.columns, true) == Some(voided)
    case Compare(all, voided, totals) =>
      && Migrated(db, body) == Some(work) && Select(work, e.columns, false) == Some(all)
      && Select(work, e.columns, true) == Some(voided) && TotalsOf(work) == Some(totals)
    case Verify(check, counted) =>
      && Migrated(db, body) == Some(work) && EvidenceHolds(e, work) && Verified(e, work, check)
      && (check > 6 ==> counted == |work.rows|)
    case Commit => Migrated(db, body) == Some(work) && EvidenceHolds(e, work) && Verified(e, work, CHECKS)
  }

  ghost predicate RunnerInv(db0: Db, s: System, body: Body) {
    match s.runner
    case ProbeTable => true
    case ProbeView => db0.tableExists
    case ProbeColumns(viewSeen) => db0.tableExists && viewSeen == db0.view.Some?
    case VerifyExisting(_, _) => true
    case CheckLockTrigger(columns) => Admitted(db0, columns)
    case CheckLegacy(columns) => Admitted(db0, columns) && db0.lockTrigger == Some(ENABLED)
    case SnapAll(columns) => Admitted(db0, columns) && db0.lockTrigger == Some(ENABLED)
    case SnapVoided(columns, all) =>
      && Admitted(db0, columns) && db0.lockTrigger == Some(ENABLED)
      && AllRead(db0, s.history, columns, all)
    case SnapTotals(columns, all, voided) =>
      && Admitted(db0, columns) && db0.lockTrigger == Some(ENABLED)
      && AllRead(db0, s.history, columns, all) && VoidedRead(db0, s.history, columns, voided) && all.at <= voided.at
    case LockTable(e) =>
      Admitted(db0, e.columns) && db0.lockTrigger == Some(ENABLED) && EvidenceRead(db0, s.history, e)
    case Locked(e, lockAt, work, _) =>
      && Admitted(db0, e.columns) && db0.lockTrigger == Some(ENABLED) && EvidenceRead(db0, s.history, e)
      && e.totals.at <= lockAt == |s.history| && s.writers == {}
      && WorkInv(s.db, s.runner, body)
    case Finished(Installed(e, lockAt, db)) =>
      && Admitted(db0, e.columns) && db0.lockTrigger == Some(ENABLED) && EvidenceRead(db0, s.history, e)
      && e.totals.at <= lockAt <= |s.history|
      && Migrated(Alone(db0, s.history, lockAt), body) == Some(db) && Succeeds(Alone(db0, s.history, lockAt), e, body)
    case Finished(RolledBack(e, lockAt)) =>
      && Admitted(db0, e.columns) && db0.lockTrigger == Some(ENABLED) && EvidenceRead(db0, s.history, e)
      && e.totals.at <= lockAt <= |s.history| && !Succeeds(Alone(db0, s.history, lockAt), e, body)
    case Finished(_) => true
  }

  // The committed database is the writers' own work, unless the migration was installed: then
  // it is the migrated table with the later writes on top.
  ghost predicate CommittedInv(db0: Db, s: System) {
    if s.runner.Finished? && s.runner.outcome.Installed? then
      var o := s.runner.outcome;
      o.lockAt <= |s.history| && s.db == ApplyAll(o.db, s.history[o.lockAt..])
    else s.db == ApplyAll(db0, s.history)
  }

  ghost predicate Inv(db0: Db, s: System, body: Body) {
    CommittedInv(db0, s) && RunnerInv(db0, s, body)
  }

  lemma ReadsOutliveWrites(db0: Db, history: seq<WriterOp>, ops: seq<WriterOp>, n: nat)
    requires n <= |history|
    ensures Alone(db0, history + ops, n) == Alone(db0, history, n)
  {
    assert (history + ops)[..n] == history[..n];
  }

  lemma EvidenceOutlivesWrites(db0: Db, history: seq<WriterOp>, ops: seq<WriterOp>, e: Evidence)
    requires EvidenceRead(db0, history, e)
    ensures EvidenceRead(db0, history + ops, e)
  {
    hide Alone, Select, TotalsOf;
    ReadsOutliveWrites(db0, history, ops, e.all.at);
    ReadsOutliveWrites(db0, history, ops, e.voided.at);
    ReadsOutliveWrites(db0, history, ops, e.totals.at);
  }

  lemma CommitWriteKeepsCommittedInv(db0: Db, s: System, body: Body, e: Event)
    requires Inv(db0, s, body) && e.CommitWrite?
    ensures CommittedInv(db0, Step(s, body, e))
  {
    hide RunnerInv;
    if e.writer in s.writers {
      ApplyAllConcat(db0, s.history, e.ops);
      if s.runner.Finished? && s.runner.outcome.Installed? {
        var o := s.runner.outcome;
        ApplyAllConcat(o.db, s.history[o.lockAt..], e.ops);
        assert (s.history + e.ops)[o.lockAt..] == s.history[o.lockAt..] + e.ops;
      }
    }
  }

  lemma CommitWriteKeepsRunnerInv(db0: Db, s: System, body: Body, e: Event)
    requires Inv(db0, s, body) && e.CommitWrite? && e.writer in s.writers
    ensures RunnerInv(db0, Step(s, body, e), body)
  {
    hide Alone, Select, TotalsOf, WorkInv, Succeeds, Migrated;
    match s.runner
    case SnapVoided(_, all) =>
      ReadsOutliveWrites(db0, s.history, e.ops, all.at);
    case SnapTotals(_, all, voided) =>
      ReadsOutliveWrites(db0, s.history, e.ops, all.at);
      ReadsOutliveWrites(db0, s.history, e.ops, voided.at);
    case LockTable(before) =>
      EvidenceOutlivesWrites(db0, s.history, e.ops, before);
    case Finished(Installed(before, lockAt, db)) =>
      EvidenceOutlivesWrites(db0, s.history, e.ops, before);
      ReadsOutliveWrites(db0, s.history, e.ops, lockAt);
    case Finished(RolledBack(before, lockAt)) =>
      EvidenceOutlivesWrites(db0, s.history, e.ops, before);
      ReadsOutliveWrites(db0, s.history, e.ops, lockAt);
    case _ =>
  }

  lemma UnderLockKeepsInv(db0: Db, s: System, body: Body)
    requires Inv(db0, s, body) && s.runner.Locked? && !s.runner.next.Commit?
    ensures Inv(db0, Step(s, body, RunnerStep), body)
  {
    hide Select, TotalsOf, CheckPasses, EvidenceRead, Admitted, ApplyAll;
    assert s.history[..|s.history|] == s.history;
    if s.runner.next.Verify? && s.runner.next.check < CHECKS {
      CountMattersLate(s.runner.before, s.runner.work, s.runner.next.check, s.runner.next.counted);
    }
  }

  lemma CountMattersLate(e: Evidence, db: Db, check: nat, counted: nat)
    requires check > 6 ==> counted == |db.rows|
    ensures CheckPasses(db, check, Some(e.totals.value.count), counted) == CheckHolds(e, db, check)
  {
  }

  lemma CommitKeepsInv(db0: Db, s: System, body: Body)
    requires Inv(db0, s, body) && s.runner.Locked? && s.runner.next.Commit?
    ensures Inv(db0, Step(s, body, RunnerStep), body)
  {
    hide Select, TotalsOf, Migrated, EvidenceRead, Admitted, EvidenceHolds, Verified;
    assert s.history[..|s.history|] == s.history;
    assert s.history[|s.history|..] == [];
  }

  lemma BeforeLockKeepsInv(db0: Db, s: System, body: Body)
    requires Inv(db0, s, body) && !s.runner.Locked?
    ensures Inv(db0, Step(s, body, RunnerStep), body)
  {
    hide Select, TotalsOf, CheckPasses, NoLegacyViolation, Succeeds, ApplyAll;
    ApplyAllKeepsSchema(db0, s.history);
    assert s.history[..|s.history|] == s.history;
  }

  lemma StepKeepsInv(db0: Db, s: System, body: Body, e: Event)
    requires Inv(db0, s, body)
    ensures Inv(db0, Step(s, body, e), body)
  {
    match e
    case RunnerStep =>
      if !s.runner.Locked? {
        BeforeLockKeepsInv(db0, s, body);
      } else if s.runner.next.Commit? {
        CommitKeepsInv(db0, s, body);
      } else {
        UnderLockKeepsInv(db0, s, body);
      }
    case CommitWrite(w, _) =>
      if w in s.writers {
        CommitWriteKeepsCommittedInv(db0, s, body, e);
        CommitWriteKeepsRunnerInv(db0, s, body, e);
      }
    case _ =>
      hide Select, TotalsOf, CheckPasses, WorkInv, Succeeds, Migrated, ApplyAll, EvidenceRead;
  }

  lemma {:induction false} RunKeepsInv(s0: System, body: Body, events: seq<Event>)
    requires Initial(s0)
    ensures Inv(s0.db, Run(s0, body, events), body)
  {
    if events != [] {
      hide RunnerInv, CommittedInv, Step;
      RunKeepsInv(s0, body, events[..|events| - 1]);
      StepKeepsInv(s0.db, Run(s0, body, events[..|events| - 1]), body, events[|events| - 1]);
    }
  }
}
