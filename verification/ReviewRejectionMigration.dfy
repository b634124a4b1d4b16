// tools/apply_0102_remittance_review_rejection_migration.py as a step system: three table
// locks first, evidence second, with other sessions and failures between any two statements.
module ReviewRejectionMigration {
  import opened Options
  import opened RemittanceTables

  datatype Runner =
    | ProbeTables
    | ProbeInstalled
    | VerifyExisting
    | ProbePartial
    | LockNext
    | ReadSignature(lockAt: nat)
    | RunBody(lockAt: nat, before: Signature)
    | Compare(lockAt: nat, before: Signature, work: Database)
    | Verify(lockAt: nat, work: Database)
    | Commit(lockAt: nat, work: Database)
    | Finished(outcome: Outcome)

  datatype Outcome =
    | Installed(lockAt: nat, db: Database)
    | RolledBack(lockAt: nat)
    | AlreadyInstalled
    | Refused
    | Failed

  // `held` are the tables other sessions hold for writing, `locked` the number of tables the
  // runner has locked so far, in the order of LOCK_ORDER.
  datatype System = System(db: Database, history: seq<WriterOp>, held: set<(nat, Table)>, locked: nat, runner: Runner)

  const LOCK_ORDER := [Remittances, Items, Transactions]

  predicate LockedByRunner(s: System, t: Table) {
    exists i :: 0 <= i < s.locked && i < |LOCK_ORDER| && LOCK_ORDER[i] == t
  }

  datatype Event =
    | RunnerStep
    | Fault
    | Acquire(writer: nat, table: Table)
    | CommitWrites(writer: nat, ops: seq<WriterOp>)
    | Rollback(writer: nat)

  type Body = Database -> Option<Database>

  function Release(held: set<(nat, Table)>, w: nat): set<(nat, Table)> {
    set h | h in held && h.0 != w
  }

  predicate HeldByOthers(s: System, t: Table) {
    exists h :: h in s.held && h.1 == t
  }

  function End(s: System, o: Outcome): System {
    s.(runner := Finished(o), locked := 0)
  }

  function RunnerStepOf(s: System, body: Body): System {
    match s.runner
    case ProbeTables =>
      if {Remittances, Items, Transactions} <= s.db.schema.tables then s.(runner := ProbeInstalled) else End(s, Refused)
    case ProbeInstalled =>
      s.(runner := if FullyInstalled(s.db.schema) then VerifyExisting else ProbePartial)
    case VerifyExisting => End(s, if Verified(s.db.schema) then AlreadyInstalled else Refused)
    case ProbePartial => if PartlyInstalled(s.db.schema) then End(s, Refused) else s.(runner := LockNext)
    case LockNext =>
      if s.locked >= |LOCK_ORDER| then s.(runner := ReadSignature(|s.history|))
      else if HeldByOthers(s, LOCK_ORDER[s.locked]) then s
      else s.(locked := s.locked + 1)
    case ReadSignature(at) => s.(runner := RunBody(at, SignatureOf(s.db.rows)))
    case RunBody(at, before) =>
      var result := body(s.db);
      if result.Some? then s.(runner := Compare(at, before, result.value)) else End(s, RolledBack(at))
    case Compare(at, before, work) =>
      if SignatureOf(work.rows) == before then s.(runner := Verify(at, work)) else End(s, RolledBack(at))
    case Verify(at, work) =>
      if Verified(work.schema) then s.(runner := Commit(at, work)) else End(s, RolledBack(at))
    case Commit(at, work) => End(s.(db := work), Installed(at, work))
    case Finished(_) => s
  }

  function Step(s: System, body: Body, e: Event): System {
    match e
    case RunnerStep => RunnerStepOf(s, body)
    case Fault => if s.runner.Finished? then s else End(s, Failed)
    case Acquire(w, t) => if LockedByRunner(s, t) then s else s.(held := s.held + {(w, t)})
    case CommitWrites(w, ops) =>
      if forall op | op in ops :: (w, TableOf(op)) in s.held then
        s.(db := s.db.(rows := ApplyAll(s.db.rows, ops)), history := s.history + ops, held := Release(s.held, w))
      else s
    case Rollback(w) => s.(held := Release(s.held, w))
  }

  function Run(s: System, body: Body, events: seq<Event>): System {
    if events == [] then s
    else Step(Run(s, body, events[..|events| - 1]), body, events[|events| - 1])
  }

  predicate Initial(s: System) {
    s.runner == ProbeTables && s.history == [] && s.locked == 0
  }

  function Alone(db: Database, history: seq<WriterOp>, n: nat): Database
    requires n <= |history|
  {
    db.(rows := ApplyAll(db.rows, history[..n]))
  }

  // Nothing of 0102 is there yet.
  predicate Pristine(s: Schema) {
    {Remittances, Items, Transactions} <= s.tables && !FullyInstalled(s) && !PartlyInstalled(s)
  }

  // The migration goes through on the locked database, whatever happened before the locks.
  ghost predicate Succeeds(db: Database, body: Body) {
    var result := body(db);
    result.Some? && SignatureOf(result.value.rows) == SignatureOf(db.rows) && Verified(result.value.schema)
  }

  predicate AllLocked(s: System) {
    s.locked == |LOCK_ORDER| && s.held == {}
  }

  ghost predicate RunnerInv(db0: Database, s: System, body: Body) {
    match s.runner
    case ProbeTables => true
    case ProbeInstalled => {Remittances, Items, Transactions} <= db0.schema.tables
    case VerifyExisting => FullyInstalled(db0.schema)
    case ProbePartial => {Remittances, Items, Transactions} <= db0.schema.tables && !FullyInstalled(db0.schema)
    case LockNext => Pristine(db0.schema)
    case ReadSignature(at) => Pristine(db0.schema) && AllLocked(s) && at == |s.history|
    case RunBody(at, before) =>
      Pristine(db0.schema) && AllLocked(s) && at == |s.history| && before == SignatureOf(s.db.rows)
    case Compare(at, before, work) =>
      && Pristine(db0.schema) && AllLocked(s) && at == |s.history| && before == SignatureOf(s.db.rows)
      && body(s.db) == Some(work)
    case Verify(at, work) =>
      && Pristine(db0.schema) && AllLocked(s) && at == |s.history|
      && body(s.db) == Some(work) && SignatureOf(work.rows) == SignatureOf(s.db.rows)
    case Commit(at, work) =>
      && Pristine(db0.schema) && AllLocked(s) && at == |s.history|
      && body(s.db) == Some(work) && Succeeds(s.db, body)
    case Finished(Installed(at, db)) =>
      && Pristine(db0.schema) && at <= |s.history|
      && body(Alone(db0, s.history, at)) == Some(db) && Succeeds(Alone(db0, s.history, at), body)
    case Finished(RolledBack(at)) =>
      Pristine(db0.schema) && at <= |s.history| && !Succeeds(Alone(db0, s.history, at), body)
    case Finished(_) => true
  }

  // The runner locks a table only when no other session holds it, and none takes it again.
  ghost predicate LocksExclude(s: System) {
    s.locked <= |LOCK_ORDER| && forall h | h in s.held :: !LockedByRunner(s, h.1)
  }

  ghost predicate CommittedInv(db0: Database, s: System) {
    if s.runner.Finished? && s.runner.outcome.Installed? then
      var o := s.runner.outcome;
      o.lockAt <= |s.history| && s.db == o.db.(rows := ApplyAll(o.db.rows, s.history[o.lockAt..]))
    else s.db == db0.(rows := ApplyAll(db0.rows, s.history))
  }

  ghost predicate Inv(db0: Database, s: System, body: Body) {
    && CommittedInv(db0, s) && RunnerInv(db0, s, body) && LocksExclude(s)
    && (s.runner.Finished? ==> s.locked == 0)
  }

  lemma LocksStayExclusive(s: System, body: Body, e: Event)
    requires LocksExclude(s)
    ensures LocksExclude(Step(s, body, e))
  {
    hide SignatureOf, Verified, FullyInstalled, PartlyInstalled;
  }

  lemma EveryTableLocked(s: System)
    requires LocksExclude(s) && s.locked == |LOCK_ORDER|
    ensures forall t: Table :: LockedByRunner(s, t)
    ensures AllLocked(s)
  {
    assert LOCK_ORDER[0] == Remittances && LOCK_ORDER[1] == Items && LOCK_ORDER[2] == Transactions;
    forall t: Table ensures LockedByRunner(s, t) {
      match t
      case Remittances => assert LOCK_ORDER[0] == t;
      case Items => assert LOCK_ORDER[1] == t;
      case Transactions => assert LOCK_ORDER[2] == t;
    }
  }

  lemma CommitWritesKeepsCommittedInv(db0: Database, s: System, body: Body, e: Event)
    requires CommittedInv(db0, s) && e.CommitWrites?
    ensures CommittedInv(db0, Step(s, body, e))
  {
    ApplyAllConcat(db0.rows, s.history, e.ops);
    if s.runner.Finished? && s.runner.outcome.Installed? {
      var o := s.runner.outcome;
      ApplyAllConcat(o.db.rows, s.history[o.lockAt..], e.ops);
      assert (s.history + e.ops)[o.lockAt..] == s.history[o.lockAt..] + e.ops;
    }
  }

  lemma CommitWritesKeepsRunnerInv(db0: Database, s: System, body: Body, e: Event)
    requires RunnerInv(db0, s, body) && e.CommitWrites?
    ensures RunnerInv(db0, Step(s, body, e), body)
  {
    hide SignatureOf, Verified, FullyInstalled, PartlyInstalled, Succeeds, Pristine;
    if e.ops == [] {
      assert s.history + e.ops == s.history;
    } else if AllLocked(s) {
      assert e.ops[0] in e.ops;
    }
    assert forall n: nat | n <= |s.history| :: (s.history + e.ops)[..n] == s.history[..n];
  }

  lemma RunnerStepKeepsInv(db0: Database, s: System, body: Body)
    requires Inv(db0, s, body)
    ensures CommittedInv(db0, Step(s, body, RunnerStep)) && RunnerInv(db0, Step(s, body, RunnerStep), body)
  {
    hide SignatureOf, Verified, FullyInstalled, PartlyInstalled, LockedByRunner;
    assert s.history[..|s.history|] == s.history;
    assert s.history[|s.history|..] == [];
    if s.runner.LockNext? && s.locked == |LOCK_ORDER| { EveryTableLocked(s); }
  }

  lemma AcquireKeepsInv(db0: Database, s: System, body: Body, e: Event)
    requires Inv(db0, s, body) && e.Acquire?
    ensures CommittedInv(db0, Step(s, body, e)) && RunnerInv(db0, Step(s, body, e), body)
  {
    hide SignatureOf, Verified, FullyInstalled, PartlyInstalled, Succeeds, Pristine;
    if AllLocked(s) { EveryTableLocked(s); }
  }

  lemma StepKeepsInv(db0: Database, s: System, body: Body, e: Event)
    requires Inv(db0, s, body)
    ensures Inv(db0, Step(s, body, e), body)
  {
    hide SignatureOf, Verified, FullyInstalled, PartlyInstalled, Succeeds, Pristine;
    LocksStayExclusive(s, body, e);
    match e
    case RunnerStep => RunnerStepKeepsInv(db0, s, body);
    case CommitWrites(_, _) =>
      CommitWritesKeepsCommittedInv(db0, s, body, e);
      CommitWritesKeepsRunnerInv(db0, s, body, e);
    case Acquire(_, _) => AcquireKeepsInv(db0, s, body, e);
    case _ =>
  }

  lemma {:induction false} RunKeepsInv(s0: System, body: Body, events: seq<Event>)
    requires Initial(s0)
    ensures Inv(s0.db, Run(s0, body, events), body)
  {
    if events != [] {
      hide Step, Inv;
      RunKeepsInv(s0, body, events[..|events| - 1]);
      StepKeepsInv(s0.db, Run(s0, body, events[..|events| - 1]), body, events[|events| - 1]);
    }
  }
}
