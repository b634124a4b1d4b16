// main() of tools/apply_0102_remittance_review_rejection_migration.py over tables that other
// sessions write to between its statements. Whatever it does is a run of the step system.
module ReviewRejectionRunner {
  import opened Options
  import opened RemittanceTables
  import opened ReviewRejectionMigration
  import opened ReviewRejectionSafety

  datatype Turn = Turn(others: seq<Event>, fails: bool)

  predicate Foreign(e: Event) {
    !e.RunnerStep? && !e.Fault?
  }

  predicate OthersOnly(schedule: seq<Turn>) {
    forall t | t in schedule :: forall e | e in t.others :: Foreign(e)
  }

  class Migration {
    const body: Body
    var db: Database                // committed
    var history: seq<WriterOp>
    var held: set<(nat, Table)>     // by other sessions
    var locked: nat                 // tables locked by the runner, in order
    var schedule: seq<Turn>
    ghost const start: System
    ghost var trace: seq<Event>
    ghost var at: Runner

    ghost function State(): System
      reads this
    {
      System(db, history, held, locked, at)
    }

    ghost predicate Valid()
      reads this
    {
      Initial(start) && State() == Run(start, body, trace) && OthersOnly(schedule)
    }

    constructor (body: Body, db: Database, held: set<(nat, Table)>, schedule: seq<Turn>)
      requires OthersOnly(schedule)
      ensures Valid() && at == ProbeTables && this.body == body
      ensures start == System(db, [], held, 0, ProbeTables)
    {
      this.body, this.db, this.history, this.held, this.locked := body, db, [], held, 0;
      this.schedule := schedule;
      start, trace, at := System(db, [], held, 0, ProbeTables), [], ProbeTables;
    }

    ghost method Record(before: System, e: Event)
      requires Initial(start) && OthersOnly(schedule)
      requires before == Run(start, body, trace) && State() == Step(before, body, e)
      modifies `trace
      ensures Valid()
    {
      trace := trace + [e];
      assert trace[..|trace| - 1] == old(trace);
    }

    method OtherSession(e: Event)
      requires Valid() && Foreign(e)
      modifies `db, `history, `held, `trace
      ensures Valid() && State() == Step(old(State()), body, e)
    {
      ghost var before := State();
      match e {
        case Acquire(w, t) =>
          if !(exists i :: 0 <= i < locked && i < |LOCK_ORDER| && LOCK_ORDER[i] == t) { held := held + {(w, t)}; }
        case CommitWrites(w, ops) =>
          if forall op | op in ops :: (w, TableOf(op)) in held {
            db, history, held := db.(rows := ApplyAll(db.rows, ops)), history + ops, Release(held, w);
          }
        case Rollback(w) => held := Release(held, w);
      }
      Record(before, e);
    }

    method NextTurn() returns (fails: bool)
      requires Valid()
      modifies `db, `history, `held, `trace, `schedule
      ensures Valid()
      ensures if old(schedule) == [] then schedule == [] && !fails else schedule == old(schedule)[1..]
    {
      if schedule == [] { return false; }
      var turn := schedule[0];
      assert turn in schedule;
      schedule := schedule[1..];
      for i := 0 to |turn.others|
        invariant Valid() && schedule == old(schedule)[1..]
      {
        assert turn.others[i] in turn.others;
        OtherSession(turn.others[i]);
      }
      return turn.fails;
    }

    method End(outcome: Outcome, ghost e: Event)
      requires Valid() && !at.Finished?
      requires Step(State(), body, e) == ReviewRejectionMigration.End(State(), outcome)
      modifies `trace, `at, `locked
      ensures Valid() && at == Finished(outcome)
    {
      ghost var before := State();
      at, locked := Finished(outcome), 0;
      Record(before, e);
    }

    ghost method Executed(next: Runner)
      requires Valid() && Step(State(), body, RunnerStep) == State().(runner := next)
      modifies `trace, `at
      ensures Valid() && at == next
    {
      ghost var before := State();
      at := next;
      Record(before, RunnerStep);
    }

    // The probes in front of the locks. None: nothing of 0102 is there and the run goes on.
    method Gates() returns (outcome: Option<Outcome>)
      requires Valid() && at == ProbeTables
      modifies this
      ensures Valid()
      ensures if outcome.Some? then at == Finished(outcome.value) else at == LockNext
    {
      hide Run, FullyInstalled, PartlyInstalled, Verified;
      var fails := NextTurn();
      if fails { End(Failed, Fault); return Some(Failed); }
      if !({Remittances, Items, Transactions} <= db.schema.tables) { End(Refused, RunnerStep); return Some(Refused); }
      Executed(ProbeInstalled);

      fails := NextTurn();
      if fails { End(Failed, Fault); return Some(Failed); }
      if FullyInstalled(db.schema) {
        Executed(VerifyExisting);
        fails := NextTurn();
        if fails { End(Failed, Fault); return Some(Failed); }
        var o := if Verified(db.schema) then AlreadyInstalled else Refused;
        End(o, RunnerStep);
        return Some(o);
      }
      Executed(ProbePartial);

      fails := NextTurn();
      if fails { End(Failed, Fault); return Some(Failed); }
      if PartlyInstalled(db.schema) { End(Refused, RunnerStep); return Some(Refused); }
      Executed(LockNext);
      return None;
    }

    // The three LOCK TABLE statements; each waits until no other session holds its table.
    method LockTables() returns (granted: bool)
      requires Valid() && at == LockNext
      modifies this
      ensures Valid()
      ensures if granted then at == ReadSignature(|history|) else at == Finished(Failed)
    {
      hide Run, SignatureOf;
      var turns := |schedule|;
      while locked < |LOCK_ORDER|
        invariant Valid() && at == LockNext && turns == |schedule|
        decreases turns, |LOCK_ORDER| - locked
      {
        if turns > 0 {
          var fails := NextTurn();
          turns := turns - 1;
          if fails { End(Failed, Fault); return false; }
        } else if exists h :: h in held && h.1 == LOCK_ORDER[locked] {
          End(Failed, Fault);   // cancelled: nobody lets go of the table
          return false;
        } else {
          ghost var before := State();
          locked := locked + 1;
          Record(before, RunnerStep);
        }
      }
      Executed(ReadSignature(|history|));
      return true;
    }

    method RunMigration() returns (outcome: Outcome)
      requires Valid() && at == ProbeTables
      modifies this
      ensures Valid() && at == Finished(outcome)
      ensures !outcome.Installed? ==> db == start.db.(rows := ApplyAll(start.db.rows, history))
      ensures outcome.Installed? ==> Pristine(start.db.schema)
    {
      outcome := RunStatements();
      FailureLeavesOnlyTheWritersWork(start, body, trace);
      RunKeepsInv(start, body, trace);
    }

    method RunStatements() returns (outcome: Outcome)
      requires Valid() && at == ProbeTables
      modifies this
      ensures Valid() && at == Finished(outcome)
    {
      hide Run, Step;
      var early := Gates();
      if early.Some? { return early.value; }
      var granted := LockTables();
      if !granted { return Failed; }
      var lockAt := |history|;
      var work, failed := Migrate(lockAt);
      if failed.Some? { return failed.value; }
      outcome := VerifyAndCommit(lockAt, work);
    }

    // The evidence, the body, and the evidence again.
    method Migrate(lockAt: nat) returns (work: Database, outcome: Option<Outcome>)
      requires Valid() && at == ReadSignature(lockAt)
      modifies this
      ensures Valid()
      ensures if outcome.Some? then at == Finished(outcome.value) else at == Verify(lockAt, work)
    {
      hide Run, SignatureOf;
      work := db;
      var fails := NextTurn();
      if fails { End(Failed, Fault); return work, Some(Failed); }
      var before := SignatureOf(db.rows);
      Executed(RunBody(lockAt, before));

      fails := NextTurn();
      if fails { End(Failed, Fault); return work, Some(Failed); }
      var result := body(db);
      if result.None? { End(RolledBack(lockAt), RunnerStep); return work, Some(RolledBack(lockAt)); }
      work := result.value;
      Executed(Compare(lockAt, before, work));

      fails := NextTurn();
      if fails { End(Failed, Fault); return work, Some(Failed); }
      if SignatureOf(work.rows) != before {
        End(RolledBack(lockAt), RunnerStep);
        return work, Some(RolledBack(lockAt));
      }
      Executed(Verify(lockAt, work));
      return work, None;
    }

    method VerifyAndCommit(lockAt: nat, work: Database) returns (outcome: Outcome)
      requires Valid() && at == Verify(lockAt, work)
      modifies this
      ensures Valid() && at == Finished(outcome)
    {
      hide Run, Verified;
      var fails := NextTurn();
      if fails { End(Failed, Fault); return Failed; }
      if !Verified(work.schema) { End(RolledBack(lockAt), RunnerStep); return RolledBack(lockAt); }
      Executed(Commit(lockAt, work));

      fails := NextTurn();
      if fails { End(Failed, Fault); return Failed; }
      ghost var state := State();
      outcome := Installed(lockAt, work);
      db, locked, at := work, 0, Finished(outcome);
      Record(state, RunnerStep);
    }
  }
}
