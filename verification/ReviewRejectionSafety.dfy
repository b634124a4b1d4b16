// What every run of the review/rejection migration guarantees: because it locks before it
// reads its evidence, other sessions cannot influence the verdict.
module ReviewRejectionSafety {
  import opened Options
  import opened Listing
  import C = CollectionTable
  import opened ColumnSums
  import opened RemittanceTables
  import opened ReviewRejectionMigration

  predicate WasInstalled(s: System) {
    s.runner.Finished? && s.runner.outcome.Installed?
  }

  lemma FailureLeavesOnlyTheWritersWork(s0: System, body: Body, events: seq<Event>)
    requires Initial(s0)
    ensures var s := Run(s0, body, events);
            !WasInstalled(s) ==> s.db == s0.db.(rows := ApplyAll(s0.db.rows, s.history))
  {
    RunKeepsInv(s0, body, events);
  }

  // From a partial or a full installation the run never locks a table, never reaches the body
  // and never changes the database.
  lemma OnlyAPristineSchemaIsMigrated(s0: System, body: Body, events: seq<Event>)
    requires Initial(s0) && !Pristine(s0.db.schema)
    ensures var s := Run(s0, body, events);
            && (s.runner.ProbeTables? || s.runner.ProbeInstalled? || s.runner.VerifyExisting? || s.runner.ProbePartial?
                || (s.runner.Finished? && !s.runner.outcome.Installed? && !s.runner.outcome.RolledBack?))
            && s.db == s0.db.(rows := ApplyAll(s0.db.rows, s.history))
  {
    RunKeepsInv(s0, body, events);
  }

  // For any body: a committed migration kept the aggregates of the very tables it locked, and
  // everything written after the commit is still there.
  lemma CommitKeepsTheLockedEvidence(s0: System, body: Body, events: seq<Event>)
    requires Initial(s0)
    ensures var s := Run(s0, body, events);
            WasInstalled(s) ==>
              var o := s.runner.outcome;
              && o.lockAt <= |s.history|
              && SignatureOf(o.db.rows) == SignatureOf(ApplyAll(s0.db.rows, s.history[..o.lockAt]))
              && Verified(o.db.schema)
              && s.db == o.db.(rows := ApplyAll(o.db.rows, s.history[o.lockAt..]))
  {
    hide Run, SignatureOf, Verified, Pristine, LocksExclude;
    RunKeepsInv(s0, body, events);
  }

  // ----- Other sessions cannot cause a refusal -----

  ghost predicate NoFaults(events: seq<Event>) {
    forall e | e in events :: !e.Fault?
  }

  predicate GatePassed(r: Runner) {
    match r
    case VerifyExisting => false
    case Finished(o) => o.Installed? || o.RolledBack?
    case _ => true
  }

  lemma PristineStepPasses(db0: Database, s: System, body: Body, e: Event)
    requires Pristine(db0.schema) && Inv(db0, s, body) && GatePassed(s.runner) && !e.Fault?
    ensures GatePassed(Step(s, body, e).runner)
  {
    hide SignatureOf, Verified;
  }

  lemma {:induction false} PristineRunPasses(s0: System, body: Body, events: seq<Event>)
    requires Initial(s0) && Pristine(s0.db.schema) && NoFaults(events)
    ensures GatePassed(Run(s0, body, events).runner)
  {
    if events != [] {
      hide Step, Pristine;
      var before := events[..|events| - 1];
      assert forall e | e in before :: e in events;
      PristineRunPasses(s0, body, before);
      RunKeepsInv(s0, body, before);
      PristineStepPasses(s0.db, Run(s0, body, before), body, events[|events| - 1]);
    }
  }

  // The verdict of a fault-free run depends only on the body and the tables it locked: it
  // commits if and only if the body keeps their aggregates and installs all that is verified.
  lemma OnlyTheLockedTablesDecide(s0: System, body: Body, events: seq<Event>)
    requires Initial(s0) && Pristine(s0.db.schema) && NoFaults(events) && Run(s0, body, events).runner.Finished?
    ensures var s := Run(s0, body, events);
            var o := s.runner.outcome;
            && (o.Installed? || o.RolledBack?) && o.lockAt <= |s.history|
            && (o.Installed? <==> Succeeds(Alone(s0.db, s.history, o.lockAt), body))
  {
    hide Run, SignatureOf, Verified, LocksExclude, Succeeds;
    PristineRunPasses(s0, body, events);
    RunKeepsInv(s0, body, events);
  }

  // gilbic_backend/sql/0102_add_remittance_review_and_rejection.sql: two new tables, one
  // constraint dropped, one index added, the guard function replaced; no row is touched.
  function Shipped(db: Database): Option<Database> {
    var s := db.schema;
    Some(db.(schema := s.(
      reviewColumns := Some(if s.reviewColumns.Some? then s.reviewColumns.value else REVIEW_COLUMNS),
      rejectionColumns := Some(if s.rejectionColumns.Some? then s.rejectionColumns.value else REJECTION_COLUMNS),
      reasonGuard := s.rejectionColumns.None? || s.reasonGuard,
      itemUnique := false,
      index := Some(if s.index.Some? then s.index.value else {"transaction_id", "remittance_id"}),
      guard := GUARD_MARKERS)))
  }

  // With the shipped body every fault-free run from a pristine schema commits, under every
  // interleaving, if and only if the collection trigger is enabled; and it loses no write.
  lemma ShippedCommitsUnderEveryInterleaving(s0: System, events: seq<Event>)
    requires Initial(s0) && Pristine(s0.db.schema) && NoFaults(events) && Run(s0, Shipped, events).runner.Finished?
    ensures var s := Run(s0, Shipped, events);
            && (WasInstalled(s) <==> s0.db.schema.lockTrigger == Some(C.ENABLED))
            && (s.runner.outcome.Installed? || s.runner.outcome.RolledBack?)
            && s.db.rows == ApplyAll(s0.db.rows, s.history)
  {
    OnlyTheLockedTablesDecide(s0, Shipped, events);
    NoWriteIsLost(s0, Shipped, events);
  }

  // ----- Every run can be driven to its end -----

  function Rank(r: Runner, locked: nat): nat {
    match r
    case ProbeTables => 12 case ProbeInstalled => 11 case ProbePartial => 10 case VerifyExisting => 1
    case LockNext => if locked < |LOCK_ORDER| then 9 - locked else 6
    case ReadSignature(_) => 5 case RunBody(_, _) => 4 case Compare(_, _, _) => 3 case Verify(_, _) => 2 case Commit(_, _) => 1
    case Finished(_) => 0
  }

  function RunnerSteps(n: nat): seq<Event> {
    seq(n, _ => RunnerStep)
  }

  lemma StepLowersRank(s: System, body: Body)
    requires s.held == {}
    ensures var t := Step(s, body, RunnerStep);
            && t.held == {} && t.history == s.history
            && Rank(t.runner, t.locked) <= if Rank(s.runner, s.locked) == 0 then 0 else Rank(s.runner, s.locked) - 1
  {
    hide SignatureOf, Verified, FullyInstalled, PartlyInstalled;
  }

  // Once no other session holds a table, the runner alone finishes within twelve steps.
  lemma {:induction false} RunnerFinishes(s: System, body: Body, n: nat)
    requires s.held == {}
    ensures var t := Run(s, body, RunnerSteps(n));
            && t.held == {} && t.history == s.history
            && Rank(t.runner, t.locked) <= if n <= Rank(s.runner, s.locked) then Rank(s.runner, s.locked) - n else 0
    ensures n >= 12 ==> Run(s, body, RunnerSteps(n)).runner.Finished?
  {
    if n == 0 {
      assert RunnerSteps(0) == [];
    } else {
      hide Step, Rank;
      RunnerFinishes(s, body, n - 1);
      assert RunnerSteps(n)[..n - 1] == RunnerSteps(n - 1);
      StepLowersRank(Run(s, body, RunnerSteps(n - 1)), body);
      RankBounds(s.runner, s.locked);
      RankBounds(Run(s, body, RunnerSteps(n)).runner, Run(s, body, RunnerSteps(n)).locked);
    }
  }

  lemma RankBounds(r: Runner, locked: nat)
    ensures Rank(r, locked) <= 12 && (Rank(r, locked) == 0 ==> r.Finished?)
  {
  }

  lemma {:induction false} RunConcat(s: System, body: Body, a: seq<Event>, b: seq<Event>)
    ensures Run(s, body, a + b) == Run(Run(s, body, a), body, b)
  {
    hide Step;
    if b == [] {
      assert a + b == a;
    } else {
      RunConcat(s, body, a, b[..|b| - 1]);
      assert (a + b)[..|a + b| - 1] == a + b[..|b| - 1];
    }
  }

  // Wherever a fault-free run from a pristine schema with the trigger enabled stands: once the
  // other sessions have let go of the tables, twelve more steps of the runner commit it.
  lemma ShippedRunCanBeFinished(s0: System, events: seq<Event>)
    requires Initial(s0) && Pristine(s0.db.schema) && s0.db.schema.lockTrigger == Some(C.ENABLED)
    requires NoFaults(events) && Run(s0, Shipped, events).held == {}
    ensures WasInstalled(Run(s0, Shipped, events + RunnerSteps(12)))
  {
    hide Run, Pristine, Shipped;
    RunnerFinishes(Run(s0, Shipped, events), Shipped, 12);
    RunConcat(s0, Shipped, events, RunnerSteps(12));
    ShippedCommitsUnderEveryInterleaving(s0, events + RunnerSteps(12));
  }

  ghost predicate KeepsRows(body: Body) {
    forall db: Database | body(db).Some? :: body(db).value.rows == db.rows
  }

  // A body that keeps the rows is invisible in them: in every reachable state the committed
  // rows are those the other sessions alone would have produced.
  lemma NoWriteIsLost(s0: System, body: Body, events: seq<Event>)
    requires Initial(s0) && KeepsRows(body)
    ensures var s := Run(s0, body, events);
            s.db.rows == ApplyAll(s0.db.rows, s.history)
  {
    hide Run, SignatureOf, Verified, Pristine, LocksExclude, ApplyAll, KeepsRows;
    InstalledRows(s0, body, events);
    var s := Run(s0, body, events);
    if WasInstalled(s) {
      var n := s.runner.outcome.lockAt;
      ApplyAllConcat(s0.db.rows, s.history[..n], s.history[n..]);
      assert s.history == s.history[..n] + s.history[n..];
    }
  }

  lemma InstalledRows(s0: System, body: Body, events: seq<Event>)
    requires Initial(s0) && KeepsRows(body)
    ensures var s := Run(s0, body, events);
            if WasInstalled(s) then
              var n := s.runner.outcome.lockAt;
              n <= |s.history| && s.db.rows == ApplyAll(ApplyAll(s0.db.rows, s.history[..n]), s.history[n..])
            else s.db.rows == ApplyAll(s0.db.rows, s.history)
  {
    hide Run, SignatureOf, Verified, Pristine, LocksExclude, ApplyAll;
    RunKeepsInv(s0, body, events);
  }

  // ----- What the aggregates do not see -----

  function SetAmount(t: map<int, Transaction>, k: int, amount: int): map<int, Transaction>
    requires k in t
  {
    t[k := Transaction(amount, t[k].balance, t[k].locked, t[k].remittance, t[k].other)]
  }

  // Moving cash from one receipt to another leaves the signature as it is: the evidence of 0102
  // pins totals and counts, not rows (compare CollectionTable.SnapshotIsFaithful for 0096).
  lemma SignatureIsBlindToTransfers(r: Rows, a: int, b: int, cash: int)
    requires a in r.transactions && b in r.transactions && a != b
    ensures var t := r.transactions;
            var taken := SetAmount(t, a, t[a].amount - cash);
            SignatureOf(Rows(r.remittances, r.items, SetAmount(taken, b, t[b].amount + cash))) == SignatureOf(r)
  {
    var t := r.transactions;
    hide SumTransactions, SumItems, SumRemittances;
    AmountChange(t, a, t[a].amount - cash);
    AmountChange(SetAmount(t, a, t[a].amount - cash), b, t[b].amount + cash);
  }

  lemma AmountChange(t: map<int, Transaction>, k: int, amount: int)
    requires k in t
    ensures var before, after := SumTransactions(t), SumTransactions(SetAmount(t, k, amount));
            after == TransactionSums(before.count, before.amount - t[k].amount + amount, before.balance,
                                     before.locked, before.handedOver)
  {
    hide Total, LockedIds, HandedOverIds, AmountColumn, BalanceColumn, SetAmount;
    OnlyTheAmountChanges(t, k, amount);
    TotalOfUpdate(AmountColumn(t), k, amount);
  }

  lemma OnlyTheAmountChanges(t: map<int, Transaction>, k: int, amount: int)
    requires k in t
    ensures k in AmountColumn(t) && AmountColumn(t)[k] == t[k].amount
    ensures AmountColumn(SetAmount(t, k, amount)) == AmountColumn(t)[k := amount]
    ensures BalanceColumn(SetAmount(t, k, amount)) == BalanceColumn(t)
    ensures LockedIds(SetAmount(t, k, amount)) == LockedIds(t)
    ensures HandedOverIds(SetAmount(t, k, amount)) == HandedOverIds(t)
    ensures |SetAmount(t, k, amount)| == |t|
  {
    assert SetAmount(t, k, amount).Keys == t.Keys;
  }

  lemma TotalOfUpdate(column: map<int, int>, k: int, v: int)
    requires k in column
    ensures Total(column[k := v]) == Total(column) - column[k] + v
  {
    assert column[k := v].Keys == column.Keys;
    var ids := SortedInts(column.Keys);
    assert k in ids;
    SumWithOneChange(ids, column, column[k := v], k);
  }

  lemma {:induction false} SumWithOneChange(ids: seq<int>, before: map<int, int>, after: map<int, int>, k: int)
    requires forall i | 0 <= i < |ids| :: ids[i] in before && ids[i] in after
    requires forall i | 0 <= i < |ids| && ids[i] != k :: before[ids[i]] == after[ids[i]]
    requires forall i, j | 0 <= i < j < |ids| :: ids[i] != ids[j]
    ensures C.Sum(ids, after) == C.Sum(ids, before) + if k in ids then after[k] - before[k] else 0
  {
    if ids != [] {
      SumWithOneChange(ids[1..], before, after, k);
      if ids[0] == k {
        forall j | 0 <= j < |ids| - 1 ensures ids[1..][j] != k { assert ids[j + 1] != ids[0]; }
      } else {
        assert k in ids <==> k in ids[1..];
      }
    }
  }
}
