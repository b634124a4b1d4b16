// The gates, the verification and the evidence of 0102 on the fields of the catalogue and of the
// tables themselves.
module ReviewRejectionGates {
  import opened Options
  import opened Listing
  import C = CollectionTable
  import opened RemittanceTables
  import opened ReviewRejectionMigration
  import opened ReviewRejectionSafety
  import opened ColumnSums

  ghost predicate HasTables(s: Schema) {
    Remittances in s.tables && Items in s.tables && Transactions in s.tables
  }

  // Some object of 0102 is there, or the constraint it drops is gone.
  ghost predicate AnyObject(s: Schema) {
    || s.reviewColumns.Some? || s.rejectionColumns.Some? || s.index.Some? || !s.itemUnique
    || "collection_remittance_rejections" in s.guard
  }

  ghost predicate AllObjects(s: Schema) {
    && s.reviewColumns.Some? && s.rejectionColumns.Some? && !s.itemUnique && s.index.Some?
    && "collection_remittance_rejections" in s.guard && "new_financial = old_financial" in s.guard
  }

  // Everything the verification asks for.
  ghost predicate Complete(s: Schema) {
    && s.reviewColumns.Some? && {"remittance_id", "reviewed_by_user_id", "reviewed_at"} <= s.reviewColumns.value
    && s.rejectionColumns.Some?
    && {"remittance_id", "rejected_by_user_id", "rejected_at", "reason"} <= s.rejectionColumns.value
    && s.reasonGuard && !s.itemUnique
    && s.index.Some? && "transaction_id" in s.index.value && "remittance_id" in s.index.value
    && {"collection_remittance_rejections", "new.remittance_id is null", "new.is_locked = false",
        "new_financial = old_financial"} <= s.guard
    && s.lockTrigger == Some('O')
  }

  // What a run without faults knows of the schema it started from.
  ghost predicate OnTrack(s: Schema, r: Runner) {
    match r
    case ProbeTables => true
    case ProbeInstalled => HasTables(s)
    case VerifyExisting => HasTables(s) && AllObjects(s)
    case ProbePartial => HasTables(s) && !AllObjects(s)
    case Finished(AlreadyInstalled) => HasTables(s) && AllObjects(s) && Complete(s)
    case Finished(Refused) =>
      !HasTables(s) || (AllObjects(s) && !Complete(s)) || (!AllObjects(s) && AnyObject(s))
    case Finished(Failed) => false
    case _ => HasTables(s) && !AnyObject(s)
  }

  lemma StepOnTrack(s: System, body: Body, e: Event)
    requires OnTrack(s.db.schema, s.runner) && !e.Fault?
    ensures OnTrack(s.db.schema, Step(s, body, e).runner)
  {
    hide SignatureOf;
  }

  lemma {:induction false} RunOnTrack(s0: System, body: Body, events: seq<Event>)
    requires Initial(s0) && NoFaults(events)
    ensures OnTrack(s0.db.schema, Run(s0, body, events).runner)
  {
    if events != [] {
      hide Step, OnTrack;
      var before := events[..|events| - 1];
      assert forall e | e in before :: e in events;
      RunOnTrack(s0, body, before);
      var s := Run(s0, body, before);
      if s.runner.Finished? {
        FinishedStays(s, body, events[|events| - 1]);
      } else {
        SchemaStays(s0, body, before);
        StepOnTrack(s, body, events[|events| - 1]);
      }
    } else {
      hide HasTables, AllObjects, AnyObject, Complete;
    }
  }

  lemma FinishedStays(s: System, body: Body, e: Event)
    requires s.runner.Finished?
    ensures Step(s, body, e).runner == s.runner
  {
    hide SignatureOf, Verified, FullyInstalled, PartlyInstalled;
  }

  lemma SchemaStays(s0: System, body: Body, events: seq<Event>)
    requires Initial(s0) && !Run(s0, body, events).runner.Finished?
    ensures Run(s0, body, events).db.schema == s0.db.schema
  {
    hide Run, RunnerInv, LocksExclude, ApplyAll;
    RunKeepsInv(s0, body, events);
  }

  // The verdict of every finished fault-free run, from the catalogue alone: refused without the
  // three tables; with all objects, already installed if and only if they are complete; with
  // some, refused; and only with none is a table locked.
  lemma GatesDecide(s0: System, body: Body, events: seq<Event>)
    requires Initial(s0) && NoFaults(events) && Run(s0, body, events).runner.Finished?
    ensures var o, c := Run(s0, body, events).runner.outcome, s0.db.schema;
            && (o.AlreadyInstalled? <==> HasTables(c) && AllObjects(c) && Complete(c))
            && (o.Installed? || o.RolledBack? <==> HasTables(c) && !AnyObject(c))
            && (o.Refused? <==> !HasTables(c) || (AllObjects(c) && !Complete(c)) || (!AllObjects(c) && AnyObject(c)))
  {
    RunOnTrack(s0, body, events);
  }

  // With any object there at the start, or a table missing, no reachable state, faults included,
  // is past the probes: nothing is ever locked, migrated or rolled back.
  lemma AnyObjectStopsTheRun(s0: System, body: Body, events: seq<Event>)
    requires Initial(s0) && (AnyObject(s0.db.schema) || !HasTables(s0.db.schema))
    ensures var r := Run(s0, body, events).runner;
            || r.ProbeTables? || r.ProbeInstalled? || r.VerifyExisting? || r.ProbePartial?
            || (r.Finished? && (r.outcome.AlreadyInstalled? || r.outcome.Refused? || r.outcome.Failed?))
    ensures Run(s0, body, events).db == s0.db.(rows := ApplyAll(s0.db.rows, Run(s0, body, events).history))
  {
    hide Run, ApplyAll, LocksExclude, SignatureOf, Verified, Succeeds;
    RunKeepsInv(s0, body, events);
  }

  // A commit leaves a complete catalogue.
  lemma CommitIsComplete(s0: System, body: Body, events: seq<Event>)
    requires Initial(s0) && WasInstalled(Run(s0, body, events))
    ensures Complete(Run(s0, body, events).runner.outcome.db.schema)
  {
    hide Run, SignatureOf, Pristine, LocksExclude;
    RunKeepsInv(s0, body, events);
  }

  // ----- Locks and writers -----

  ghost predicate RunnerHas(s: System, t: Table) {
    (t == Remittances && s.locked >= 1) || (t == Items && s.locked >= 2) || (t == Transactions && s.locked >= 3)
  }

  // The runner takes remittances, items and transactions in this order, each one exactly when no
  // session holds that table, whatever others are held.
  lemma NextLockIsTaken(s: System, body: Body)
    requires s.runner.LockNext? && s.locked < 3
    ensures var next := if s.locked == 0 then Remittances else if s.locked == 1 then Items else Transactions;
            Step(s, body, RunnerStep) == if exists w: nat :: (w, next) in s.held then s else s.(locked := s.locked + 1)
  {
    var next := LOCK_ORDER[s.locked];
    if h :| h in s.held && h.1 == next { assert h == (h.0, next); }
  }

  // A table the runner has not locked is another session's for the asking; its writes then take
  // effect, and it lets go of its tables, and of no other session's, when it ends.
  lemma FreeTablesCanBeWritten(s: System, body: Body, w: nat, t: Table, ops: seq<WriterOp>)
    requires !RunnerHas(s, t) && forall op | op in ops :: TableOf(op) == t
    ensures var u := Step(Step(s, body, Acquire(w, t)), body, CommitWrites(w, ops));
            && u == s.(db := s.db.(rows := ApplyAll(s.db.rows, ops)), history := s.history + ops, held := u.held)
            && forall h :: h in u.held <==> h in s.held && h.0 != w
    ensures var v := Step(Step(s, body, Acquire(w, t)), body, Rollback(w));
            v == s.(held := v.held) && forall h :: h in v.held <==> h in s.held && h.0 != w
  {
    hide ApplyAll;
    assert !LockedByRunner(s, t);
  }

  // Nor does it get a table the runner has.
  lemma LockedTablesAreNotGiven(s: System, body: Body, w: nat, t: Table)
    requires RunnerHas(s, t)
    ensures Step(s, body, Acquire(w, t)) == s
  {
    assert LOCK_ORDER[0] == Remittances && LOCK_ORDER[1] == Items && LOCK_ORDER[2] == Transactions;
  }

  // ----- The evidence, row by row -----

  lemma EmptySignature()
    ensures SignatureOf(Rows(map[], map[], map[]))
            == Signature(RemittanceSums(0, 0, 0, 0), ItemSums(0, 0, 0), TransactionSums(0, 0, 0, 0, 0))
  {
    var r: map<int, Remittance>, i: map<int, Item>, t: map<int, Transaction> := map[], map[], map[];
    SumOfNothing();
    assert TotalColumn(r) == map[] && ItemColumn(i) == map[] && AmountColumn(t) == map[] && BalanceColumn(t) == map[];
    assert WithStatus(r, "received") == {} && WithStatus(r, "submitted") == {};
    assert NamedTransactions(i) == {} && LockedIds(t) == {} && HandedOverIds(t) == {};
  }

  function Count(b: bool): nat {
    if b then 1 else 0
  }

  // What one more row adds to each figure. Together with the empty tables this says what every
  // figure of the signature is.
  lemma RemittanceCounts(r: map<int, Remittance>, id: int, x: Remittance)
    requires id !in r
    ensures var s, t := SumRemittances(r), SumRemittances(r[id := x]);
            t == RemittanceSums(s.count + 1, s.total + x.total, s.received + Count(x.status == "received"),
                                s.submitted + Count(x.status == "submitted"))
  {
    hide Total;
    assert TotalColumn(r[id := x]) == TotalColumn(r)[id := x.total];
    SumOfInsert(TotalColumn(r), id, x.total);
    hide TotalColumn, WithStatus;
    StatusCounts(r, id, x, "received");
    StatusCounts(r, id, x, "submitted");
  }

  lemma StatusCounts(r: map<int, Remittance>, id: int, x: Remittance, status: string)
    requires id !in r
    ensures |WithStatus(r[id := x], status)| == |WithStatus(r, status)| + Count(x.status == status)
  {
    assert WithStatus(r[id := x], status) == if x.status == status then WithStatus(r, status) + {id} else WithStatus(r, status);
  }

  lemma ItemCounts(r: map<int, Item>, id: int, x: Item)
    requires id !in r
    ensures var s, t := SumItems(r), SumItems(r[id := x]);
            t == ItemSums(s.count + 1, s.amount + x.amount,
                          s.transactions + Count(forall k | k in r :: r[k].transaction != x.transaction))
  {
    hide Total, NamedTransactions;
    assert ItemColumn(r[id := x]) == ItemColumn(r)[id := x.amount];
    SumOfInsert(ItemColumn(r), id, x.amount);
    NamedOnce(r, id, x);
  }

  lemma NamedOnce(r: map<int, Item>, id: int, x: Item)
    requires id !in r
    ensures |NamedTransactions(r[id := x])|
            == |NamedTransactions(r)| + Count(forall k | k in r :: r[k].transaction != x.transaction)
  {
    var more := r[id := x];
    forall t ensures t in NamedTransactions(more) <==> t in NamedTransactions(r) || t == x.transaction {
      if t in NamedTransactions(r) {
        var k :| k in r && r[k].transaction == t;
        assert more[k].transaction == t;
      }
      assert more[id].transaction == x.transaction;
    }
    assert NamedTransactions(more) == NamedTransactions(r) + {x.transaction};
    if x.transaction in NamedTransactions(r) {
      var k :| k in r && r[k].transaction == x.transaction;
      assert !(forall j | j in r :: r[j].transaction != x.transaction);
      assert NamedTransactions(more) == NamedTransactions(r);
    } else {
      forall j | j in r ensures r[j].transaction != x.transaction { assert r[j].transaction in NamedTransactions(r); }
    }
  }

  lemma TransactionCounts(r: map<int, Transaction>, id: int, x: Transaction)
    requires id !in r
    ensures var s, t := SumTransactions(r), SumTransactions(r[id := x]);
            t == TransactionSums(s.count + 1, s.amount + x.amount, s.balance + x.balance, s.locked + Count(x.locked),
                                 s.handedOver + Count(x.remittance.Some?))
  {
    hide Total, AmountColumn, BalanceColumn, LockedIds, HandedOverIds;
    MoneyColumns(r, id, x);
    SumOfInsert(AmountColumn(r), id, x.amount);
    SumOfInsert(BalanceColumn(r), id, x.balance);
    FlagCounts(r, id, x);
  }

  lemma MoneyColumns(r: map<int, Transaction>, id: int, x: Transaction)
    requires id !in r
    ensures id !in AmountColumn(r) && AmountColumn(r[id := x]) == AmountColumn(r)[id := x.amount]
    ensures id !in BalanceColumn(r) && BalanceColumn(r[id := x]) == BalanceColumn(r)[id := x.balance]
  {
  }

  lemma FlagCounts(r: map<int, Transaction>, id: int, x: Transaction)
    requires id !in r
    ensures |LockedIds(r[id := x])| == |LockedIds(r)| + Count(x.locked)
    ensures |HandedOverIds(r[id := x])| == |HandedOverIds(r)| + Count(x.remittance.Some?)
  {
    LockedStep(r, id, x);
    HandedOverStep(r, id, x);
    hide LockedIds, HandedOverIds;
  }

  lemma LockedStep(r: map<int, Transaction>, id: int, x: Transaction)
    requires id !in r
    ensures id !in LockedIds(r) && LockedIds(r[id := x]) == if x.locked then LockedIds(r) + {id} else LockedIds(r)
  {
  }

  lemma HandedOverStep(r: map<int, Transaction>, id: int, x: Transaction)
    requires id !in r
    ensures id !in HandedOverIds(r)
    ensures HandedOverIds(r[id := x]) == if x.remittance.Some? then HandedOverIds(r) + {id} else HandedOverIds(r)
  {
  }
}
