// The gates, the verification and the verdicts of 0096 on the fields of the database and of its
// rows themselves.
module ReceiptSplitGates {
  import opened Options
  import opened CollectionTable
  import opened ReceiptSplitMigration
  import opened ReceiptSplitSafety
  import opened ColumnSums

  ghost predicate NewColumns(columns: set<string>) {
    "applied_amount" in columns && "unallocated_amount" in columns && "allocation_state" in columns
  }

  ghost predicate NoNewColumn(columns: set<string>) {
    "applied_amount" !in columns && "unallocated_amount" !in columns && "allocation_state" !in columns
  }

  ghost predicate Constraints(names: set<string>) {
    && "lending_collection_applied_amount_check" in names && "lending_collection_unallocated_amount_check" in names
    && "lending_collection_receipt_application_sum_check" in names && "lending_collection_allocation_state_check" in names
  }

  // A pass of nothing, or a payment or advance of something.
  ghost predicate Legal(r: Row) {
    if r.amount == 0 then r.entryType == "pass" else r.amount > 0 && (r.entryType == "payment" || r.entryType == "advance")
  }

  ghost predicate NullOr<T>(column: Option<T>, v: T) {
    column == None || column == Some(v)
  }

  // Everything the receipt brought in is applied, as far as the three columns say anything.
  ghost predicate Settled(r: Row) {
    if r.entryType == "pass" then r.amount == 0 && NullOr(r.applied, 0) && NullOr(r.unallocated, 0) && NullOr(r.allocation, "not_applicable")
    else (r.entryType == "payment" || r.entryType == "advance")
         && NullOr(r.applied, r.amount) && NullOr(r.unallocated, 0) && NullOr(r.allocation, "fully_allocated")
  }

  ghost predicate AllSettled(db: Db) {
    forall id | id in db.rows :: Settled(db.rows[id])
  }

  ghost predicate AllLegal(db: Db) {
    forall id | id in db.rows :: Legal(db.rows[id])
  }

  ghost predicate Reconciles(db: Db) {
    CashTotal(db) == AppliedTotal(db) && UnallocatedTotal(db) == 0
  }

  ghost predicate Shows(db: Db, count: nat) {
    db.view.Some? && |set id | id in db.rows && id !in db.view.value.hidden| == count
  }

  // The schema objects 0096 leaves behind.
  ghost predicate Objects(db: Db) {
    && db.view.Some? && NewColumns(db.columns) && Constraints(db.constraints)
    && db.lockTrigger == Some('O') && db.normalizeTrigger == Some('O')
  }

  // ----- The queries -----

  lemma LegalIff(r: Row)
    ensures ViolatesReceiptModel(r) <==> !Legal(r)
    ensures LegalReceipt(r) <==> Legal(r)
  {
  }

  lemma SettledIff(r: Row)
    ensures InvalidApplication(r) <==> !Settled(r)
  {
  }

  lemma NoViolationIff(db: Db)
    ensures NoLegacyViolation(db) <==> AllLegal(db)
  {
    hide ViolatesReceiptModel, Legal;
    forall r { LegalIff(r); }
  }

  // What each of the eight queries finds out.
  lemma ChecksAre(db: Db, expected: Option<nat>, counted: nat)
    ensures CheckPasses(db, 0, expected, counted) <==> db.view.Some?
    ensures CheckPasses(db, 1, expected, counted) <==> NewColumns(db.columns)
    ensures CheckPasses(db, 2, expected, counted) <==> Constraints(db.constraints)
    ensures CheckPasses(db, 3, expected, counted) <==> db.lockTrigger == Some('O')
    ensures CheckPasses(db, 4, expected, counted) <==> db.normalizeTrigger == Some('O')
    ensures CheckPasses(db, 5, expected, counted) <==> AllSettled(db)
    ensures CheckPasses(db, 6, expected, counted)
            <==> Reconciles(db) && (expected.Some? ==> |db.rows| == expected.value)
    ensures CheckPasses(db, 7, expected, counted) <==> Shows(db, counted)
  {
    hide InvalidApplication, Settled, CashTotal, AppliedTotal, UnallocatedTotal;
    forall r { SettledIff(r); }
    ConstraintsIff(db.constraints);
    hide Constraints;
    if db.view.Some? {
      assert (set id | id in db.rows && id !in db.view.value.hidden) == db.rows.Keys - db.view.value.hidden;
    }
  }

  lemma ConstraintsIff(names: set<string>)
    ensures names * RECEIPT_CONSTRAINTS == RECEIPT_CONSTRAINTS <==> Constraints(names)
  {
    if Constraints(names) {
      forall x | x in RECEIPT_CONSTRAINTS ensures x in names {}
    } else {
      var x :| x in RECEIPT_CONSTRAINTS && x !in names;
      assert x !in names * RECEIPT_CONSTRAINTS;
    }
  }

  // ----- What the figures are -----

  lemma NoReceipts(db: Db)
    requires db.rows == map[]
    ensures CashTotal(db) == 0 && AppliedTotal(db) == 0 && UnallocatedTotal(db) == 0
    ensures db.tableExists ==> TotalsOf(db) == Some(Totals(0, 0))
  {
    assert |db.rows| == 0;
  }

  function ValueOf(cell: Option<int>): int {
    if cell.Some? then cell.value else 0
  }

  // One more receipt adds its amount and the cells that are not NULL. Together with the empty
  // table this says what every figure of the queries is.
  lemma OneMoreReceipt(db: Db, id: int, r: Row)
    requires id !in db.rows
    ensures var more := db.(rows := db.rows[id := r]);
            && CashTotal(more) == CashTotal(db) + r.amount
            && AppliedTotal(more) == AppliedTotal(db) + ValueOf(r.applied)
            && UnallocatedTotal(more) == UnallocatedTotal(db) + ValueOf(r.unallocated)
            && (db.tableExists ==> TotalsOf(more) == Some(Totals(|db.rows| + 1, CashTotal(db) + r.amount)))
  {
    hide CashTotal, AppliedTotal, UnallocatedTotal, Total, TotalsOf, Amounts, AppliedAmounts, UnallocatedAmounts;
    var more := db.(rows := db.rows[id := r]);
    FiguresAreSums(db);
    FiguresAreSums(more);
    CashGrows(db, id, r);
    AppliedGrows(db, id, r);
    UnallocatedGrows(db, id, r);
    assert more.rows.Keys == db.rows.Keys + {id};
    assert |more.rows| == |more.rows.Keys| && |db.rows| == |db.rows.Keys|;
  }

  lemma FiguresAreSums(db: Db)
    ensures CashTotal(db) == Total(Amounts(db)) && AppliedTotal(db) == Total(AppliedAmounts(db))
    ensures UnallocatedTotal(db) == Total(UnallocatedAmounts(db))
    ensures db.tableExists ==> TotalsOf(db) == Some(Totals(|db.rows|, CashTotal(db)))
  {
    hide Sum;
    assert Amounts(db).Keys == db.rows.Keys && AppliedAmounts(db).Keys == db.rows.Keys;
    assert UnallocatedAmounts(db).Keys == db.rows.Keys;
  }

  lemma CashGrows(db: Db, id: int, r: Row)
    requires id !in db.rows
    ensures Total(Amounts(db.(rows := db.rows[id := r]))) == Total(Amounts(db)) + r.amount
  {
    hide Total;
    assert id !in Amounts(db);
    assert Amounts(db.(rows := db.rows[id := r])) == Amounts(db)[id := r.amount];
    SumOfInsert(Amounts(db), id, r.amount);
  }

  lemma AppliedGrows(db: Db, id: int, r: Row)
    requires id !in db.rows
    ensures Total(AppliedAmounts(db.(rows := db.rows[id := r]))) == Total(AppliedAmounts(db)) + ValueOf(r.applied)
  {
    hide Total;
    assert id !in AppliedAmounts(db);
    assert AppliedAmounts(db.(rows := db.rows[id := r])) == AppliedAmounts(db)[id := ValueOf(r.applied)];
    SumOfInsert(AppliedAmounts(db), id, ValueOf(r.applied));
  }

  lemma UnallocatedGrows(db: Db, id: int, r: Row)
    requires id !in db.rows
    ensures Total(UnallocatedAmounts(db.(rows := db.rows[id := r]))) == Total(UnallocatedAmounts(db)) + ValueOf(r.unallocated)
  {
    hide Total;
    assert id !in UnallocatedAmounts(db);
    assert UnallocatedAmounts(db.(rows := db.rows[id := r])) == UnallocatedAmounts(db)[id := ValueOf(r.unallocated)];
    SumOfInsert(UnallocatedAmounts(db), id, ValueOf(r.unallocated));
  }

  // A committed table has all the objects, only settled receipts, reconciled totals, the number of
  // receipts read before the lock, and a view that hides none of them.
  lemma CommitIsVerified(s0: System, body: Body, events: seq<Event>)
    requires Initial(s0) && WasInstalled(Run(s0, body, events))
    ensures var o := Run(s0, body, events).runner.outcome;
            && Objects(o.db) && AllSettled(o.db) && Reconciles(o.db)
            && |o.db.rows| == o.before.totals.value.count
            && forall id | id in o.db.rows :: id !in o.db.view.value.hidden
  {
    hide Run, EvidenceRead, Admitted, ApplyAll, CheckPasses, EvidenceHolds, Objects, AllSettled, Reconciles, Shows;
    RunKeepsInv(s0, body, events);
    var o := Run(s0, body, events).runner.outcome;
    VerifiedAll(o.before, o.db);
  }

  // For any body: a committed table is what the body made of the locked one with its trigger
  // disabled, with a trigger the body left in place enabled again.
  lemma CommitIsTheBodysTable(s0: System, body: Body, events: seq<Event>) returns (locked: Db, ran: Db)
    requires Initial(s0) && WasInstalled(Run(s0, body, events))
    ensures var s := Run(s0, body, events); var o := s.runner.outcome;
            && o.lockAt <= |s.history| && locked == ApplyAll(s0.db, s.history[..o.lockAt])
            && locked.tableExists && locked.lockTrigger == Some('O')
            && body(locked.(lockTrigger := Some('D'))) == Some(ran)
            && ran.tableExists && ran.lockTrigger.Some? && o.db == ran.(lockTrigger := Some('O'))
  {
    hide Run, EvidenceRead, ApplyAll, CheckPasses, EvidenceHolds, Verified;
    RunKeepsInv(s0, body, events);
    var s := Run(s0, body, events);
    ApplyAllKeepsSchema(s0.db, s.history[..s.runner.outcome.lockAt]);
    locked := ApplyAll(s0.db, s.history[..s.runner.outcome.lockAt]);
    ran := body(locked.(lockTrigger := Some('D'))).value;
  }

  lemma VerifiedAll(e: Evidence, db: Db)
    requires Verified(e, db, CHECKS)
    ensures Objects(db) && AllSettled(db) && Reconciles(db) && |db.rows| == e.totals.value.count
    ensures forall id | id in db.rows :: id !in db.view.value.hidden
  {
    hide CheckPasses, AllSettled, Reconciles, NewColumns, Constraints;
    ChecksAre(db, Some(e.totals.value.count), |db.rows|);
    assert CheckHolds(e, db, 0) && CheckHolds(e, db, 1) && CheckHolds(e, db, 2) && CheckHolds(e, db, 3);
    assert CheckHolds(e, db, 4) && CheckHolds(e, db, 5) && CheckHolds(e, db, 6) && CheckHolds(e, db, 7);
    ShowsAll(db);
  }

  lemma ShowsAll(db: Db)
    requires Shows(db, |db.rows|)
    ensures forall id | id in db.rows :: id !in db.view.value.hidden
  {
    var shown := set id | id in db.rows && id !in db.view.value.hidden;
    assert |shown| == |db.rows.Keys| && shown <= db.rows.Keys;
    SubsetOfSameSize(shown, db.rows.Keys);
  }

  lemma SubsetOfSameSize(a: set<int>, b: set<int>)
    requires a <= b && |a| == |b|
    ensures a == b
  {
    assert |b - a| == 0;
  }
}
