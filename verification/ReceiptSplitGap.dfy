// What the shipped body makes of a legacy table, cell by cell, and which writes between evidence
// and lock its commit survives.
module ReceiptSplitGap {
  import opened Options
  import opened CollectionTable
  import opened ReceiptSplitMigration
  import opened ReceiptSplitSafety
  import opened ReceiptSplitShipped
  import opened ReceiptSplitGates
  import opened ReceiptSplitVerdicts

  // ----- The shipped body on rows -----

  // A table as the foundation schema leaves it: untouched objects, legal receipts, empty new cells.
  lemma PristineIff(db: Db)
    ensures Pristine(db) <==>
            && Untouched(db) && AllLegal(db)
            && forall id | id in db.rows :: db.rows[id].applied == None && db.rows[id].unallocated == None
                                            && db.rows[id].allocation == None
  {
    hide LegalReceipt, Legal;
    forall r { LegalIff(r); }
    NoNewIff(db.columns);
    assert "applied_amount" in NEW_COLUMNS;
  }

  // The four constraints admit four shapes of receipt and no other.
  lemma FourShapes(r: Row)
    ensures MeetsConstraints(r) <==>
            exists applied, unallocated ::
              && r.applied == Some(applied) && r.unallocated == Some(unallocated)
              && applied >= 0 && unallocated >= 0 && applied + unallocated == r.amount
              && if r.entryType == "pass" then r.amount == 0 && r.allocation == Some("not_applicable")
                 else (r.entryType == "payment" || r.entryType == "advance")
                      && ((r.allocation == Some("fully_allocated") && unallocated == 0)
                          || (r.allocation == Some("partially_allocated") && applied > 0 && unallocated > 0)
                          || (r.allocation == Some("unallocated") && applied == 0))
  {
  }

  // The receipt after the migration, given the receipt before it.
  ghost predicate SplitRow(before: Row, after: Row) {
    && after.entryType == before.entryType && after.amount == before.amount && after.voided == before.voided
    && after.other == before.other
    && after.applied == Some(before.amount) && after.unallocated == Some(0)
    && after.allocation == Some(if before.amount == 0 then "not_applicable" else "fully_allocated")
  }

  // The migrated table on its fields.
  ghost predicate SplitTable(before: Db, after: Db) {
    && after.tableExists && after.columns == before.columns + {"applied_amount", "unallocated_amount", "allocation_state"}
    && after.rows.Keys == before.rows.Keys && (forall id | id in before.rows && id in after.rows :: SplitRow(before.rows[id], after.rows[id]))
    && after.view == Some(View({}))
    && after.constraints == before.constraints
                            + {"lending_collection_applied_amount_check", "lending_collection_unallocated_amount_check",
                               "lending_collection_receipt_application_sum_check", "lending_collection_allocation_state_check"}
    && after.lockTrigger == Some('O') && after.normalizeTrigger == Some('O')
  }

  lemma ShippedSplits(db: Db)
    requires Pristine(db)
    ensures Migrated(db, Shipped).Some? && SplitTable(db, Migrated(db, Shipped).value)
  {
    hide Migrated, Shipped;
    ShippedBackfills(db);
    forall id | id in db.rows ensures SplitRow(db.rows[id], Backfilled(db.rows[id])) {}
    hide SplitRow, Backfilled;
  }

  // A filled receipt is left as it is, and one with a NULL is given the three cells anew.
  lemma BackfillFillsNulls(r: Row)
    ensures r.applied.Some? && r.unallocated.Some? && r.allocation.Some? ==> Backfilled(r) == r
    ensures r.applied == None || r.unallocated == None || r.allocation == None ==>
              && Backfilled(r) == r.(applied := Backfilled(r).applied, unallocated := Some(0), allocation := Backfilled(r).allocation)
              && (r.entryType == "pass" ==> Backfilled(r).applied == Some(0) && Backfilled(r).allocation == Some("not_applicable"))
              && (r.entryType != "pass" ==> Backfilled(r).applied == Some(r.amount) && Backfilled(r).allocation == Some("fully_allocated"))
  {
  }

  // ----- The writers on rows -----

  // An illegal receipt is refused, and so is any update of a voided one while the trigger is up.
  lemma WriterEffect(db: Db, op: WriterOp)
    ensures var after := Apply(db, op);
            && after == db.(rows := after.rows)
            && (op.Delete? ==> after.rows == db.rows - {op.id})
            && (op.Put? ==>
                  if !Legal(op.row) || (op.id in db.rows && db.rows[op.id].voided && db.lockTrigger == Some('O')) then after == db
                  else
                    && after.rows.Keys == db.rows.Keys + {op.id}
                    && (forall id | id in db.rows && id != op.id :: after.rows[id] == db.rows[id])
                    && after.rows[op.id] == if NewColumns(db.columns) then op.row
                                            else op.row.(applied := None, unallocated := None, allocation := None))
  {
    if op.Put? { LegalIff(op.row); }
  }

  // ----- Which gaps the commit survives -----

  function VoidedPart(db: Db): Db {
    db.(rows := map id | id in db.rows && db.rows[id].voided :: db.rows[id])
  }

  lemma VoidedSelect(db: Db, columns: set<string>)
    ensures Select(db, columns, true) == Select(VoidedPart(db), columns, false)
  {
    hide ImageOf;
    assert Selected(db, true) == Selected(VoidedPart(db), false);
    if Select(db, columns, true).Some? {
      assert Select(db, columns, true).value == Select(VoidedPart(db), columns, false).value;
    }
  }

  // The voided receipts are the same, cell by cell, exactly when the second query sees no difference.
  lemma VoidedSnapshotIsFaithful(a: Db, b: Db, columns: set<string>)
    requires a.tableExists && b.tableExists && columns <= a.columns && columns <= b.columns
    ensures Select(a, columns, true) == Select(b, columns, true) <==> SameLegacy(VoidedPart(a), VoidedPart(b), columns)
  {
    VoidedSelect(a, columns);
    VoidedSelect(b, columns);
    SnapshotIffCells(VoidedPart(a), VoidedPart(b), columns);
  }

  lemma SnapshotIffCells(a: Db, b: Db, columns: set<string>)
    requires a.tableExists && b.tableExists && columns <= a.columns && columns <= b.columns
    ensures Select(a, columns, false) == Select(b, columns, false) <==> SameLegacy(a, b, columns)
  {
    assert Select(a, columns, false).Some?;
    hide SameLegacy, Select;
    if Select(a, columns, false) == Select(b, columns, false) { SnapshotIsFaithful(a, b, columns); }
    if SameLegacy(a, b, columns) { ImagesDetermineEvidence(a, b, columns); }
  }

  // A fault-free run of the shipped body from a legacy table commits if and only if the table it
  // locked shows, cell by cell, the receipts of the first read, the voided receipts of the second,
  // and the count and cash total of the third.
  lemma ShippedCommitsIffCellsAgree(s0: System, events: seq<Event>)
    requires Initial(s0) && Pristine(s0.db) && NoFaults(events) && Run(s0, Shipped, events).runner.Finished?
    ensures var s, columns := Run(s0, Shipped, events), s0.db.columns;
            var o := s.runner.outcome;
            && (o.Installed? || o.RolledBack?)
            && o.before.all.at <= o.before.voided.at <= o.before.totals.at <= o.lockAt <= |s.history|
            && var locked := Alone(s0.db, s.history, o.lockAt);
            && (o.Installed? <==>
                  && SameLegacy(Alone(s0.db, s.history, o.before.all.at), locked, columns)
                  && SameLegacy(VoidedPart(Alone(s0.db, s.history, o.before.voided.at)), VoidedPart(locked), columns)
                  && TotalsOf(Alone(s0.db, s.history, o.before.totals.at)) == TotalsOf(locked))
            && (o.RolledBack? ==> s.db == ApplyAll(s0.db, s.history))
  {
    hide Run, Alone, EvidenceHolds, Succeeds, SameLegacy, Pristine, ApplyAll;
    ShippedCommitsIffGapIsQuiet(s0, events);
    OutcomeIsDecidedUnderTheLock(s0, Shipped, events);
    FailureLeavesOnlyTheWritersWork(s0, Shipped, events);
    var s := Run(s0, Shipped, events);
    var o := s.runner.outcome;
    AloneKeepsSchema(s0.db, s.history, o.lockAt);
    EvidenceIffCells(s0.db, s.history, o.before, Alone(s0.db, s.history, o.lockAt));
  }

  lemma AloneKeepsSchema(db0: Db, history: seq<WriterOp>, n: nat)
    requires n <= |history|
    ensures Alone(db0, history, n).columns == db0.columns && Alone(db0, history, n).tableExists == db0.tableExists
    ensures Pristine(db0) ==> db0.tableExists
  {
    ApplyAllKeepsSchema(db0, history[..n]);
  }

  lemma EvidenceIffCells(db0: Db, history: seq<WriterOp>, e: Evidence, db: Db)
    requires EvidenceRead(db0, history, e) && db.tableExists && db0.columns == e.columns == db.columns && db0.tableExists
    ensures EvidenceHolds(e, db) <==>
            && SameLegacy(Alone(db0, history, e.all.at), db, e.columns)
            && SameLegacy(VoidedPart(Alone(db0, history, e.voided.at)), VoidedPart(db), e.columns)
            && TotalsOf(Alone(db0, history, e.totals.at)) == TotalsOf(db)
  {
    hide Select, TotalsOf, Alone, SameLegacy;
    AloneKeepsSchema(db0, history, e.all.at);
    AloneKeepsSchema(db0, history, e.voided.at);
    SnapshotIffCells(Alone(db0, history, e.all.at), db, e.columns);
    VoidedSnapshotIsFaithful(Alone(db0, history, e.voided.at), db, e.columns);
  }

  // Whatever a legacy table holds and whatever is written between the evidence and the lock: there
  // is a run with exactly this gap, and it commits if and only if the gap leaves every legacy cell
  // as it was. Otherwise the gap's writes are all that is left.
  lemma GapCommitsIffItLeavesNoTrace(db: Db, gap: seq<WriterOp>) returns (events: seq<Event>)
    requires Pristine(db)
    ensures var s := Run(System(db, [], {}, ProbeTable), Shipped, events);
            && NoFaults(events) && s.history == gap && s.runner.Finished?
            && (s.runner.outcome.Installed? <==> SameLegacy(db, ApplyAll(db, gap), db.columns))
            && (!s.runner.outcome.Installed? ==> s.runner.outcome.RolledBack? && s.db == ApplyAll(db, gap))
  {
    hide Run, Pristine, EvidenceHolds, Succeeds, SameLegacy, ApplyAll;
    events := GapRun(db, gap, Shipped);
    var s0 := System(db, [], {}, ProbeTable);
    var e := Run(s0, Shipped, events).runner.outcome.before;
    PristineSurvivesWriters(db, gap);
    ShippedSucceedsIffEvidenceHolds(ApplyAll(db, gap), e);
    FailureLeavesOnlyTheWritersWork(s0, Shipped, events);
    AloneKeepsSchema(db, [], 0);
    ApplyAllKeepsSchema(db, gap);
    SameEvidenceIffCells(db, ApplyAll(db, gap), e);
  }

  lemma SameEvidenceIffCells(a: Db, b: Db, e: Evidence)
    requires a.tableExists && b.tableExists && e.columns == a.columns == b.columns && EvidenceHolds(e, a)
    ensures EvidenceHolds(e, b) <==> SameLegacy(a, b, e.columns)
  {
    hide Select, TotalsOf, SameLegacy;
    SnapshotIffCells(a, b, e.columns);
    if SameLegacy(a, b, e.columns) { ImagesDetermineEvidence(a, b, e.columns); }
  }

  // One legacy cell of one receipt, changed between evidence and lock, is enough: the migration is
  // rolled back, the new cell stays and the schema is as before.
  lemma OneChangedCellRollsBack(db: Db, id: int, column: string, cell: string) returns (events: seq<Event>)
    requires Pristine(db) && id in db.rows && !db.rows[id].voided && column in db.columns
    requires column in db.rows[id].other ==> db.rows[id].other[column] != cell
    ensures var row := db.rows[id].(other := db.rows[id].other[column := cell]);
            var s := Run(System(db, [], {}, ProbeTable), Shipped, events);
            && NoFaults(events) && s.history == [Put(id, row)]
            && s.runner.Finished? && s.runner.outcome.RolledBack?
            && s.db == db.(rows := db.rows[id := row])
  {
    hide Run;
    var row := db.rows[id].(other := db.rows[id].other[column := cell]);
    events := GapCommitsIffItLeavesNoTrace(db, [Put(id, row)]);
    OneWrite(db, id, row);
    assert !SameCells(db.rows[id], row, db.columns);
  }

  lemma OneWrite(db: Db, id: int, row: Row)
    requires Pristine(db) && id in db.rows && !db.rows[id].voided
    requires row == db.rows[id].(other := row.other)
    ensures ApplyAll(db, [Put(id, row)]) == db.(rows := db.rows[id := row])
  {
    var gap := [Put(id, row)];
    assert gap[..0] == [] && ApplyAll(db, gap[..0]) == db;
  }
}
