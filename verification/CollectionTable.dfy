// lending.collection_transactions as the receipt-split migration sees it: the committed
// table, the writes other sessions commit to it, and the queries the runner issues.
module CollectionTable {
  import opened Options
  import opened Listing

  const NEW_COLUMNS := {"applied_amount", "unallocated_amount", "allocation_state"}
  const RECEIPT_CONSTRAINTS := {
    "lending_collection_applied_amount_check",
    "lending_collection_unallocated_amount_check",
    "lending_collection_receipt_application_sum_check",
    "lending_collection_allocation_state_check"
  }

  // pg_trigger.tgenabled
  const ENABLED := 'O'
  const SUSPENDED := 'D'

  // One receipt. `other` holds the legacy columns no query computes with; the three columns
  // the migration adds are NULL (None) until it fills them. Amounts are in centavos.
  datatype Row = Row(entryType: string, amount: int, voided: bool, other: map<string, string>,
                     applied: Option<int>, unallocated: Option<int>, allocation: Option<string>)

  // The receipt application view, by the receipts its definition leaves out.
  datatype View = View(hidden: set<int>)

  datatype Db = Db(tableExists: bool, columns: set<string>, rows: map<int, Row>, view: Option<View>,
                   constraints: set<string>, lockTrigger: Option<char>, normalizeTrigger: Option<char>)

  // The CHECK of the foundation schema (0005), which every committed receipt satisfies.
  predicate LegalReceipt(r: Row) {
    || (r.entryType == "pass" && r.amount == 0)
    || (r.entryType in {"payment", "advance"} && r.amount > 0)
  }

  // ----- Writes of other sessions -----

  datatype WriterOp = Put(id: int, row: Row) | Delete(id: int)

  // Cells of columns the table does not have are not stored.
  function Stored(db: Db, row: Row): Row {
    if NEW_COLUMNS <= db.columns then row else row.(applied := None, unallocated := None, allocation := None)
  }

  // Put inserts or updates. The lock-guard trigger runs before every UPDATE and rejects any
  // change to a voided receipt (0017); it does not run for INSERT or DELETE.
  function Apply(db: Db, op: WriterOp): Db {
    match op
    case Put(id, row) =>
      if !LegalReceipt(row) then db
      else if id in db.rows && db.rows[id].voided && db.lockTrigger == Some(ENABLED) then db
      else db.(rows := db.rows[id := Stored(db, row)])
    case Delete(id) => db.(rows := db.rows - {id})
  }

  function ApplyAll(db: Db, ops: seq<WriterOp>): Db {
    if ops == [] then db else Apply(ApplyAll(db, ops[..|ops| - 1]), ops[|ops| - 1])
  }

  lemma {:induction false} ApplyAllConcat(db: Db, a: seq<WriterOp>, b: seq<WriterOp>)
    ensures ApplyAll(db, a + b) == ApplyAll(ApplyAll(db, a), b)
  {
    if b == [] {
      assert a + b == a;
    } else {
      var b' := b[..|b| - 1];
      ApplyAllConcat(db, a, b');
      assert (a + b)[..|a + b| - 1] == a + b';
    }
  }

  // Writers never touch the schema.
  lemma {:induction false} ApplyAllKeepsSchema(db: Db, ops: seq<WriterOp>)
    ensures ApplyAll(db, ops) == db.(rows := ApplyAll(db, ops).rows)
  {
    if ops != [] { ApplyAllKeepsSchema(db, ops[..|ops| - 1]); }
  }

  // A table as the foundation schema leaves it: legal receipts, none of the new cells.
  ghost predicate LegacyTable(db: Db) {
    && !(NEW_COLUMNS <= db.columns)
    && forall id | id in db.rows :: LegalReceipt(db.rows[id]) && db.rows[id].applied == None
                                    && db.rows[id].unallocated == None && db.rows[id].allocation == None
  }

  lemma {:induction false} ApplyAllKeepsLegacyTable(db: Db, ops: seq<WriterOp>)
    requires LegacyTable(db)
    ensures LegacyTable(ApplyAll(db, ops))
  {
    if ops != [] {
      ApplyAllKeepsLegacyTable(db, ops[..|ops| - 1]);
    }
  }

  // ----- Queries of the runner -----

  // The part of a receipt that lies in the given columns.
  datatype Image = Image(id: int, entryType: string, amount: int, voided: bool, other: map<string, string>)

  function ImageOf(id: int, r: Row, columns: set<string>): Image {
    Image(id, r.entryType, r.amount, r.voided, map c | c in columns && c in r.other :: r.other[c])
  }

  // Two receipts agree cell by cell in the given columns; every table has the three typed ones.
  ghost predicate SameCells(r: Row, t: Row, columns: set<string>) {
    && r.entryType == t.entryType && r.amount == t.amount && r.voided == t.voided
    && forall c | c in columns :: (c in r.other <==> c in t.other) && (c in r.other && c in t.other ==> r.other[c] == t.other[c])
  }

  // The same receipts, with the same cells in the given columns.
  ghost predicate SameLegacy(a: Db, b: Db, columns: set<string>) {
    a.rows.Keys == b.rows.Keys && forall id | id in a.rows && id in b.rows :: SameCells(a.rows[id], b.rows[id], columns)
  }

  // A snapshot's row says exactly what the cells say.
  lemma ImagesShowTheCells(id: int, r: Row, t: Row, columns: set<string>)
    ensures ImageOf(id, r, columns) == ImageOf(id, t, columns) <==> SameCells(r, t, columns)
  {
    var x, y := map c | c in columns && c in r.other :: r.other[c], map c | c in columns && c in t.other :: t.other[c];
    if x == y {
      forall c | c in columns
        ensures (c in r.other <==> c in t.other) && (c in r.other && c in t.other ==> r.other[c] == t.other[c])
      {
        assert c in x <==> c in y;
        assert c in x && c in y ==> x[c] == y[c];
      }
    }
  }

  function Selected(db: Db, voidedOnly: bool): set<int> {
    set id | id in db.rows && (voidedOnly ==> db.rows[id].voided)
  }

  // The given columns of all or only the voided receipts, by id; None is the SQL error for a
  // missing table or column.
  function Select(db: Db, columns: set<string>, voidedOnly: bool): Option<seq<Image>> {
    if !db.tableExists || !(columns <= db.columns) then None else
      var ids := SortedInts(Selected(db, voidedOnly));
      Some(seq(|ids|, i requires 0 <= i < |ids| => assert ids[i] in ids; ImageOf(ids[i], db.rows[ids[i]], columns)))
  }

  datatype Totals = Totals(count: nat, cash: int)

  function Sum(ids: seq<int>, amounts: map<int, int>): int
    requires forall i | 0 <= i < |ids| :: ids[i] in amounts
  {
    if ids == [] then 0 else amounts[ids[0]] + Sum(ids[1..], amounts)
  }

  function Amounts(db: Db): map<int, int> {
    map id | id in db.rows :: db.rows[id].amount
  }

  // A column to be summed, where NULL cells add nothing.
  function AppliedAmounts(db: Db): map<int, int> {
    map id | id in db.rows :: if db.rows[id].applied.Some? then db.rows[id].applied.value else 0
  }

  function UnallocatedAmounts(db: Db): map<int, int> {
    map id | id in db.rows :: if db.rows[id].unallocated.Some? then db.rows[id].unallocated.value else 0
  }

  // The number of receipts and their cash total.
  function TotalsOf(db: Db): Option<Totals> {
    if db.tableExists then Some(Totals(|db.rows|, Sum(SortedInts(db.rows.Keys), Amounts(db)))) else None
  }

  // ----- What a snapshot knows -----

  // Equal full snapshots mean the same receipts with the same cells: no receipt can appear,
  // vanish or change in the selected columns behind two equal snapshots.
  lemma SnapshotIsFaithful(a: Db, b: Db, columns: set<string>)
    requires Select(a, columns, false).Some?
    requires Select(a, columns, false) == Select(b, columns, false)
    ensures SameLegacy(a, b, columns)
  {
    hide Select, SameLegacy, Pictured;
    var images := Select(a, columns, false).value;
    SnapshotPictures(a, columns, images);
    SnapshotPictures(b, columns, images);
    SameImages(a, b, columns, images);
  }

  lemma SnapshotPictures(db: Db, columns: set<string>, images: seq<Image>)
    requires Select(db, columns, false) == Some(images)
    ensures Pictured(db, columns, images)
  {
    hide Select, ImageOf;
    SnapshotCovers(db, columns, false, images);
    assert Selected(db, false) == db.rows.Keys;
  }

  ghost predicate Pictured(db: Db, columns: set<string>, images: seq<Image>) {
    && (forall id | id in db.rows :: ImageOf(id, db.rows[id], columns) in images)
    && (forall m | m in images :: m.id in db.rows && m == ImageOf(m.id, db.rows[m.id], columns))
  }

  lemma SameImages(a: Db, b: Db, columns: set<string>, images: seq<Image>)
    requires Pictured(a, columns, images) && Pictured(b, columns, images)
    ensures SameLegacy(a, b, columns)
  {
    hide Select, SameCells, ImageOf;
    forall id | id in a.rows ensures id in b.rows && SameCells(a.rows[id], b.rows[id], columns) {
      var m := ImageOf(id, a.rows[id], columns);
      ImageHasId(id, a.rows[id], columns);
      assert m in images;
      ImagesShowTheCells(id, a.rows[id], b.rows[id], columns);
    }
    forall id | id in b.rows ensures id in a.rows {
      var m := ImageOf(id, b.rows[id], columns);
      ImageHasId(id, b.rows[id], columns);
      assert m in images;
    }
  }

  lemma ImageHasId(id: int, r: Row, columns: set<string>)
    ensures ImageOf(id, r, columns).id == id
  {
  }

  lemma SnapshotCovers(db: Db, columns: set<string>, voidedOnly: bool, images: seq<Image>)
    requires Select(db, columns, voidedOnly) == Some(images)
    ensures forall id | id in Selected(db, voidedOnly) :: ImageOf(id, db.rows[id], columns) in images
    ensures forall m | m in images ::
              m.id in Selected(db, voidedOnly) && m == ImageOf(m.id, db.rows[m.id], columns)
  {
    var ids := SortedInts(Selected(db, voidedOnly));
    forall id | id in Selected(db, voidedOnly) ensures ImageOf(id, db.rows[id], columns) in images {
      assert id in ids;
      var i :| 0 <= i < |ids| && ids[i] == id;
      assert images[i] == ImageOf(id, db.rows[id], columns);
    }
    forall m | m in images ensures m.id in Selected(db, voidedOnly) && m == ImageOf(m.id, db.rows[m.id], columns) {
      var i :| 0 <= i < |images| && images[i] == m;
      assert ids[i] in ids;
    }
  }

  // Conversely the table's cells in the legacy columns determine all the evidence.
  lemma ImagesDetermineEvidence(a: Db, b: Db, columns: set<string>)
    requires a.tableExists && b.tableExists && columns <= a.columns && columns <= b.columns
    requires SameLegacy(a, b, columns)
    ensures Select(a, columns, false) == Select(b, columns, false)
    ensures Select(a, columns, true) == Select(b, columns, true)
    ensures TotalsOf(a) == TotalsOf(b)
  {
    hide Select, SameCells;
    CellsDetermineSnapshot(a, b, columns, false);
    CellsDetermineSnapshot(a, b, columns, true);
    forall id | id in a.rows ensures a.rows[id].amount == b.rows[id].amount { CellsHaveAmount(a.rows[id], b.rows[id], columns); }
    assert Amounts(a) == Amounts(b);
    assert |a.rows| == |a.rows.Keys| && |b.rows| == |b.rows.Keys|;
  }

  lemma CellsHaveAmount(r: Row, t: Row, columns: set<string>)
    requires SameCells(r, t, columns)
    ensures r.amount == t.amount && r.voided == t.voided
  {
  }

  lemma CellsDetermineSnapshot(a: Db, b: Db, columns: set<string>, voidedOnly: bool)
    requires a.tableExists && b.tableExists && columns <= a.columns && columns <= b.columns
    requires SameLegacy(a, b, columns)
    ensures Select(a, columns, voidedOnly) == Select(b, columns, voidedOnly)
  {
    hide SameCells, ImageOf;
    forall id | id in a.rows ensures a.rows[id].voided == b.rows[id].voided { CellsHaveAmount(a.rows[id], b.rows[id], columns); }
    assert Selected(a, voidedOnly) == Selected(b, voidedOnly);
    var ids := SortedInts(Selected(a, voidedOnly));
    var x, y := Select(a, columns, voidedOnly).value, Select(b, columns, voidedOnly).value;
    forall i | 0 <= i < |ids| ensures x[i] == y[i] {
      assert ids[i] in ids;
      ImagesShowTheCells(ids[i], a.rows[ids[i]], b.rows[ids[i]], columns);
    }
    assert x == y;
  }

  lemma SameLegacyRefl(a: Db, columns: set<string>)
    ensures SameLegacy(a, a, columns)
  {
  }

  lemma SameLegacyTrans(a: Db, b: Db, c: Db, columns: set<string>)
    requires SameLegacy(a, b, columns) && SameLegacy(b, c, columns)
    ensures SameLegacy(a, c, columns)
  {
  }

  lemma SameLegacySym(a: Db, b: Db, columns: set<string>)
    ensures SameLegacy(a, b, columns) <==> SameLegacy(b, a, columns)
  {
  }

  // A writer does the same to two tables that agree in the legacy columns.
  lemma {:induction false} ApplyAllKeepsAgreement(a: Db, b: Db, ops: seq<WriterOp>, columns: set<string>)
    requires SameLegacy(a, b, columns) && a.lockTrigger == b.lockTrigger
    ensures SameLegacy(ApplyAll(a, ops), ApplyAll(b, ops), columns)
  {
    if ops != [] {
      hide SameLegacy, Apply;
      var before, op := ops[..|ops| - 1], ops[|ops| - 1];
      ApplyAllKeepsAgreement(a, b, before, columns);
      ApplyAllKeepsSchema(a, before);
      ApplyAllKeepsSchema(b, before);
      ApplyKeepsAgreement(ApplyAll(a, before), ApplyAll(b, before), op, columns);
    }
  }

  lemma ApplyKeepsAgreement(a: Db, b: Db, op: WriterOp, columns: set<string>)
    requires SameLegacy(a, b, columns) && a.lockTrigger == b.lockTrigger
    ensures SameLegacy(Apply(a, op), Apply(b, op), columns)
  {
    hide SameCells;
    if op.id in a.rows { CellsHaveAmount(a.rows[op.id], b.rows[op.id], columns); }
    if op.Put? { StoredCells(a, b, op.row, columns); }
  }

  lemma StoredCells(a: Db, b: Db, row: Row, columns: set<string>)
    ensures SameCells(Stored(a, row), Stored(b, row), columns) && SameCells(Stored(a, row), row, columns)
  {
  }
}
