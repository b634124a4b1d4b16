// The three remittance tables and the catalogue as the review/rejection migration sees them.
module RemittanceTables {
  import opened Options
  import opened Listing
  import opened CollectionTable
  import opened ColumnSums

  datatype Table = Remittances | Items | Transactions

  // The columns the evidence signature reads; `other` is the rest of the row.
  datatype Remittance = Remittance(total: int, status: string, other: string)
  datatype Item = Item(transaction: int, amount: int, other: string)
  datatype Transaction = Transaction(amount: int, balance: int, locked: bool, remittance: Option<int>, other: string)

  datatype Rows = Rows(remittances: map<int, Remittance>, items: map<int, Item>, transactions: map<int, Transaction>)

  // What the probes and the verifier ask the catalogue. `index` is the item index's columns,
  // `guard` the markers found in the text of the lock-guard function.
  datatype Schema = Schema(tables: set<Table>, reviewColumns: Option<set<string>>, rejectionColumns: Option<set<string>>,
                           reasonGuard: bool, itemUnique: bool, index: Option<set<string>>, guard: set<string>,
                           lockTrigger: Option<char>)

  datatype Database = Database(schema: Schema, rows: Rows)

  const REVIEW_COLUMNS := {"remittance_id", "reviewed_by_user_id", "reviewed_at"}
  const REJECTION_COLUMNS := {"remittance_id", "rejected_by_user_id", "rejected_at", "reason"}
  const REJECTIONS := "collection_remittance_rejections"
  const SAME_FINANCIAL := "new_financial = old_financial"
  const GUARD_MARKERS := {REJECTIONS, "new.remittance_id is null", "new.is_locked = false", SAME_FINANCIAL}

  predicate FullyInstalled(s: Schema) {
    && s.reviewColumns.Some? && s.rejectionColumns.Some?
    && !s.itemUnique
    && s.index.Some?
    && REJECTIONS in s.guard && SAME_FINANCIAL in s.guard
  }

  predicate PartlyInstalled(s: Schema) {
    s.reviewColumns.Some? || s.rejectionColumns.Some? || s.index.Some? || !s.itemUnique || REJECTIONS in s.guard
  }

  predicate Verified(s: Schema) {
    && s.reviewColumns.Some? && s.rejectionColumns.Some?
    && REVIEW_COLUMNS <= s.reviewColumns.value && REJECTION_COLUMNS <= s.rejectionColumns.value
    && s.reasonGuard
    && !s.itemUnique
    && s.index.Some? && {"transaction_id", "remittance_id"} <= s.index.value
    && GUARD_MARKERS <= s.guard
    && s.lockTrigger == Some(ENABLED)
  }

  // The aggregates of _evidence_signature, one row per table.
  datatype RemittanceSums = RemittanceSums(count: nat, total: int, received: nat, submitted: nat)
  datatype ItemSums = ItemSums(count: nat, amount: int, transactions: nat)
  datatype TransactionSums = TransactionSums(count: nat, amount: int, balance: int, locked: nat, handedOver: nat)
  datatype Signature = Signature(remittances: RemittanceSums, items: ItemSums, transactions: TransactionSums)

  function TotalColumn(r: map<int, Remittance>): map<int, int> {
    map id | id in r :: r[id].total
  }

  function WithStatus(r: map<int, Remittance>, status: string): set<int> {
    set id | id in r && r[id].status == status
  }

  function SumRemittances(r: map<int, Remittance>): RemittanceSums {
    RemittanceSums(|r|, Total(TotalColumn(r)), |WithStatus(r, "received")|, |WithStatus(r, "submitted")|)
  }

  function ItemColumn(r: map<int, Item>): map<int, int> {
    map id | id in r :: r[id].amount
  }

  function NamedTransactions(r: map<int, Item>): set<int> {
    set id | id in r :: r[id].transaction
  }

  function SumItems(r: map<int, Item>): ItemSums {
    ItemSums(|r|, Total(ItemColumn(r)), |NamedTransactions(r)|)
  }

  function AmountColumn(r: map<int, Transaction>): map<int, int> {
    map id | id in r :: r[id].amount
  }

  function BalanceColumn(r: map<int, Transaction>): map<int, int> {
    map id | id in r :: r[id].balance
  }

  function LockedIds(r: map<int, Transaction>): set<int> {
    set id | id in r && r[id].locked
  }

  function HandedOverIds(r: map<int, Transaction>): set<int> {
    set id | id in r && r[id].remittance.Some?
  }

  function SumTransactions(r: map<int, Transaction>): TransactionSums {
    TransactionSums(|r|, Total(AmountColumn(r)), Total(BalanceColumn(r)), |LockedIds(r)|,
                    |HandedOverIds(r)|)
  }

  function SignatureOf(r: Rows): Signature {
    Signature(SumRemittances(r.remittances), SumItems(r.items), SumTransactions(r.transactions))
  }

  datatype WriterOp =
    | PutRemittance(id: int, remittance: Remittance)
    | PutItem(id: int, item: Item)
    | PutTransaction(id: int, transaction: Transaction)
    | Remove(table: Table, id: int)

  function TableOf(op: WriterOp): Table {
    match op
    case PutRemittance(_, _) => Remittances
    case PutItem(_, _) => Items
    case PutTransaction(_, _) => Transactions
    case Remove(t, _) => t
  }

  function Apply(r: Rows, op: WriterOp): Rows {
    match op
    case PutRemittance(id, x) => r.(remittances := r.remittances[id := x])
    case PutItem(id, x) => r.(items := r.items[id := x])
    case PutTransaction(id, x) => r.(transactions := r.transactions[id := x])
    case Remove(Remittances, id) => r.(remittances := r.remittances - {id})
    case Remove(Items, id) => r.(items := r.items - {id})
    case Remove(Transactions, id) => r.(transactions := r.transactions - {id})
  }

  function ApplyAll(r: Rows, ops: seq<WriterOp>): Rows {
    if ops == [] then r else Apply(ApplyAll(r, ops[..|ops| - 1]), ops[|ops| - 1])
  }

  lemma {:induction false} ApplyAllConcat(r: Rows, a: seq<WriterOp>, b: seq<WriterOp>)
    ensures ApplyAll(r, a + b) == ApplyAll(ApplyAll(r, a), b)
  {
    if b == [] {
      assert a + b == a;
    } else {
      ApplyAllConcat(r, a, b[..|b| - 1]);
      assert (a + b)[..|a + b| - 1] == a + b[..|b| - 1];
    }
  }
}
