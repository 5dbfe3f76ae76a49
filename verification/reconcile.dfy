/** The reconciliation engine of App.tsx, on values: the three ledgers (sales,
    transactions, inventory) and what adding, editing and deleting a sale or a
    manual transaction does to all three at once.

    processSaleImpact reads the product (and its unit cost) from the inventory
    of the render in which the handler runs, while the stock change it queues is
    applied to the running state when React flushes the updates. The model
    therefore passes that snapshot separately: in handleUpdateSale both the
    reversal of the old sale and the application of the new one see the
    inventory as it was before the call. */
module Reconcile {
  import opened Types
  import opened Seqs
  import opened Stock
  import opened Text

  /** The application state: the three arrays App keeps in useState. */
  datatype Books = Books(sales: seq<Sale>, transactions: seq<Transaction>, inventory: seq<InventoryItem>)

  function SaleKey(s: Sale): string { s.id }

  function TxKey(t: Transaction): TxId { t.id }

  /** The ids of the live sales. */
  function SaleIds(sales: seq<Sale>): set<string>
  {
    set s | s in sales :: s.id
  }

  function HasSaleId(id: string): Sale -> bool
  {
    (s: Sale) => s.id == id
  }

  function NotSaleId(id: string): Sale -> bool
  {
    (s: Sale) => s.id != id
  }

  /** sales.find(s => s.id === id). */
  function FindSale(sales: seq<Sale>, id: string): (r: Option<Sale>)
    ensures r.Some? ==> r.value in sales && r.value.id == id
    ensures r.None? <==> id !in SaleIds(sales)
    ensures r.Some? ==> exists i :: 0 <= i < |sales| && sales[i] == r.value && forall j :: 0 <= j < i ==> sales[j].id != id
  {
    Find(sales, HasSaleId(id))
  }

  /** `sale.productId && sale.quantity`: both present, the id non-empty, the quantity non-zero. */
  predicate Linked(sale: Sale)
  {
    sale.productId.Some? && sale.productId.value != "" && sale.quantity.Some? && sale.quantity.value != 0
  }

  /** The product a sale moves, as processSaleImpact finds it in the snapshot. */
  function ProductOf(sale: Sale, snapshot: seq<InventoryItem>): (r: Option<InventoryItem>)
    ensures r.Some? ==> Linked(sale) && r.value in snapshot && r.value.id == sale.productId.value
    ensures r.None? <==> !Linked(sale) || forall i :: 0 <= i < |snapshot| ==> snapshot[i].id != sale.productId.value
  {
    if Linked(sale) then FindItem(snapshot, sale.productId.value) else None
  }

  function Multiplier(isReversal: bool): int
  {
    if isReversal then -1 else 1
  }

  /** The derived revenue line of a sale. */
  function RevenueLine(sale: Sale): Transaction
  {
    Transaction(Rev(sale.id), sale.date, sale.amount, Receita, "Venda: " + sale.description, sale.store)
  }

  /** The derived cost-of-goods line of a sale of a found product. */
  function CostLine(sale: Sale, product: InventoryItem): Transaction
    requires sale.quantity.Some?
  {
    var q := sale.quantity.value;
    Transaction(Cost(sale.id), sale.date, product.unitCost * q, CustoVariavel,
                "CMV: " + product.name + " (x" + IntText(q) + ")", sale.store)
  }

  /** The lines processSaleImpact returns for a sale that is applied (not reversed):
      always the revenue line, then the cost line exactly when the product is found. */
  function SaleTransactions(sale: Sale, snapshot: seq<InventoryItem>): (r: seq<Transaction>)
    ensures |r| == if ProductOf(sale, snapshot).Some? then 2 else 1
    ensures r[0].id == Rev(sale.id) && r[0].category == Receita
    ensures r[0].amount == sale.amount && r[0].date == sale.date && r[0].store == sale.store
    ensures |r| == 2 ==>
      r[1].id == Cost(sale.id) && r[1].category == CustoVariavel &&
      r[1].amount == ProductOf(sale, snapshot).value.unitCost * sale.quantity.value &&
      r[1].date == sale.date && r[1].store == sale.store
    ensures forall i :: 0 <= i < |r| ==> !r[i].id.Manual? && r[i].id.saleId == sale.id
    ensures DistinctKeys(r, TxKey)
  {
    match ProductOf(sale, snapshot)
    case None => [RevenueLine(sale)]
    case Some(p) => [RevenueLine(sale), CostLine(sale, p)]
  }

  /** What processSaleImpact returns. */
  function ImpactTransactions(sale: Sale, isReversal: bool, snapshot: seq<InventoryItem>): (r: seq<Transaction>)
    ensures isReversal ==> r == []
    ensures !isReversal ==> r == SaleTransactions(sale, snapshot)
  {
    if isReversal then [] else SaleTransactions(sale, snapshot)
  }

  /** The setInventory update processSaleImpact queues, applied to the running inventory:
      nothing when the sale is unlinked or its product is not in the snapshot, otherwise
      the product's stock moves by -multiplier * quantity, clamped at zero. */
  function SaleStock(inv: seq<InventoryItem>, sale: Sale, isReversal: bool, snapshot: seq<InventoryItem>): (r: seq<InventoryItem>)
    ensures ProductOf(sale, snapshot).None? ==> r == inv
    ensures ProductOf(sale, snapshot).Some? && isReversal ==>
      r == Adjust(inv, sale.productId.value, sale.quantity.value)
    ensures ProductOf(sale, snapshot).Some? && !isReversal ==>
      r == Adjust(inv, sale.productId.value, -sale.quantity.value)
  {
    match ProductOf(sale, snapshot)
    case None => inv
    case Some(_) =>
      var qtyToChange := Multiplier(isReversal) * sale.quantity.value;
      assert qtyToChange == if isReversal then -sale.quantity.value else sale.quantity.value;
      Adjust(inv, sale.productId.value, -qtyToChange)
  }

  function NotDerivedOf(saleId: string): Transaction -> bool
  {
    (t: Transaction) => t.id != Rev(saleId) && t.id != Cost(saleId)
  }

  /** transactions.filter(t => t.id !== `t-rev-${id}` && t.id !== `t-cost-${id}`). */
  function WithoutDerived(txs: seq<Transaction>, saleId: string): (r: seq<Transaction>)
    ensures forall i :: 0 <= i < |r| ==> r[i] in txs && r[i].id != Rev(saleId) && r[i].id != Cost(saleId)
    ensures forall i :: 0 <= i < |txs| && txs[i].id != Rev(saleId) && txs[i].id != Cost(saleId) ==> txs[i] in r
  {
    Filter(txs, NotDerivedOf(saleId))
  }

  /** sales.map(s => s.id === u.id ? u : s). */
  function ReplaceSale(sales: seq<Sale>, u: Sale): (r: seq<Sale>)
    ensures |r| == |sales|
    ensures forall i :: 0 <= i < |sales| ==> r[i] == if sales[i].id == u.id then u else sales[i]
  {
    if sales == [] then []
    else [if sales[0].id == u.id then u else sales[0]] + ReplaceSale(sales[1..], u)
  }

  /** handleAddSale with the random id passed in: the sale goes first, its derived lines go
      in front of the ledger, and the linked product's stock goes down. */
  function AddSale(b: Books, input: SaleInput, id: string): Books
  {
    var sale := WithId(input, id);
    Books([sale] + b.sales,
          SaleTransactions(sale, b.inventory) + b.transactions,
          SaleStock(b.inventory, sale, false, b.inventory))
  }

  /** handleUpdateSale: nothing when no sale has the id; otherwise the old sale is reversed
      and the new one applied (both against the inventory before the call), its derived
      lines are regenerated in front of the others and the sale is replaced in place. */
  function UpdateSale(b: Books, u: Sale): Books
  {
    match FindSale(b.sales, u.id)
    case None => b
    case Some(prior) =>
      var snapshot := b.inventory;
      var restocked := SaleStock(b.inventory, prior, true, snapshot);
      Books(ReplaceSale(b.sales, u),
            SaleTransactions(u, snapshot) + WithoutDerived(b.transactions, u.id),
            SaleStock(restocked, u, false, snapshot))
  }

  /** handleDeleteSale: a found sale is reversed and its derived lines dropped; the sales
      filter runs in every case. */
  function DeleteSale(b: Books, id: string): Books
  {
    var kept := Filter(b.sales, NotSaleId(id));
    match FindSale(b.sales, id)
    case None => b.(sales := kept)
    case Some(s) =>
      Books(kept, WithoutDerived(b.transactions, id), SaleStock(b.inventory, s, true, b.inventory))
  }

  /** handleAddTransaction with the random id passed in: the new line goes first. */
  function AddTransaction(b: Books, entry: TransactionInput, key: string): Books
  {
    var t := Transaction(Manual(key), entry.date, entry.amount, entry.category, entry.description, entry.store);
    b.(transactions := [t] + b.transactions)
  }

  function NotTxId(id: TxId): Transaction -> bool
  {
    (t: Transaction) => t.id != id
  }

  /** The ledger screen's delete: any line, derived ones included, is removed by id. */
  function DeleteTransaction(b: Books, id: TxId): Books
  {
    b.(transactions := Filter(b.transactions, NotTxId(id)))
  }

  /** The inventory screen hands back a whole new inventory. */
  function ReplaceInventory(b: Books, inv: seq<InventoryItem>): Books
  {
    b.(inventory := inv)
  }

  /** The state on a first visit: no sales, no transactions, the two seed products. */
  function SeedBooks(): (b: Books)
    ensures Valid(b) && StockNonNegative(b.inventory)
    ensures b.sales == [] && b.transactions == [] && |b.inventory| == 2
  {
    Books([], [], SeedInventory())
  }

  /** A ledger whose ids are unique, whose manual ids avoid the derived prefixes and whose
      derived lines all belong to one of the given sale ids. */
  ghost predicate LinesValid(txs: seq<Transaction>, saleIds: set<string>)
  {
    DistinctKeys(txs, TxKey) &&
    forall i :: 0 <= i < |txs| ==>
      (txs[i].id.Manual? ==> ManualKeyOk(txs[i].id.key)) &&
      (!txs[i].id.Manual? ==> txs[i].id.saleId in saleIds)
  }

  /** The invariant the engine keeps: sale ids are unique, and the ledger is valid with
      respect to the live sales, so no derived line outlives its sale. */
  ghost predicate Valid(b: Books)
  {
    DistinctKeys(b.sales, SaleKey) && LinesValid(b.transactions, SaleIds(b.sales))
  }

  // ---------------------------------------------------------------------------
  // Bookkeeping facts about the id sets.

  lemma SaleIdsOfFilter(sales: seq<Sale>, id: string)
    ensures SaleIds(Filter(sales, NotSaleId(id))) == SaleIds(sales) - {id}
  {
    var kept := Filter(sales, NotSaleId(id));
    forall x | x in SaleIds(sales) - {id} ensures x in SaleIds(kept) {
      var s :| s in sales && s.id == x;
      var i :| 0 <= i < |sales| && sales[i] == s;
      assert NotSaleId(id)(sales[i]);
    }
    forall x | x in SaleIds(kept) ensures x in SaleIds(sales) - {id} {
      var s :| s in kept && s.id == x;
      var i :| 0 <= i < |kept| && kept[i] == s;
    }
  }

  /** Replacing a sale in place keeps the set of ids and their distinctness. */
  lemma ReplaceSaleKeepsIds(sales: seq<Sale>, u: Sale)
    ensures SaleIds(ReplaceSale(sales, u)) == SaleIds(sales)
    ensures DistinctKeys(sales, SaleKey) ==> DistinctKeys(ReplaceSale(sales, u), SaleKey)
  {
    var r := ReplaceSale(sales, u);
    assert forall i :: 0 <= i < |r| ==> r[i].id == sales[i].id;
    forall x | x in SaleIds(r) ensures x in SaleIds(sales) {
      var s :| s in r && s.id == x;
      var i :| 0 <= i < |r| && r[i] == s;
      assert sales[i] in sales;
    }
    forall x | x in SaleIds(sales) ensures x in SaleIds(r) {
      var s :| s in sales && s.id == x;
      var i :| 0 <= i < |sales| && sales[i] == s;
      assert r[i] in r;
    }
  }

  // ---------------------------------------------------------------------------
  // The invariant is kept by every operation.

  /** Adding a sale under a fresh id keeps the books valid. */
  lemma AddSaleKeepsValid(b: Books, input: SaleInput, id: string)
    requires Valid(b) && id !in SaleIds(b.sales)
    ensures Valid(AddSale(b, input, id))
  {
    var sale := WithId(input, id);
    var r := AddSale(b, input, id);
    var d := SaleTransactions(sale, b.inventory);
    forall i | 0 <= i < |b.sales| ensures SaleKey(b.sales[i]) != SaleKey(sale) {
      assert b.sales[i] in b.sales;
    }
    DistinctKeysCons(sale, b.sales, SaleKey);
    forall i, j | 0 <= i < |d| && 0 <= j < |b.transactions| ensures TxKey(d[i]) != TxKey(b.transactions[j]) {
      assert !b.transactions[j].id.Manual? ==> b.transactions[j].id.saleId in SaleIds(b.sales);
    }
    DistinctKeysConcat(d, b.transactions, TxKey);
    assert SaleIds(r.sales) == SaleIds(b.sales) + {id};
    forall i | 0 <= i < |r.transactions| ensures
      (r.transactions[i].id.Manual? ==> ManualKeyOk(r.transactions[i].id.key)) &&
      (!r.transactions[i].id.Manual? ==> r.transactions[i].id.saleId in SaleIds(r.sales))
    {
      if i >= |d| {
        assert r.transactions[i] == b.transactions[i - |d|];
      }
    }
  }

  /** Regenerating the derived lines of a live sale keeps a valid ledger valid. */
  lemma RegeneratedLinesValid(txs: seq<Transaction>, saleIds: set<string>, u: Sale, snapshot: seq<InventoryItem>)
    requires LinesValid(txs, saleIds) && u.id in saleIds
    ensures LinesValid(SaleTransactions(u, snapshot) + WithoutDerived(txs, u.id), saleIds)
  {
    var d := SaleTransactions(u, snapshot);
    var f := WithoutDerived(txs, u.id);
    FilterKeepsDistinctKeys(txs, NotDerivedOf(u.id), TxKey);
    DistinctKeysConcat(d, f, TxKey);
    var r := d + f;
    forall i | 0 <= i < |r| ensures
      (r[i].id.Manual? ==> ManualKeyOk(r[i].id.key)) &&
      (!r[i].id.Manual? ==> r[i].id.saleId in saleIds)
    {
      if i >= |d| {
        assert r[i] == f[i - |d|] && f[i - |d|] in txs;
      }
    }
  }

  /** Updating a sale keeps the books valid. */
  lemma UpdateSaleKeepsValid(b: Books, u: Sale)
    requires Valid(b)
    ensures Valid(UpdateSale(b, u))
  {
    if FindSale(b.sales, u.id).Some? {
      ReplaceSaleKeepsIds(b.sales, u);
      RegeneratedLinesValid(b.transactions, SaleIds(b.sales), u, b.inventory);
    }
  }

  /** Deleting a sale keeps the books valid: its derived lines go with it. */
  lemma DeleteSaleKeepsValid(b: Books, id: string)
    requires Valid(b)
    ensures Valid(DeleteSale(b, id))
  {
    var r := DeleteSale(b, id);
    FilterKeepsDistinctKeys(b.sales, NotSaleId(id), SaleKey);
    SaleIdsOfFilter(b.sales, id);
    if FindSale(b.sales, id).Some? {
      var f := WithoutDerived(b.transactions, id);
      FilterKeepsDistinctKeys(b.transactions, NotDerivedOf(id), TxKey);
      forall i | 0 <= i < |f| ensures
        (f[i].id.Manual? ==> ManualKeyOk(f[i].id.key)) &&
        (!f[i].id.Manual? ==> f[i].id.saleId in SaleIds(r.sales))
      {
        assert f[i] in b.transactions;
      }
    } else {
      forall i | 0 <= i < |b.transactions| && !b.transactions[i].id.Manual?
        ensures b.transactions[i].id.saleId in SaleIds(r.sales)
      {
        assert b.transactions[i].id.saleId != id;
      }
    }
  }

  /** Adding a manual line under a fresh key that avoids the derived prefixes keeps the books valid. */
  lemma AddTransactionKeepsValid(b: Books, entry: TransactionInput, key: string)
    requires Valid(b) && ManualKeyOk(key)
    requires forall i :: 0 <= i < |b.transactions| ==> b.transactions[i].id != Manual(key)
    ensures Valid(AddTransaction(b, entry, key))
  {
    var r := AddTransaction(b, entry, key);
    DistinctKeysCons(r.transactions[0], b.transactions, TxKey);
    assert r.transactions[1..] == b.transactions;
  }

  /** Deleting any ledger line by id keeps the books valid. */
  lemma DeleteTransactionKeepsValid(b: Books, id: TxId)
    requires Valid(b)
    ensures Valid(DeleteTransaction(b, id))
  {
    FilterKeepsDistinctKeys(b.transactions, NotTxId(id), TxKey);
  }

  /** In valid books the ids as the source spells them ("t-rev-" + id, "t-cost-" + id or
      the random key) are pairwise distinct too. */
  lemma StoredIdsDistinct(b: Books)
    requires Valid(b)
    ensures forall i, j :: 0 <= i < j < |b.transactions| ==>
      IdText(b.transactions[i].id) != IdText(b.transactions[j].id)
  {
    forall i, j | 0 <= i < j < |b.transactions|
      ensures IdText(b.transactions[i].id) != IdText(b.transactions[j].id)
    {
      if IdText(b.transactions[i].id) == IdText(b.transactions[j].id) {
        IdTextInjective(b.transactions[i].id, b.transactions[j].id);
      }
    }
  }
  // ---------------------------------------------------------------------------
  // What each operation does, and what it leaves alone.

  /** Adding a sale puts it first, puts its derived lines (revenue, then cost when the
      product is found) ahead of the unchanged ledger, and moves only the linked product's
      stock: down by the quantity, clamped at zero. */
  lemma AddSaleEffects(b: Books, input: SaleInput, id: string)
    ensures var r := AddSale(b, input, id);
      var sale := WithId(input, id);
      var n := |SaleTransactions(sale, b.inventory)|;
      r.sales == [sale] + b.sales &&
      n <= |r.transactions| && r.transactions[..n] == SaleTransactions(sale, b.inventory) &&
      r.transactions[n..] == b.transactions &&
      (ProductOf(sale, b.inventory).None? ==> r.inventory == b.inventory) &&
      (ProductOf(sale, b.inventory).Some? ==>
        |r.inventory| == |b.inventory| &&
        forall i :: 0 <= i < |b.inventory| ==>
          r.inventory[i] == if b.inventory[i].id == input.productId.value
                            then b.inventory[i].(quantity := Floor0(b.inventory[i].quantity - input.quantity.value))
                            else b.inventory[i])
  {
    var sale := WithId(input, id);
    var r := AddSale(b, input, id);
    var d := SaleTransactions(sale, b.inventory);
    assert r.transactions == d + b.transactions;
    assert r.transactions[..|d|] == d;
    assert r.transactions[|d|..] == b.transactions;
  }

  /** Updating a found sale, spelled out. */
  lemma UpdateFoundSale(b: Books, u: Sale, prior: Sale)
    requires FindSale(b.sales, u.id) == Some(prior)
    ensures UpdateSale(b, u) ==
      Books(ReplaceSale(b.sales, u),
            SaleTransactions(u, b.inventory) + WithoutDerived(b.transactions, u.id),
            SaleStock(SaleStock(b.inventory, prior, true, b.inventory), u, false, b.inventory))
  {
  }

  /** The ledger after regenerating a sale's lines: the new lines first, then the old ledger
      without the sale's two derived ids, in its old order, every other line kept. */
  lemma RegeneratedLines(txs: seq<Transaction>, u: Sale, snapshot: seq<InventoryItem>)
    ensures var d := SaleTransactions(u, snapshot);
      var r := d + WithoutDerived(txs, u.id);
      r[..|d|] == d &&
      Sublist(r[|d|..], txs) &&
      (forall j :: 0 <= j < |txs| && txs[j].id != Rev(u.id) && txs[j].id != Cost(u.id) ==> txs[j] in r[|d|..]) &&
      (forall j :: |d| <= j < |r| ==> r[j].id != Rev(u.id) && r[j].id != Cost(u.id))
  {
    var d := SaleTransactions(u, snapshot);
    var f := WithoutDerived(txs, u.id);
    var r := d + f;
    assert r[..|d|] == d;
    assert r[|d|..] == f;
    FilterIsSublist(txs, NotDerivedOf(u.id));
    forall j | |d| <= j < |r| ensures r[j].id != Rev(u.id) && r[j].id != Cost(u.id) {
      assert r[j] == f[j - |d|];
    }
  }

  /** Updating: a missing id changes nothing. Otherwise the sale is replaced where it stands,
      its regenerated lines come first, and the rest of the ledger is the old ledger without
      the sale's two derived ids, in its old order, every other line kept. */
  lemma UpdateSaleEffects(b: Books, u: Sale)
    ensures FindSale(b.sales, u.id).None? ==> UpdateSale(b, u) == b
    ensures FindSale(b.sales, u.id).Some? ==>
      var r := UpdateSale(b, u);
      var n := |SaleTransactions(u, b.inventory)|;
      |r.sales| == |b.sales| &&
      (forall i :: 0 <= i < |b.sales| ==> r.sales[i] == if b.sales[i].id == u.id then u else b.sales[i]) &&
      n <= |r.transactions| &&
      r.transactions[..n] == SaleTransactions(u, b.inventory) &&
      Sublist(r.transactions[n..], b.transactions) &&
      (forall j :: 0 <= j < |b.transactions| && b.transactions[j].id != Rev(u.id) && b.transactions[j].id != Cost(u.id) ==>
        b.transactions[j] in r.transactions[n..]) &&
      (forall j :: n <= j < |r.transactions| ==> r.transactions[j].id != Rev(u.id) && r.transactions[j].id != Cost(u.id))
    ensures FindSale(b.sales, u.id).Some? ==>
      var prior := FindSale(b.sales, u.id).value;
      var inv := b.inventory;
      (ProductOf(prior, inv).Some? && ProductOf(u, inv).Some? ==>
        UpdateSale(b, u).inventory ==
          Adjust(Adjust(inv, prior.productId.value, prior.quantity.value), u.productId.value, -u.quantity.value)) &&
      (ProductOf(prior, inv).Some? && ProductOf(u, inv).None? ==>
        UpdateSale(b, u).inventory == Adjust(inv, prior.productId.value, prior.quantity.value)) &&
      (ProductOf(prior, inv).None? && ProductOf(u, inv).Some? ==>
        UpdateSale(b, u).inventory == Adjust(inv, u.productId.value, -u.quantity.value)) &&
      (ProductOf(prior, inv).None? && ProductOf(u, inv).None? ==> UpdateSale(b, u).inventory == inv)
  {
    if FindSale(b.sales, u.id).Some? {
      UpdateFoundSale(b, u, FindSale(b.sales, u.id).value);
      RegeneratedLines(b.transactions, u, b.inventory);
      UpdateSaleStock(b, u, FindSale(b.sales, u.id).value);
    }
  }

  /** The stock after an update: the old sale's product restocked by its quantity, then the
      new sale's product consumed by its quantity, each step only when that product is
      found in the inventory before the call. */
  lemma UpdateSaleStock(b: Books, u: Sale, prior: Sale)
    requires FindSale(b.sales, u.id) == Some(prior)
    ensures ProductOf(prior, b.inventory).Some? && ProductOf(u, b.inventory).Some? ==>
      UpdateSale(b, u).inventory ==
        Adjust(Adjust(b.inventory, prior.productId.value, prior.quantity.value), u.productId.value, -u.quantity.value)
    ensures ProductOf(prior, b.inventory).Some? && ProductOf(u, b.inventory).None? ==>
      UpdateSale(b, u).inventory == Adjust(b.inventory, prior.productId.value, prior.quantity.value)
    ensures ProductOf(prior, b.inventory).None? && ProductOf(u, b.inventory).Some? ==>
      UpdateSale(b, u).inventory == Adjust(b.inventory, u.productId.value, -u.quantity.value)
    ensures ProductOf(prior, b.inventory).None? && ProductOf(u, b.inventory).None? ==>
      UpdateSale(b, u).inventory == b.inventory
  {
    UpdateFoundSaleStock(b, u, prior);
    RestockThenApply(b.inventory, prior, u);
  }

  /** Reversing one sale and applying another against the same snapshot, by cases on
      which of the two products the snapshot holds. */
  lemma RestockThenApply(inv: seq<InventoryItem>, prior: Sale, u: Sale)
    ensures ProductOf(prior, inv).Some? && ProductOf(u, inv).Some? ==>
      SaleStock(SaleStock(inv, prior, true, inv), u, false, inv) ==
        Adjust(Adjust(inv, prior.productId.value, prior.quantity.value), u.productId.value, -u.quantity.value)
    ensures ProductOf(prior, inv).Some? && ProductOf(u, inv).None? ==>
      SaleStock(SaleStock(inv, prior, true, inv), u, false, inv) == Adjust(inv, prior.productId.value, prior.quantity.value)
    ensures ProductOf(prior, inv).None? && ProductOf(u, inv).Some? ==>
      SaleStock(SaleStock(inv, prior, true, inv), u, false, inv) == Adjust(inv, u.productId.value, -u.quantity.value)
    ensures ProductOf(prior, inv).None? && ProductOf(u, inv).None? ==>
      SaleStock(SaleStock(inv, prior, true, inv), u, false, inv) == inv
  {
    var restocked := SaleStock(inv, prior, true, inv);
    if ProductOf(prior, inv).Some? {
      assert restocked == Adjust(inv, prior.productId.value, prior.quantity.value);
    } else {
      assert restocked == inv;
    }
  }

  lemma UpdateFoundSaleStock(b: Books, u: Sale, prior: Sale)
    requires FindSale(b.sales, u.id) == Some(prior)
    ensures UpdateSale(b, u).inventory == SaleStock(SaleStock(b.inventory, prior, true, b.inventory), u, false, b.inventory)
  {
    UpdateFoundSale(b, u, prior);
  }

  /** Restock by the old quantity, then consume the new one, of the same found product. */
  lemma SameProductNetStock(inv: seq<InventoryItem>, prior: Sale, u: Sale)
    requires StockNonNegative(inv)
    requires Linked(prior) && Linked(u) && prior.productId == u.productId && prior.quantity.value > 0
    requires FindItem(inv, u.productId.value).Some?
    ensures SaleStock(SaleStock(inv, prior, true, inv), u, false, inv) ==
      Adjust(inv, u.productId.value, prior.quantity.value - u.quantity.value)
  {
    var pid := u.productId.value;
    var restocked := SaleStock(inv, prior, true, inv);
    assert restocked == Adjust(inv, pid, prior.quantity.value);
    assert SaleStock(restocked, u, false, inv) == Adjust(restocked, pid, -u.quantity.value);
    RestockThenConsume(inv, pid, prior.quantity.value, u.quantity.value);
  }

  /** The net stock effect of an edit that keeps the product: restocking the old quantity
      and then consuming the new one equals one clamped adjustment by their difference. */
  lemma UpdateNetStock(b: Books, u: Sale, prior: Sale)
    requires StockNonNegative(b.inventory)
    requires FindSale(b.sales, u.id) == Some(prior)
    requires Linked(prior) && Linked(u) && prior.productId == u.productId && prior.quantity.value > 0
    requires FindItem(b.inventory, u.productId.value).Some?
    ensures UpdateSale(b, u).inventory ==
      Adjust(b.inventory, u.productId.value, prior.quantity.value - u.quantity.value)
  {
    UpdateFoundSale(b, u, prior);
    SameProductNetStock(b.inventory, prior, u);
  }

  /** Reversing and re-applying the same product line leaves the stock as it was. */
  lemma SameLineStock(inv: seq<InventoryItem>, prior: Sale, u: Sale)
    requires StockNonNegative(inv)
    requires prior.productId == u.productId && prior.quantity == u.quantity
    requires u.quantity.Some? ==> u.quantity.value >= 0
    ensures SaleStock(SaleStock(inv, prior, true, inv), u, false, inv) == inv
  {
    assert ProductOf(prior, inv) == ProductOf(u, inv);
    if ProductOf(u, inv).Some? {
      SameProductNetStock(inv, prior, u);
      AdjustZero(inv, u.productId.value);
    }
  }

  /** An edit that keeps product and (non-negative) quantity leaves the inventory as it was. */
  lemma UpdateSameLineKeepsStock(b: Books, u: Sale, prior: Sale)
    requires StockNonNegative(b.inventory)
    requires FindSale(b.sales, u.id) == Some(prior)
    requires prior.productId == u.productId && prior.quantity == u.quantity
    requires u.quantity.Some? ==> u.quantity.value >= 0
    ensures UpdateSale(b, u).inventory == b.inventory
  {
    UpdateFoundSale(b, u, prior);
    SameLineStock(b.inventory, prior, u);
  }

  /** An edit of the amount alone: the stock stays, the revenue line carries the new amount,
      and the cost line is derived exactly as it would be for the unedited sale. */
  lemma AmountEditRederivesLines(b: Books, u: Sale, prior: Sale)
    requires StockNonNegative(b.inventory)
    requires FindSale(b.sales, u.id) == Some(prior)
    requires u == prior.(amount := u.amount)
    requires u.quantity.Some? ==> u.quantity.value >= 0
    ensures var r := UpdateSale(b, u);
      var before := SaleTransactions(prior, b.inventory);
      r.inventory == b.inventory &&
      |before| <= |r.transactions| &&
      r.transactions[0] == before[0].(amount := u.amount) &&
      (|before| == 2 ==> r.transactions[1] == before[1])
  {
    UpdateSameLineKeepsStock(b, u, prior);
    UpdateFoundSale(b, u, prior);
  }

  /** Deleting: the id is gone from the sales, which otherwise keep their order; a missing
      id changes nothing else; a found sale loses exactly its derived lines and its stock
      is given back, exactly when the stock was non-negative and the quantity positive. */
  lemma DeleteSaleEffects(b: Books, id: string)
    ensures var r := DeleteSale(b, id);
      SaleIds(r.sales) == SaleIds(b.sales) - {id} && Sublist(r.sales, b.sales)
    ensures FindSale(b.sales, id).None? ==> DeleteSale(b, id) == b
    ensures FindSale(b.sales, id).Some? ==>
      var r := DeleteSale(b, id);
      var s := FindSale(b.sales, id).value;
      Sublist(r.transactions, b.transactions) &&
      (forall j :: 0 <= j < |r.transactions| ==> r.transactions[j].id != Rev(id) && r.transactions[j].id != Cost(id)) &&
      (forall j :: 0 <= j < |b.transactions| && b.transactions[j].id != Rev(id) && b.transactions[j].id != Cost(id) ==>
        b.transactions[j] in r.transactions) &&
      r.inventory == SaleStock(b.inventory, s, true, b.inventory) &&
      (StockNonNegative(b.inventory) && ProductOf(s, b.inventory).Some? && s.quantity.value > 0 ==>
        forall i :: 0 <= i < |b.inventory| && b.inventory[i].id == s.productId.value ==>
          r.inventory[i].quantity == b.inventory[i].quantity + s.quantity.value)
  {
    SaleIdsOfFilter(b.sales, id);
    FilterIsSublist(b.sales, NotSaleId(id));
    match FindSale(b.sales, id) {
      case None =>
        forall i | 0 <= i < |b.sales| ensures NotSaleId(id)(b.sales[i]) {
          assert b.sales[i] in b.sales;
        }
        FilterKeepsAll(b.sales, NotSaleId(id));
      case Some(s) =>
        FilterIsSublist(b.transactions, NotDerivedOf(id));
        if StockNonNegative(b.inventory) && ProductOf(s, b.inventory).Some? && s.quantity.value > 0 {
          RestockNeverClamps(b.inventory, s.productId.value, s.quantity.value);
        }
    }
  }

  /** Deleting the same sale twice is deleting it once. */
  lemma DeleteSaleIdempotent(b: Books, id: string)
    ensures DeleteSale(DeleteSale(b, id), id) == DeleteSale(b, id)
  {
    var r := DeleteSale(b, id);
    SaleIdsOfFilter(b.sales, id);
    assert FindSale(r.sales, id).None?;
    FilterIdempotent(b.sales, NotSaleId(id));
  }

  /** Deleting a found sale, spelled out. */
  lemma DeleteFoundSale(b: Books, id: string, s: Sale)
    requires FindSale(b.sales, id) == Some(s)
    ensures DeleteSale(b, id) ==
      Books(Filter(b.sales, NotSaleId(id)), WithoutDerived(b.transactions, id), SaleStock(b.inventory, s, true, b.inventory))
  {
  }

  /** A product found in the inventory is still found after any adjustment of it. */
  lemma ProductSurvivesAdjust(inv: seq<InventoryItem>, sale: Sale, id: string, delta: int)
    ensures ProductOf(sale, Adjust(inv, id, delta)).Some? <==> ProductOf(sale, inv).Some?
  {
    if Linked(sale) {
      AdjustKeepsLookup(inv, id, delta, sale.productId.value);
    }
  }

  /** Reversing a sale right after applying it gives the stock back when the consumption
      did not clamp. */
  lemma ReverseUndoesApply(inv: seq<InventoryItem>, sale: Sale)
    requires StockNonNegative(inv)
    requires sale.productId.Some? && sale.quantity.Some? ==>
      forall i :: 0 <= i < |inv| && inv[i].id == sale.productId.value ==> sale.quantity.value <= inv[i].quantity
    ensures var after := SaleStock(inv, sale, false, inv);
      SaleStock(after, sale, true, after) == inv
  {
    var after := SaleStock(inv, sale, false, inv);
    if ProductOf(sale, inv).Some? {
      var pid := sale.productId.value;
      var q := sale.quantity.value;
      assert after == Adjust(inv, pid, -q);
      ProductSurvivesAdjust(inv, sale, pid, -q);
      assert SaleStock(after, sale, true, after) == Adjust(after, pid, q);
      ConsumeThenRestock(inv, pid, q);
    } else {
      assert after == inv;
    }
  }

  /** Filtering out a fresh sale that was put in front gives the old sales back. */
  lemma FreshSaleFilteredAway(sales: seq<Sale>, sale: Sale)
    requires sale.id !in SaleIds(sales)
    ensures Filter([sale] + sales, NotSaleId(sale.id)) == sales
  {
    forall i | 0 <= i < |sales| ensures NotSaleId(sale.id)(sales[i]) {
      assert sales[i] in sales;
    }
    FilterConcat([sale], sales, NotSaleId(sale.id));
    FilterDropsAll([sale], NotSaleId(sale.id));
    FilterKeepsAll(sales, NotSaleId(sale.id));
  }

  /** Dropping the lines of a sale that owns nothing in a valid ledger removes exactly the
      lines just put in front. */
  lemma FreshLinesFilteredAway(d: seq<Transaction>, txs: seq<Transaction>, saleIds: set<string>, id: string)
    requires LinesValid(txs, saleIds) && id !in saleIds
    requires forall i :: 0 <= i < |d| ==> !d[i].id.Manual? && d[i].id.saleId == id
    ensures WithoutDerived(d + txs, id) == txs
  {
    forall i | 0 <= i < |txs| ensures NotDerivedOf(id)(txs[i]) {
    }
    FilterConcat(d, txs, NotDerivedOf(id));
    FilterDropsAll(d, NotDerivedOf(id));
    FilterKeepsAll(txs, NotDerivedOf(id));
  }

  /** Recording a sale under a fresh id and deleting it again restores sales, ledger and
      stock, provided the sale's consumption did not hit the zero clamp. */
  lemma AddThenDeleteRestores(b: Books, input: SaleInput, id: string)
    requires Valid(b) && id !in SaleIds(b.sales) && StockNonNegative(b.inventory)
    requires input.productId.Some? && input.quantity.Some? ==>
      forall i :: 0 <= i < |b.inventory| && b.inventory[i].id == input.productId.value ==>
        input.quantity.value <= b.inventory[i].quantity
    ensures DeleteSale(AddSale(b, input, id), id) == b
  {
    var sale := WithId(input, id);
    var a := AddSale(b, input, id);
    assert FindSale(a.sales, id) == Some(sale);
    DeleteFoundSale(a, id, sale);
    FreshSaleFilteredAway(b.sales, sale);
    FreshLinesFilteredAway(SaleTransactions(sale, b.inventory), b.transactions, SaleIds(b.sales), id);
    ReverseUndoesApply(b.inventory, sale);
  }

  // ---------------------------------------------------------------------------
  // Worked cases on the seed catalogue (amounts in cents).

  /** Two units of the first seed product sold for 170.00: stock 50 becomes 48, the ledger
      gets the revenue line of 170.00 and the cost line of 2 x 45.00; deleting the sale
      gives the seed state back. */
  lemma RecordThenDeleteScenario()
    ensures var input := SaleInput(0, 17000, Fortaleza, Stela, "Venda de Camarão Rosa G", Some("p1"), Some(2));
      var a := AddSale(SeedBooks(), input, "s1");
      |a.inventory| == 2 && a.inventory[0].quantity == 48 && a.inventory[1] == SeedBooks().inventory[1] &&
      |a.transactions| == 2 &&
      a.transactions[0].category == Receita && a.transactions[0].amount == 17000 &&
      a.transactions[1].category == CustoVariavel && a.transactions[1].amount == 9000 &&
      DeleteSale(a, "s1") == SeedBooks()
  {
    var input := SaleInput(0, 17000, Fortaleza, Stela, "Venda de Camarão Rosa G", Some("p1"), Some(2));
    AdjustSpec(SeedInventory(), "p1", -2);
    AddThenDeleteRestores(SeedBooks(), input, "s1");
  }

  /** Selling more than the stock clamps it at zero, and deleting that sale restocks the full
      quantity: 50 units become 0 and then 60, so the round trip needs the stock to suffice. */
  lemma ClampedRoundTripScenario()
    ensures var input := SaleInput(0, 510000, Fortaleza, Stela, "Venda de Camarão Rosa G", Some("p1"), Some(60));
      var a := AddSale(SeedBooks(), input, "s1");
      |a.inventory| == 2 && a.inventory[0].quantity == 0 &&
      |DeleteSale(a, "s1").inventory| == 2 && DeleteSale(a, "s1").inventory[0].quantity == 60
  {
    var input := SaleInput(0, 510000, Fortaleza, Stela, "Venda de Camarão Rosa G", Some("p1"), Some(60));
    var sale := WithId(input, "s1");
    var a := AddSale(SeedBooks(), input, "s1");
    assert SeedInventory()[0].id == "p1";
    AddSaleEffects(SeedBooks(), input, "s1");
    AdjustSpec(SeedInventory(), "p1", -60);
    assert FindSale(a.sales, "s1") == Some(sale);
    ProductSurvivesAdjust(SeedInventory(), sale, "p1", -60);
    DeleteSaleEffects(a, "s1");
  }

  /** Editing a sale re-derives its cost line from the unit cost the product has now:
      after the first seed product's cost goes from 45.00 to 50.00, an edit of a two-unit
      sale that changes nothing else turns its 90.00 cost line into 100.00. */
  lemma EditRepricesCostScenario()
    ensures var input := SaleInput(0, 17000, Fortaleza, Stela, "Venda de Camarão Rosa G", Some("p1"), Some(2));
      var a := AddSale(SeedBooks(), input, "s1");
      var repriced := a.inventory[0 := a.inventory[0].(unitCost := 5000)];
      var e := UpdateSale(ReplaceInventory(a, repriced), WithId(input, "s1"));
      a.transactions[1].amount == 9000 && e.transactions[1].amount == 10000
  {
    var input := SaleInput(0, 17000, Fortaleza, Stela, "Venda de Camarão Rosa G", Some("p1"), Some(2));
    var sale := WithId(input, "s1");
    var a := AddSale(SeedBooks(), input, "s1");
    assert SeedInventory()[0].id == "p1";
    assert ProductOf(sale, SeedInventory()) == Some(SeedInventory()[0]);
    var repriced := a.inventory[0 := a.inventory[0].(unitCost := 5000)];
    var c := ReplaceInventory(a, repriced);
    assert FindSale(c.sales, "s1") == Some(sale);
    UpdateFoundSale(c, sale, sale);
    assert FindItem(repriced, "p1") == Some(repriced[0]);
  }
}
