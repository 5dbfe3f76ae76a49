/** The App component's state and handlers: the three collections held in
    useState become fields that each handler replaces, and every handler is
    proved to compute exactly the Reconcile function of the same name.

    A handler runs against the values of the render it was created in; the
    setInventory updaters it queues run afterwards on the running inventory.
    The handlers below take the render's inventory as `snapshot` before any
    update and apply each queued updater to the field in the order queued. */
module AppState {
  import opened Types
  import opened Seqs
  import opened Stock
  import opened Reconcile

  class App {
    var sales: seq<Sale>
    var transactions: seq<Transaction>
    var inventory: seq<InventoryItem>

    /** The three collections as one value. */
    function State(): Books
      reads this
    {
      Books(sales, transactions, inventory)
    }

    /** A first visit: nothing stored yet, so no sales, no transactions and the seed catalogue. */
    constructor()
      ensures State() == SeedBooks()
    {
      sales := [];
      transactions := [];
      inventory := SeedInventory();
    }

    /** The updater prev => prev.map(...) that processSaleImpact queues, applied to the
        running inventory one item at a time. */
    method ApplyStockChange(productId: string, qtyToChange: int)
      modifies this`inventory
      ensures inventory == Adjust(old(inventory), productId, -qtyToChange)
    {
      var prev := inventory;
      var next: seq<InventoryItem> := [];
      var i := 0;
      while i < |prev|
        invariant 0 <= i <= |prev|
        invariant |next| == i
        invariant forall k :: 0 <= k < i ==> next[k] == AdjustItem(prev[k], productId, -qtyToChange)
      {
        var item := prev[i];
        if item.id == productId {
          next := next + [item.(quantity := Floor0(item.quantity - qtyToChange))];
        } else {
          next := next + [item];
        }
        i := i + 1;
      }
      assert next == Adjust(prev, productId, -qtyToChange);
      inventory := next;
    }

    /** processSaleImpact: builds the list of derived lines by pushing onto it, and applies
        the stock change for a linked sale whose product is in the snapshot. */
    method ProcessSaleImpact(sale: Sale, isReversal: bool, snapshot: seq<InventoryItem>) returns (transactionUpdates: seq<Transaction>)
      modifies this`inventory
      ensures transactionUpdates == ImpactTransactions(sale, isReversal, snapshot)
      ensures inventory == SaleStock(old(inventory), sale, isReversal, snapshot)
    {
      var multiplier := Multiplier(isReversal);
      transactionUpdates := [];
      if !isReversal {
        transactionUpdates := transactionUpdates + [RevenueLine(sale)];
      }
      if sale.productId.Some? && sale.productId.value != "" && sale.quantity.Some? && sale.quantity.value != 0 {
        var product := FindItem(snapshot, sale.productId.value);
        if product.Some? {
          var qtyToChange := multiplier * sale.quantity.value;
          assert qtyToChange == if isReversal then -sale.quantity.value else sale.quantity.value;
          ApplyStockChange(sale.productId.value, qtyToChange);
          if !isReversal {
            transactionUpdates := transactionUpdates + [CostLine(sale, product.value)];
          }
        }
      }
    }

    /** handleAddSale, with the random id passed in. */
    method HandleAddSale(newSale: SaleInput, id: string) returns (sale: Sale)
      modifies this
      ensures sale == WithId(newSale, id)
      ensures State() == AddSale(old(State()), newSale, id)
      ensures Valid(old(State())) && id !in SaleIds(old(sales)) ==> Valid(State())
    {
      ghost var before := State();
      sale := WithId(newSale, id);
      var snapshot := inventory;
      var newFinancials := ProcessSaleImpact(sale, false, snapshot);
      sales := [sale] + sales;
      transactions := newFinancials + transactions;
      if Valid(before) && id !in SaleIds(before.sales) {
        AddSaleKeepsValid(before, newSale, id);
      }
    }

    /** handleUpdateSale: a no-op for an unknown id. */
    method HandleUpdateSale(updatedSale: Sale)
      modifies this
      ensures State() == UpdateSale(old(State()), updatedSale)
      ensures Valid(old(State())) ==> Valid(State())
    {
      ghost var before := State();
      if Valid(before) {
        UpdateSaleKeepsValid(before, updatedSale);
      }
      var oldSale := FindSale(sales, updatedSale.id);
      if oldSale.None? {
        return;
      }
      var snapshot := inventory;
      var _ := ProcessSaleImpact(oldSale.value, true, snapshot);
      var filteredTransactions := WithoutDerived(transactions, updatedSale.id);
      var newFinancials := ProcessSaleImpact(updatedSale, false, snapshot);
      sales := ReplaceSale(sales, updatedSale);
      transactions := newFinancials + filteredTransactions;
    }

    /** handleDeleteSale. */
    method HandleDeleteSale(id: string)
      modifies this
      ensures State() == DeleteSale(old(State()), id)
      ensures Valid(old(State())) ==> Valid(State())
    {
      ghost var before := State();
      if Valid(before) {
        DeleteSaleKeepsValid(before, id);
      }
      var saleToDelete := FindSale(sales, id);
      if saleToDelete.Some? {
        var snapshot := inventory;
        var _ := ProcessSaleImpact(saleToDelete.value, true, snapshot);
        transactions := WithoutDerived(transactions, id);
      }
      sales := Filter(sales, NotSaleId(id));
    }

    /** handleAddTransaction, with the random id passed in. */
    method HandleAddTransaction(newEntry: TransactionInput, key: string) returns (transaction: Transaction)
      modifies this`transactions
      ensures transaction.id == Manual(key) && transaction.amount == newEntry.amount
      ensures transaction.category == newEntry.category && transaction.date == newEntry.date
      ensures transaction.description == newEntry.description && transaction.store == newEntry.store
      ensures State() == AddTransaction(old(State()), newEntry, key)
      ensures (Valid(old(State())) && ManualKeyOk(key) &&
               forall i :: 0 <= i < |old(transactions)| ==> old(transactions)[i].id != Manual(key)) ==>
              Valid(State())
    {
      ghost var before := State();
      transaction := Transaction(Manual(key), newEntry.date, newEntry.amount, newEntry.category,
                                 newEntry.description, newEntry.store);
      transactions := [transaction] + transactions;
      if Valid(before) && ManualKeyOk(key) && (forall i :: 0 <= i < |before.transactions| ==> before.transactions[i].id != Manual(key)) {
        AddTransactionKeepsValid(before, newEntry, key);
      }
    }

    /** The ledger screen's delete: t => t.filter(x => x.id !== id). */
    method DeleteTransaction(id: TxId)
      modifies this`transactions
      ensures State() == Reconcile.DeleteTransaction(old(State()), id)
      ensures Valid(old(State())) ==> Valid(State())
    {
      ghost var before := State();
      transactions := Filter(transactions, NotTxId(id));
      if Valid(before) {
        DeleteTransactionKeepsValid(before, id);
      }
    }

    /** The inventory screen's onUpdate, which is setInventory itself. */
    method SetInventory(items: seq<InventoryItem>)
      modifies this`inventory
      ensures State() == ReplaceInventory(old(State()), items)
      ensures Valid(old(State())) ==> Valid(State())
    {
      inventory := items;
    }
  }
}
