/** The sales history screen (components/SalesList.tsx): the filter by date range and
    salesperson, the total of what is shown, and the edit dialog whose result goes to
    App's handleUpdateSale. */
module SalesList {
  import opened Types
  import opened Seqs
  import opened Stock
  import opened Reconcile
  import opened Ledger

  /** The salesperson selector: 'TODOS' or one member of Salesperson. */
  datatype SalespersonChoice = Todos | Only(person: Salesperson)

  /** The filter's test: the sale's UTC day lies within the bounds that are set, and the
      salesperson matches unless 'TODOS' is selected. */
  predicate Shown(sale: Sale, start: Option<int>, end: Option<int>, who: SalespersonChoice)
  {
    InRange(sale.date, start, end) && (who.Todos? || sale.salesperson == who.person)
  }

  function ShownBy(start: Option<int>, end: Option<int>, who: SalespersonChoice): Sale -> bool
  {
    (s: Sale) => Shown(s, start, end, who)
  }

  /** filteredSales: exactly the sales the filter passes. */
  function FilteredSales(sales: seq<Sale>, start: Option<int>, end: Option<int>, who: SalespersonChoice): (r: seq<Sale>)
    ensures forall i :: 0 <= i < |r| ==> r[i] in sales && Shown(r[i], start, end, who)
    ensures forall i :: 0 <= i < |sales| && Shown(sales[i], start, end, who) ==> sales[i] in r
  {
    Filter(sales, ShownBy(start, end, who))
  }

  /** The shown sales keep the order of the history. */
  lemma FilteredSalesInOrder(sales: seq<Sale>, start: Option<int>, end: Option<int>, who: SalespersonChoice)
    ensures Sublist(FilteredSales(sales, start, end, who), sales)
  {
    FilterIsSublist(sales, ShownBy(start, end, who));
  }

  /** "Limpar filtros": with no bounds and 'TODOS' every sale is shown. */
  lemma ClearedFilterShowsAll(sales: seq<Sale>)
    ensures FilteredSales(sales, None, None, Todos) == sales
  {
    FilterKeepsAll(sales, ShownBy(None, None, Todos));
  }

  /** totalAmount: the amounts of the shown sales, added up. */
  function TotalAmount(sales: seq<Sale>, start: Option<int>, end: Option<int>, who: SalespersonChoice): int
  {
    SumOf(FilteredSales(sales, start, end, who), SaleAmount)
  }

  /** For one date range, the total over 'TODOS' is the sum of the three salespeople's totals. */
  lemma TotalSplitsBySalesperson(sales: seq<Sale>, start: Option<int>, end: Option<int>)
    ensures TotalAmount(sales, start, end, Todos) ==
      TotalAmount(sales, start, end, Only(Stela)) + TotalAmount(sales, start, end, Only(Thiago)) +
      TotalAmount(sales, start, end, Only(Regis))
  {
    var others := (s: Sale) => Shown(s, start, end, Todos) && s.salesperson != Stela;
    SumOfSplit(sales, ShownBy(start, end, Todos), ShownBy(start, end, Only(Stela)), others, SaleAmount);
    SumOfSplit(sales, others, ShownBy(start, end, Only(Thiago)), ShownBy(start, end, Only(Regis)), SaleAmount);
  }

  // ---------------------------------------------------------------- the edit dialog

  /** The fields the edit dialog can change: the amount (parseFloat, in cents), the day,
      the store, the salesperson and the description. */
  datatype SaleEdit =
    | SetAmount(amount: Money)
    | SetDate(day: int)
    | SetStore(store: Store)
    | SetSalesperson(salesperson: Salesperson)
    | SetDescription(description: string)

  /** setEditingSale({...editingSale, field: value}): the field changes and nothing else;
      the id, the product and the quantity are never touched. */
  function ApplySaleEdit(s: Sale, e: SaleEdit): (r: Sale)
    ensures r.id == s.id && r.productId == s.productId && r.quantity == s.quantity
    ensures r.amount == (if e.SetAmount? then e.amount else s.amount)
    ensures r.date == (if e.SetDate? then DayStart(e.day) else s.date)
    ensures r.store == (if e.SetStore? then e.store else s.store)
    ensures r.salesperson == (if e.SetSalesperson? then e.salesperson else s.salesperson)
    ensures r.description == (if e.SetDescription? then e.description else s.description)
  {
    match e
    case SetAmount(a) => s.(amount := a)
    case SetDate(d) => s.(date := DayStart(d))
    case SetStore(st) => s.(store := st)
    case SetSalesperson(p) => s.(salesperson := p)
    case SetDescription(d) => s.(description := d)
  }

  /** A session in the dialog: the edits in the order they were typed. */
  function ApplySaleEdits(s: Sale, edits: seq<SaleEdit>): Sale
    decreases |edits|
  {
    if edits == [] then s else ApplySaleEdits(ApplySaleEdit(s, edits[0]), edits[1..])
  }

  lemma {:induction false} EditsKeepLine(s: Sale, edits: seq<SaleEdit>)
    ensures var r := ApplySaleEdits(s, edits);
      r.id == s.id && r.productId == s.productId && r.quantity == s.quantity
    decreases |edits|
  {
    if edits != [] {
      EditsKeepLine(ApplySaleEdit(s, edits[0]), edits[1..]);
    }
  }

  /** What handleEditSubmit leaves behind: the sale handed to onUpdate, if any, and the
      sale still being edited. */
  datatype EditOutcome = EditOutcome(updated: Option<Sale>, editing: Option<Sale>)

  /** handleEditSubmit: onUpdate is called only while a sale is being edited, with that
      sale, and the dialog closes either way. */
  function HandleEditSubmit(editing: Option<Sale>): (r: EditOutcome)
    ensures r.editing.None?
    ensures r.updated == editing
  {
    if editing.Some? then EditOutcome(Some(editing.value), None) else EditOutcome(None, None)
  }

  /** In a consistent history, the sale a row shows is the one the engine finds by its id. */
  lemma ShownSaleIsFound(b: Books, s: Sale)
    requires Valid(b) && s in b.sales
    ensures FindSale(b.sales, s.id) == Some(s)
  {
    var found := FindSale(b.sales, s.id);
    assert s.id in SaleIds(b.sales);
    var i :| 0 <= i < |b.sales| && b.sales[i] == s;
    var j :| 0 <= j < |b.sales| && b.sales[j] == found.value;
    assert SaleKey(b.sales[i]) == SaleKey(b.sales[j]);
  }

  /** Saving the dialog never moves stock: whatever was changed, the product and quantity
      are those of the stored sale, so the engine's restock and consume cancel out. */
  lemma EditKeepsInventory(b: Books, s: Sale, edits: seq<SaleEdit>)
    requires Valid(b) && s in b.sales && StockNonNegative(b.inventory)
    requires s.quantity.Some? ==> s.quantity.value >= 0
    ensures UpdateSale(b, ApplySaleEdits(s, edits)).inventory == b.inventory
  {
    var u := ApplySaleEdits(s, edits);
    EditsKeepLine(s, edits);
    ShownSaleIsFound(b, s);
    UpdateSameLineKeepsStock(b, u, s);
  }
}
