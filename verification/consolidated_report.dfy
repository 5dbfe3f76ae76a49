/** The consolidated cash-flow report (components/ConsolidatedReport.tsx): the ledger
    filtered by date range and store, newest first, and its income, expense and balance. */
module ConsolidatedReport {
  import opened Types
  import opened Seqs
  import opened Ledger

  /** The store selector: 'TODAS' or one store. */
  datatype StoreChoice = Todas | OnlyStore(store: Store)

  /** The filter's test: the line's UTC day lies within the bounds that are set, and the
      store matches unless 'TODAS' is selected. */
  predicate Kept(t: Transaction, start: Option<int>, end: Option<int>, choice: StoreChoice)
  {
    InRange(t.date, start, end) && (choice.Todas? || t.store == choice.store)
  }

  function KeptBy(start: Option<int>, end: Option<int>, choice: StoreChoice): Transaction -> bool
  {
    (t: Transaction) => Kept(t, start, end, choice)
  }

  function TxDate(t: Transaction): int
  {
    t.date
  }

  /** filteredData: the kept lines, sorted by date with the newest first. */
  function FilteredData(txs: seq<Transaction>, start: Option<int>, end: Option<int>, choice: StoreChoice): (r: seq<Transaction>)
    ensures SortedDesc(r, TxDate)
    ensures multiset(r) == multiset(Filter(txs, KeptBy(start, end, choice)))
  {
    SortDesc(Filter(txs, KeptBy(start, end, choice)), TxDate)
  }

  /** The report shows exactly the kept lines. */
  lemma FilteredDataMembers(txs: seq<Transaction>, start: Option<int>, end: Option<int>, choice: StoreChoice, t: Transaction)
    ensures t in FilteredData(txs, start, end, choice) <==> t in txs && Kept(t, start, end, choice)
  {
    var kept := Filter(txs, KeptBy(start, end, choice));
    assert t in FilteredData(txs, start, end, choice) <==> t in multiset(kept);
    if t in txs && Kept(t, start, end, choice) {
      var i :| 0 <= i < |txs| && txs[i] == t;
    }
  }

  /** summary: one pass over the lines, RECEITA into income and every other category into
      expense, the balance recomputed at each step. */
  method Summary(data: seq<Transaction>) returns (income: int, expense: int, balance: int)
    ensures income == Income(data) && expense == Expenses(data)
    ensures balance == income - expense
  {
    income, expense, balance := 0, 0, 0;
    for i := 0 to |data|
      invariant income == Income(data[..i]) && expense == Expenses(data[..i])
      invariant balance == income - expense
    {
      var curr := data[i];
      FilterSumSnoc(data, i, IsIncome, TxAmount);
      FilterSumSnoc(data, i, IsExpense, TxAmount);
      if curr.category == Receita {
        income := income + curr.amount;
      } else {
        expense := expense + curr.amount;
      }
      balance := income - expense;
    }
    assert data[..|data|] == data;
  }

  /** The order the report sorts into changes neither total. */
  lemma TotalsIgnoreOrder(s: seq<Transaction>, t: seq<Transaction>)
    requires multiset(s) == multiset(t)
    ensures Income(s) == Income(t) && Expenses(s) == Expenses(t)
  {
    FilterPermutation(s, t, IsIncome);
    SumOfPermutation(Filter(s, IsIncome), Filter(t, IsIncome), TxAmount);
    FilterPermutation(s, t, IsExpense);
    SumOfPermutation(Filter(s, IsExpense), Filter(t, IsExpense), TxAmount);
  }

  /** The summary of the report accounts for every kept line once: income and expense
      together are the kept amounts, each total is that of the kept lines in ledger order,
      and the balance is the kept ledger with every expense counted negatively. */
  lemma SummaryAccountsForAll(txs: seq<Transaction>, start: Option<int>, end: Option<int>, choice: StoreChoice)
    ensures var data := FilteredData(txs, start, end, choice);
      var kept := Filter(txs, KeptBy(start, end, choice));
      Income(data) == Income(kept) && Expenses(data) == Expenses(kept) &&
      Income(data) + Expenses(data) == SumOf(kept, TxAmount) &&
      Income(data) - Expenses(data) == SumOf(kept, SignedAmount)
  {
    var kept := Filter(txs, KeptBy(start, end, choice));
    TotalsIgnoreOrder(FilteredData(txs, start, end, choice), kept);
    IncomePlusExpenses(kept);
    BalanceIsSignedSum(kept);
  }

  /** With no bounds and 'TODAS', the report covers the whole ledger, so its summary is
      the dashboard's revenue and expenses. */
  lemma UnfilteredSummaryIsLedger(txs: seq<Transaction>)
    ensures Income(FilteredData(txs, None, None, Todas)) == Income(txs)
    ensures Expenses(FilteredData(txs, None, None, Todas)) == Expenses(txs)
  {
    FilterKeepsAll(txs, KeptBy(None, None, Todas));
    TotalsIgnoreOrder(FilteredData(txs, None, None, Todas), txs);
  }
}
