/** The dashboard (components/Dashboard.tsx): sales and expenses per store, the ledger
    per category, the low-stock list and the revenue, expense and net-profit cards. */
module Dashboard {
  import opened Types
  import opened Seqs
  import opened Ledger

  // ---------------------------------------------------------------- storeData

  /** One bar group of the store chart. */
  datatype StoreRow = StoreRow(name: Store, vendas: Money, despesas: Money)

  function SaleAt(store: Store): Sale -> bool
  {
    (s: Sale) => s.store == store
  }

  /** sales.filter(s => s.store === store), summed. */
  function StoreSales(sales: seq<Sale>, store: Store): int
  {
    SumOf(Filter(sales, SaleAt(store)), SaleAmount)
  }

  function ExpenseAt(store: Store): Transaction -> bool
  {
    (t: Transaction) => t.store == store && !IsRevenue(t.category)
  }

  /** transactions.filter(t => t.store === store && t.category !== RECEITA), summed. */
  function StoreExpenses(txs: seq<Transaction>, store: Store): int
  {
    SumOf(Filter(txs, ExpenseAt(store)), TxAmount)
  }

  /** storeData: one row per store, in the enum's order. */
  function StoreData(sales: seq<Sale>, txs: seq<Transaction>): (r: seq<StoreRow>)
    ensures |r| == |Stores()|
    ensures forall i :: 0 <= i < |r| ==>
      r[i].name == Stores()[i] && r[i].vendas == StoreSales(sales, r[i].name) &&
      r[i].despesas == StoreExpenses(txs, r[i].name)
  {
    var stores := Stores();
    seq(|stores|, i requires 0 <= i < |stores| =>
      StoreRow(stores[i], StoreSales(sales, stores[i]), StoreExpenses(txs, stores[i])))
  }

  /** Every store appears in exactly one row. */
  lemma OneRowPerStore(sales: seq<Sale>, txs: seq<Transaction>, store: Store)
    ensures exists i :: 0 <= i < |StoreData(sales, txs)| && StoreData(sales, txs)[i].name == store
    ensures forall i, j :: 0 <= i < j < |StoreData(sales, txs)| ==> StoreData(sales, txs)[i].name != StoreData(sales, txs)[j].name
  {
    var r := StoreData(sales, txs);
    assert store in Stores();
    var i :| 0 <= i < |Stores()| && Stores()[i] == store;
    assert r[i].name == store;
  }

  function OtherStoreSale(s: Sale): bool
  {
    s.store != Fortaleza
  }

  function AnySale(s: Sale): bool
  {
    true
  }

  /** The sales column adds up to the total of all sales: each sale has exactly one store. */
  lemma StoreSalesAddUp(sales: seq<Sale>)
    ensures StoreSales(sales, Fortaleza) + StoreSales(sales, Jaguaruana) + StoreSales(sales, Direta) ==
      SumOf(sales, SaleAmount)
  {
    SumOfSplit(sales, AnySale, SaleAt(Fortaleza), OtherStoreSale, SaleAmount);
    SumOfSplit(sales, OtherStoreSale, SaleAt(Jaguaruana), SaleAt(Direta), SaleAmount);
    FilterKeepsAll(sales, AnySale);
  }

  function OtherStoreExpense(t: Transaction): bool
  {
    t.store != Fortaleza && !IsRevenue(t.category)
  }

  /** The expense column adds up to the ledger's expenses: each expense line has exactly
      one store. */
  lemma StoreExpensesAddUp(txs: seq<Transaction>)
    ensures StoreExpenses(txs, Fortaleza) + StoreExpenses(txs, Jaguaruana) + StoreExpenses(txs, Direta) ==
      Expenses(txs)
  {
    SumOfSplit(txs, IsExpense, ExpenseAt(Fortaleza), OtherStoreExpense, TxAmount);
    SumOfSplit(txs, OtherStoreExpense, ExpenseAt(Jaguaruana), ExpenseAt(Direta), TxAmount);
  }

  /** The store chart accounts for every sale and every expense once: its sales column adds
      up to the total of all sales and its expense column to the ledger's expenses. */
  lemma StoreColumnsAddUp(sales: seq<Sale>, txs: seq<Transaction>)
    ensures var r := StoreData(sales, txs);
      r[0].vendas + r[1].vendas + r[2].vendas == SumOf(sales, SaleAmount) &&
      r[0].despesas + r[1].despesas + r[2].despesas == Expenses(txs)
  {
    StoreSalesAddUp(sales);
    StoreExpensesAddUp(txs);
  }

  // ---------------------------------------------------------------- categoryData

  /** One slice of the category pie. */
  datatype CategorySlice = CategorySlice(name: FinancialCategory, value: Money)

  function TxCategory(t: Transaction): FinancialCategory
  {
    t.category
  }

  /** What the forEach accumulates in totals[category]. */
  function CategoryTotal(txs: seq<Transaction>, c: FinancialCategory): int
  {
    SumOf(Filter(txs, KeyIs(TxCategory, c)), TxAmount)
  }

  /** The first step of categoryData: a totals record seeded with 0 for every category. */
  method ZeroTotals() returns (totals: map<FinancialCategory, int>)
    ensures forall c :: c in totals && totals[c] == 0
  {
    var cats := Categories();
    totals := map[];
    for i := 0 to |cats|
      invariant forall m :: 0 <= m < i ==> cats[m] in totals
      invariant forall c :: c in totals ==> totals[c] == 0
    {
      totals := totals[cats[i] := 0];
    }
    forall c ensures c in totals {
      assert cats[CategoryRank(c)] == c;
    }
  }

  /** One more line adds its amount to its own category's total only. */
  lemma CategoryTotalSnoc(txs: seq<Transaction>, j: nat)
    requires j < |txs|
    ensures forall c ::
              CategoryTotal(txs[..j + 1], c) == CategoryTotal(txs[..j], c) + (if txs[j].category == c then txs[j].amount else 0)
  {
    forall c ensures CategoryTotal(txs[..j + 1], c) ==
      CategoryTotal(txs[..j], c) + (if txs[j].category == c then txs[j].amount else 0) {
      FilterSumSnoc(txs, j, KeyIs(TxCategory, c), TxAmount);
    }
  }

  /** The first two steps of categoryData: the seeded totals record, then the forEach that
      adds each line's amount to its category's entry. */
  method CategoryTotals(txs: seq<Transaction>) returns (totals: map<FinancialCategory, int>)
    ensures forall c :: c in totals && totals[c] == CategoryTotal(txs, c)
  {
    totals := ZeroTotals();
    for j := 0 to |txs|
      invariant forall c :: c in totals && totals[c] == CategoryTotal(txs[..j], c)
    {
      CategoryTotalSnoc(txs, j);
      totals := AddLine(totals, txs[j]);
    }
    assert txs[..|txs|] == txs;
  }

  /** The body of the forEach: totals[t.category] += t.amount when the entry exists. */
  method AddLine(totals: map<FinancialCategory, int>, t: Transaction) returns (r: map<FinancialCategory, int>)
    requires forall c :: c in totals
    ensures forall c :: c in r && r[c] == totals[c] + (if t.category == c then t.amount else 0)
  {
    r := totals;
    if t.category in r {
      r := r[t.category := r[t.category] + t.amount];
    }
  }

  /** Object.entries(totals).filter(([_, value]) => value > 0): the positive entries, in the
      order the keys were inserted, which is the enum's order. */
  method PositiveSlices(totals: map<FinancialCategory, int>) returns (r: seq<CategorySlice>)
    requires forall c :: c in totals
    ensures forall k :: 0 <= k < |r| ==> r[k].value == totals[r[k].name] && r[k].value > 0
    ensures forall c :: totals[c] > 0 ==> CategorySlice(c, totals[c]) in r
    ensures forall k, l :: 0 <= k < l < |r| ==> CategoryRank(r[k].name) < CategoryRank(r[l].name)
  {
    var cats := Categories();
    r := [];
    for k := 0 to |cats|
      invariant forall e :: 0 <= e < |r| ==> r[e].value == totals[r[e].name] && r[e].value > 0
      invariant forall e :: 0 <= e < |r| ==> CategoryRank(r[e].name) < k
      invariant forall e, l :: 0 <= e < l < |r| ==> CategoryRank(r[e].name) < CategoryRank(r[l].name)
      invariant forall m :: 0 <= m < k && totals[cats[m]] > 0 ==> CategorySlice(cats[m], totals[cats[m]]) in r
    {
      assert CategoryRank(cats[k]) == k;
      if totals[cats[k]] > 0 {
        r := r + [CategorySlice(cats[k], totals[cats[k]])];
      }
    }
    forall c | totals[c] > 0 ensures CategorySlice(c, totals[c]) in r {
      assert cats[CategoryRank(c)] == c;
    }
  }

  /** categoryData: the pie shows exactly the categories whose total is positive, each with
      its total, in the enum's order. */
  method CategoryData(txs: seq<Transaction>) returns (r: seq<CategorySlice>)
    ensures forall k :: 0 <= k < |r| ==> r[k].value == CategoryTotal(txs, r[k].name) && r[k].value > 0
    ensures forall c :: CategoryTotal(txs, c) > 0 <==> CategorySlice(c, CategoryTotal(txs, c)) in r
    ensures forall k, l :: 0 <= k < l < |r| ==> CategoryRank(r[k].name) < CategoryRank(r[l].name)
  {
    var totals := CategoryTotals(txs);
    r := PositiveSlices(totals);
  }

  function ExpenseBut1(t: Transaction): bool
  {
    !IsRevenue(t.category) && t.category != CustoFixo
  }

  function ExpenseBut2(t: Transaction): bool
  {
    ExpenseBut1(t) && t.category != CustoVariavel
  }

  /** The four expense categories together make up the expense card. */
  lemma ExpenseCategoriesAddUp(txs: seq<Transaction>)
    ensures CategoryTotal(txs, CustoFixo) + CategoryTotal(txs, CustoVariavel) +
            CategoryTotal(txs, DespesaFixa) + CategoryTotal(txs, DespesaVariavel) == TotalExpenses(txs)
  {
    SumOfSplit(txs, IsExpense, KeyIs(TxCategory, CustoFixo), ExpenseBut1, TxAmount);
    SumOfSplit(txs, ExpenseBut1, KeyIs(TxCategory, CustoVariavel), ExpenseBut2, TxAmount);
    SumOfSplit(txs, ExpenseBut2, KeyIs(TxCategory, DespesaFixa), KeyIs(TxCategory, DespesaVariavel), TxAmount);
  }

  /** The five category totals account for the whole ledger; RECEITA's is the revenue card
      and the other four make up the expense card. */
  lemma CategoryTotalsAddUp(txs: seq<Transaction>)
    ensures CategoryTotal(txs, Receita) == TotalRevenue(txs)
    ensures CategoryTotal(txs, CustoFixo) + CategoryTotal(txs, CustoVariavel) +
            CategoryTotal(txs, DespesaFixa) + CategoryTotal(txs, DespesaVariavel) == TotalExpenses(txs)
    ensures CategoryTotal(txs, Receita) + CategoryTotal(txs, CustoFixo) + CategoryTotal(txs, CustoVariavel) +
            CategoryTotal(txs, DespesaFixa) + CategoryTotal(txs, DespesaVariavel) == SumOf(txs, TxAmount)
  {
    FilterSameTest(txs, KeyIs(TxCategory, Receita), IsIncome);
    ExpenseCategoriesAddUp(txs);
    IncomePlusExpenses(txs);
  }

  // ---------------------------------------------------------------- the cards and the alert list

  /** lowStockItems: the items at or below their minimum, in inventory order. */
  function LowStockItems(inv: seq<InventoryItem>): (r: seq<InventoryItem>)
    ensures forall i :: 0 <= i < |r| ==> r[i] in inv && NeedsRestock(r[i])
    ensures forall i :: 0 <= i < |inv| && NeedsRestock(inv[i]) ==> inv[i] in r
  {
    Filter(inv, (i: InventoryItem) => NeedsRestock(i))
  }

  lemma LowStockInOrder(inv: seq<InventoryItem>)
    ensures Sublist(LowStockItems(inv), inv)
  {
    FilterIsSublist(inv, (i: InventoryItem) => NeedsRestock(i));
  }

  /** "Receita Bruta". */
  function TotalRevenue(txs: seq<Transaction>): int
  {
    Income(txs)
  }

  /** "Despesas Totais". */
  function TotalExpenses(txs: seq<Transaction>): int
  {
    Expenses(txs)
  }

  /** "Lucro Líquido": revenue minus expenses, which is the ledger with every expense
      counted negatively; the two cards together cover every line once. */
  function NetProfit(txs: seq<Transaction>): (r: int)
    ensures r == SumOf(txs, SignedAmount)
    ensures TotalRevenue(txs) + TotalExpenses(txs) == SumOf(txs, TxAmount)
  {
    BalanceIsSignedSum(txs);
    IncomePlusExpenses(txs);
    TotalRevenue(txs) - TotalExpenses(txs)
  }
}
