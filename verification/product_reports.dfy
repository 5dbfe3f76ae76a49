/** Per-product profitability (components/ProductReports.tsx): the sales linked to a
    product within a date range, grouped by product, each group's volume, revenue,
    cost at the product's current unit cost and profit, sorted by revenue, and the three
    summary cards. */
module ProductReports {
  import opened Types
  import opened Seqs
  import opened Stock
  import opened Ledger

  /** ProductStats: one row of the report. */
  datatype ProductStats = ProductStats(
    id: string,
    name: string,
    sku: string,
    quantity: int,
    revenue: Money,
    cost: Money,
    profit: Money)

  function RowId(r: ProductStats): string { r.id }
  function RowQuantity(r: ProductStats): int { r.quantity }
  function RowRevenue(r: ProductStats): int { r.revenue }
  function RowProfit(r: ProductStats): int { r.profit }

  const DeletedName: string := "Produto Excluído"
  const DeletedSku: string := "---"

  /** sale.productId!, read only on sales that passed the filter. */
  function SaleProductId(s: Sale): string
  {
    if s.productId.Some? then s.productId.value else ""
  }

  /** sale.quantity || 0. */
  function SaleQty(s: Sale): int
  {
    if s.quantity.Some? then s.quantity.value else 0
  }

  /** The filter: a truthy productId and a UTC day within the bounds that are set. */
  predicate Contributes(s: Sale, start: Option<int>, end: Option<int>)
  {
    s.productId.Some? && s.productId.value != "" && InRange(s.date, start, end)
  }

  function ContributesIn(start: Option<int>, end: Option<int>): Sale -> bool
  {
    (s: Sale) => Contributes(s, start, end)
  }

  /** filteredSales: exactly the contributing sales, in history order. */
  function ReportSales(sales: seq<Sale>, start: Option<int>, end: Option<int>): (r: seq<Sale>)
    ensures forall i :: 0 <= i < |r| ==> r[i] in sales && Contributes(r[i], start, end)
    ensures forall i :: 0 <= i < |sales| && Contributes(sales[i], start, end) ==> sales[i] in r
  {
    Filter(sales, ContributesIn(start, end))
  }

  /** The cost per unit the report charges: the product's current unitCost, or 0 once the
      product has been deleted. */
  function UnitCostOf(inv: seq<InventoryItem>, pid: string): Money
  {
    match FindItem(inv, pid)
    case Some(p) => p.unitCost
    case None => 0
  }

  function NameOf(inv: seq<InventoryItem>, pid: string): string
  {
    match FindItem(inv, pid)
    case Some(p) => p.name
    case None => DeletedName
  }

  function SkuOf(inv: seq<InventoryItem>, pid: string): string
  {
    match FindItem(inv, pid)
    case Some(p) => p.sku
    case None => DeletedSku
  }

  /** The units sold of one product among the given sales. */
  function GroupQuantity(fs: seq<Sale>, pid: string): int
  {
    SumOf(Filter(fs, KeyIs(SaleProductId, pid)), SaleQty)
  }

  /** The amounts of one product's sales among the given sales. */
  function GroupRevenue(fs: seq<Sale>, pid: string): int
  {
    SumOf(Filter(fs, KeyIs(SaleProductId, pid)), SaleAmount)
  }

  /** The row the report owes a product: its sales' quantities and amounts added up, the
      cost charged at the current unit cost, and the profit as revenue minus cost. */
  function StatsOf(fs: seq<Sale>, inv: seq<InventoryItem>, pid: string): ProductStats
  {
    var quantity := GroupQuantity(fs, pid);
    var revenue := GroupRevenue(fs, pid);
    var cost := UnitCostOf(inv, pid) * quantity;
    ProductStats(pid, NameOf(inv, pid), SkuOf(inv, pid), quantity, revenue, cost, revenue - cost)
  }

  /** The rows owed to the given products, in the given order. */
  function StatsRows(fs: seq<Sale>, inv: seq<InventoryItem>, ks: seq<string>): (r: seq<ProductStats>)
    ensures |r| == |ks| && forall a :: 0 <= a < |ks| ==> r[a] == StatsOf(fs, inv, ks[a])
  {
    Map(ks, (k: string) => StatsOf(fs, inv, k))
  }

  /** The keys of the stats record in the order they were first set: each sale's product,
      the first time it is met. */
  function ProductIds(s: seq<Sale>): (r: seq<string>)
    ensures |r| <= |s|
    decreases |s|
  {
    if s == [] then []
    else
      var prev := ProductIds(s[..|s| - 1]);
      var k := SaleProductId(s[|s| - 1]);
      if k in prev then prev else prev + [k]
  }

  /** The record holds one key per distinct product, and exactly the products of the sales. */
  lemma {:induction false} ProductIdsSpec(s: seq<Sale>)
    ensures NoRepeats(ProductIds(s))
    ensures forall k :: k in ProductIds(s) <==> exists i :: 0 <= i < |s| && SaleProductId(s[i]) == k
    decreases |s|
  {
    if s != [] {
      var init := s[..|s| - 1];
      ProductIdsSpec(init);
      var k := SaleProductId(s[|s| - 1]);
      if k !in ProductIds(init) {
        PushFresh(ProductIds(init), k);
      }
      forall x ensures x in ProductIds(s) <==> exists i :: 0 <= i < |s| && SaleProductId(s[i]) == x {
        if x in ProductIds(init) {
          var i :| 0 <= i < |init| && SaleProductId(init[i]) == x;
          assert s[i] == init[i];
        }
        if exists i :: 0 <= i < |s| && SaleProductId(s[i]) == x {
          var i :| 0 <= i < |s| && SaleProductId(s[i]) == x;
          if i < |init| {
            assert init[i] == s[i];
          }
        }
      }
    }
  }

  /** One more sale adds its product to the keys unless it is already there. */
  lemma ProductIdsSnoc(fs: seq<Sale>, i: nat)
    requires i < |fs|
    ensures ProductIds(fs[..i + 1]) ==
      if SaleProductId(fs[i]) in ProductIds(fs[..i]) then ProductIds(fs[..i]) else ProductIds(fs[..i]) + [SaleProductId(fs[i])]
  {
    assert fs[..i + 1][..i] == fs[..i];
  }

  /** A product not yet met has an empty row. */
  lemma NewProductRow(fs: seq<Sale>, inv: seq<InventoryItem>, pid: string)
    requires pid !in ProductIds(fs)
    ensures StatsOf(fs, inv, pid) == ProductStats(pid, NameOf(inv, pid), SkuOf(inv, pid), 0, 0, 0, 0)
  {
    ProductIdsSpec(fs);
    FilterDropsAll(fs, KeyIs(SaleProductId, pid));
  }

  /** One sale adds to its own product's group only. */
  lemma GroupStep(fs: seq<Sale>, i: nat, k: string)
    requires i < |fs|
    ensures GroupQuantity(fs[..i + 1], k) == GroupQuantity(fs[..i], k) + if SaleProductId(fs[i]) == k then SaleQty(fs[i]) else 0
    ensures GroupRevenue(fs[..i + 1], k) == GroupRevenue(fs[..i], k) + if SaleProductId(fs[i]) == k then fs[i].amount else 0
  {
    FilterSumSnoc(fs, i, KeyIs(SaleProductId, k), SaleQty);
    FilterSumSnoc(fs, i, KeyIs(SaleProductId, k), SaleAmount);
  }

  /** The body of the forEach once the entry exists: add the units, the amount and the
      units at the cost per unit, and recompute the profit. */
  function AddSale(row: ProductStats, sale: Sale, costPerUnit: Money): ProductStats
  {
    var revenue := row.revenue + sale.amount;
    var cost := row.cost + costPerUnit * SaleQty(sale);
    row.(quantity := row.quantity + SaleQty(sale), revenue := revenue, cost := cost, profit := revenue - cost)
  }

  /** One step of the forEach: the sale adds to its own product's row only. */
  lemma StatsStep(fs: seq<Sale>, inv: seq<InventoryItem>, i: nat, k: string)
    requires i < |fs|
    ensures StatsOf(fs[..i + 1], inv, k) ==
      if SaleProductId(fs[i]) == k then AddSale(StatsOf(fs[..i], inv, k), fs[i], UnitCostOf(inv, k))
      else StatsOf(fs[..i], inv, k)
  {
    GroupStep(fs, i, k);
    var c := UnitCostOf(inv, k);
    var q := GroupQuantity(fs[..i], k);
    Distribute(c, q, SaleQty(fs[i]));
  }

  /** Multiplication distributes over addition. */
  lemma Distribute(c: int, a: int, b: int)
    ensures c * (a + b) == c * a + c * b
  {
  }

  /** A permutation of the owed rows has one row per product. */
  lemma RowsDistinct(fs: seq<Sale>, inv: seq<InventoryItem>, rows: seq<ProductStats>)
    requires multiset(rows) == multiset(StatsRows(fs, inv, ProductIds(fs)))
    ensures DistinctKeys(rows, RowId)
  {
    var ks := ProductIds(fs);
    var all := StatsRows(fs, inv, ks);
    ProductIdsSpec(fs);
    forall a, b | 0 <= a < b < |all| ensures RowId(all[a]) != RowId(all[b]) {
      assert all[a].id == ks[a] && all[b].id == ks[b];
    }
    PermutationKeepsDistinctKeys(all, rows, RowId);
  }

  /** A row of a permutation of the owed rows is one of the owed rows. */
  lemma RowIsOwed(fs: seq<Sale>, inv: seq<InventoryItem>, rows: seq<ProductStats>, j: nat)
    requires multiset(rows) == multiset(StatsRows(fs, inv, ProductIds(fs)))
    requires j < |rows|
    ensures rows[j] in StatsRows(fs, inv, ProductIds(fs))
  {
    assert rows[j] in multiset(rows);
  }

  /** An owed row is the row of its own product, and that product is one of the keys. */
  lemma OwedRow(fs: seq<Sale>, inv: seq<InventoryItem>, r: ProductStats, ks: seq<string>)
    requires r in StatsRows(fs, inv, ks)
    ensures r == StatsOf(fs, inv, r.id) && r.id in ks
  {
    var all := StatsRows(fs, inv, ks);
    var a :| 0 <= a < |all| && all[a] == r;
  }

  /** Each row of a permutation of the owed rows is the row its product is owed, and that
      product was sold in the range. */
  lemma RowsAreOwed(fs: seq<Sale>, inv: seq<InventoryItem>, rows: seq<ProductStats>, j: nat)
    requires multiset(rows) == multiset(StatsRows(fs, inv, ProductIds(fs)))
    requires j < |rows|
    ensures rows[j] == StatsOf(fs, inv, rows[j].id)
    ensures exists i :: 0 <= i < |fs| && SaleProductId(fs[i]) == rows[j].id
  {
    RowIsOwed(fs, inv, rows, j);
    OwedRow(fs, inv, rows[j], ProductIds(fs));
    ProductIdsSpec(fs);
  }

  /** Every product sold in the range is a key of the record. */
  lemma SoldIsKey(fs: seq<Sale>, i: nat)
    requires i < |fs|
    ensures SaleProductId(fs[i]) in ProductIds(fs)
  {
    ProductIdsSpec(fs);
  }

  /** Every key of the record has its row in a permutation of the owed rows. */
  lemma RowsCover(fs: seq<Sale>, inv: seq<InventoryItem>, rows: seq<ProductStats>, k: string)
    requires multiset(rows) == multiset(StatsRows(fs, inv, ProductIds(fs)))
    requires k in ProductIds(fs)
    ensures StatsOf(fs, inv, k) in rows
  {
    var ks := ProductIds(fs);
    var a :| 0 <= a < |ks| && ks[a] == k;
    OwedRowIn(fs, inv, rows, a);
  }

  lemma OwedRowIn(fs: seq<Sale>, inv: seq<InventoryItem>, rows: seq<ProductStats>, a: nat)
    requires multiset(rows) == multiset(StatsRows(fs, inv, ProductIds(fs)))
    requires a < |ProductIds(fs)|
    ensures StatsOf(fs, inv, ProductIds(fs)[a]) in rows
  {
    var all := StatsRows(fs, inv, ProductIds(fs));
    assert all[a] in multiset(rows);
  }

  /** The forEach of reportData: for each sale, create its product's entry on first
      sight (name, sku and cost per unit from the current inventory), then add the units,
      the amount and the cost, and recompute the profit. The keys are returned in the
      order they were created, which is the record's insertion order. */
  method Accumulate(fs: seq<Sale>, inv: seq<InventoryItem>) returns (stats: map<string, ProductStats>, order: seq<string>)
    ensures order == ProductIds(fs)
    ensures forall k :: k in stats <==> k in order
    ensures forall k :: k in stats ==> stats[k] == StatsOf(fs, inv, k)
  {
    stats := map[];
    order := [];
    for i := 0 to |fs|
      invariant order == ProductIds(fs[..i])
      invariant forall k :: k in stats <==> k in order
      invariant forall k :: k in stats ==> stats[k] == StatsOf(fs[..i], inv, k)
    {
      var sale := fs[i];
      var pid := SaleProductId(sale);
      var name := NameOf(inv, pid);
      var sku := SkuOf(inv, pid);
      var costPerUnit := UnitCostOf(inv, pid);
      assert fs[..i + 1][..i] == fs[..i];
      var row;
      if pid !in stats {
        NewProductRow(fs[..i], inv, pid);
        row := ProductStats(pid, name, sku, 0, 0, 0, 0);
        order := order + [pid];
      } else {
        row := stats[pid];
      }
      stats := stats[pid := AddSale(row, sale, costPerUnit)];
      forall k | k in stats ensures stats[k] == StatsOf(fs[..i + 1], inv, k) {
        StatsStep(fs, inv, i, k);
        if k == pid {
          assert row == StatsOf(fs[..i], inv, k);
        }
      }
      ProductIdsSnoc(fs, i);
    }
    assert fs[..|fs|] == fs;
  }

  /** reportData: filter, accumulate per product in a record, take the record's values and
      sort them by revenue, largest first. The rows are exactly the rows owed to the
      products sold in the range, one per product. */
  method ReportData(sales: seq<Sale>, inv: seq<InventoryItem>, start: Option<int>, end: Option<int>)
    returns (rows: seq<ProductStats>)
    ensures SortedDesc(rows, RowRevenue)
    ensures multiset(rows) == multiset(StatsRows(ReportSales(sales, start, end), inv, ProductIds(ReportSales(sales, start, end))))
    ensures DistinctKeys(rows, RowId)
    ensures forall j :: 0 <= j < |rows| ==> rows[j] == StatsOf(ReportSales(sales, start, end), inv, rows[j].id)
    ensures forall i :: 0 <= i < |sales| && Contributes(sales[i], start, end) ==>
      StatsOf(ReportSales(sales, start, end), inv, sales[i].productId.value) in rows
  {
    var fs := ReportSales(sales, start, end);
    var stats, order := Accumulate(fs, inv);
    var values := seq(|order|, j requires 0 <= j < |order| && order[j] in stats => stats[order[j]]);
    assert values == StatsRows(fs, inv, order);
    rows := SortDesc(values, RowRevenue);
    ReportRows(sales, inv, start, end, rows);
  }

  /** What the rows promise once they are a permutation of the owed rows. */
  lemma ReportRows(sales: seq<Sale>, inv: seq<InventoryItem>, start: Option<int>, end: Option<int>, rows: seq<ProductStats>)
    requires multiset(rows) == multiset(StatsRows(ReportSales(sales, start, end), inv, ProductIds(ReportSales(sales, start, end))))
    ensures DistinctKeys(rows, RowId)
    ensures forall j :: 0 <= j < |rows| ==> rows[j] == StatsOf(ReportSales(sales, start, end), inv, rows[j].id)
    ensures forall i :: 0 <= i < |sales| && Contributes(sales[i], start, end) ==>
      StatsOf(ReportSales(sales, start, end), inv, sales[i].productId.value) in rows
  {
    var fs := ReportSales(sales, start, end);
    RowsDistinct(fs, inv, rows);
    forall j | 0 <= j < |rows| ensures rows[j] == StatsOf(fs, inv, rows[j].id) {
      RowsAreOwed(fs, inv, rows, j);
    }
    forall i | 0 <= i < |sales| && Contributes(sales[i], start, end)
      ensures StatsOf(fs, inv, sales[i].productId.value) in rows
    {
      var a :| 0 <= a < |fs| && fs[a] == sales[i];
      SoldIsKey(fs, a);
      RowsCover(fs, inv, rows, SaleProductId(fs[a]));
    }
  }

  // ---------------------------------------------------------------- totals

  /** totals: the rows' quantities, revenues and profits added up. */
  datatype ReportTotals = ReportTotals(qty: int, rev: Money, profit: Money)

  function Totals(rows: seq<ProductStats>): ReportTotals
  {
    ReportTotals(SumOf(rows, RowQuantity), SumOf(rows, RowRevenue), SumOf(rows, RowProfit))
  }

  /** What one sale contributes to the profit card: its amount less its quantity at the
      product's current unit cost. */
  function SaleMargin(inv: seq<InventoryItem>): Sale -> int
  {
    (s: Sale) => s.amount - UnitCostOf(inv, SaleProductId(s)) * SaleQty(s)
  }

  /** Within one product's group, the margins add up to the revenue less the cost. */
  lemma {:induction false} GroupMargin(s: seq<Sale>, inv: seq<InventoryItem>, k: string)
    requires forall i :: 0 <= i < |s| ==> SaleProductId(s[i]) == k
    ensures SumOf(s, SaleMargin(inv)) == SumOf(s, SaleAmount) - UnitCostOf(inv, k) * SumOf(s, SaleQty)
  {
    if s != [] {
      GroupMargin(s[1..], inv, k);
      var c := UnitCostOf(inv, k);
      Distribute(c, SaleQty(s[0]), SumOf(s[1..], SaleQty));
    }
  }

  /** A column of the report sums to the matching sum over the sales, provided each row's
      entry is that sum over its product's group. */
  lemma RowsSum(fs: seq<Sale>, inv: seq<InventoryItem>, rows: seq<ProductStats>,
                rowf: ProductStats -> int, salef: Sale -> int)
    requires multiset(rows) == multiset(StatsRows(fs, inv, ProductIds(fs)))
    requires forall k :: rowf(StatsOf(fs, inv, k)) == SumOf(Filter(fs, KeyIs(SaleProductId, k)), salef)
    ensures SumOf(rows, rowf) == SumOf(fs, salef)
  {
    var ks := ProductIds(fs);
    var h := (k: string) => rowf(StatsOf(fs, inv, k));
    SumOfPermutation(rows, StatsRows(fs, inv, ks), rowf);
    SumOfMap(ks, (k: string) => StatsOf(fs, inv, k), rowf, h);
    ProductIdsSpec(fs);
    SumByKeys(fs, SaleProductId, ks, salef, h);
    forall i | 0 <= i < |fs| ensures KeyIn(SaleProductId, ks)(fs[i]) {
      assert SaleProductId(fs[i]) in ks;
    }
    FilterKeepsAll(fs, KeyIn(SaleProductId, ks));
  }

  /** The summary cards: "Volume Total" is the units of every sale in the range,
      "Faturamento Período" their amounts, and the profit card each sale's amount less its
      units at the product's current unit cost; grouping loses and doubles nothing. */
  lemma TotalsMatchSales(sales: seq<Sale>, inv: seq<InventoryItem>, start: Option<int>, end: Option<int>, rows: seq<ProductStats>)
    requires multiset(rows) == multiset(StatsRows(ReportSales(sales, start, end), inv, ProductIds(ReportSales(sales, start, end))))
    ensures Totals(rows).qty == SumOf(ReportSales(sales, start, end), SaleQty)
    ensures Totals(rows).rev == SumOf(ReportSales(sales, start, end), SaleAmount)
    ensures Totals(rows).profit == SumOf(ReportSales(sales, start, end), SaleMargin(inv))
  {
    var fs := ReportSales(sales, start, end);
    RowsSum(fs, inv, rows, RowQuantity, SaleQty);
    RowsSum(fs, inv, rows, RowRevenue, SaleAmount);
    forall k ensures RowProfit(StatsOf(fs, inv, k)) == SumOf(Filter(fs, KeyIs(SaleProductId, k)), SaleMargin(inv)) {
      GroupMargin(Filter(fs, KeyIs(SaleProductId, k)), inv, k);
    }
    RowsSum(fs, inv, rows, RowProfit, SaleMargin(inv));
  }
}
