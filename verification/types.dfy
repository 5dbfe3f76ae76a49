/** The domain model of types.ts: the three closed enumerations and the
    Sale, Transaction and InventoryItem records.

    Money is integer cents, so that unitCost * quantity is exact. A date is an
    instant in milliseconds since the epoch; the range filters compare its UTC
    day (the YYYY-MM-DD part of toISOString) against day-key bounds. */
module Types {

  datatype Option<+T> = None | Some(value: T)

  datatype Store = Fortaleza | Jaguaruana | Direta

  datatype Salesperson = Stela | Thiago | Regis

  datatype FinancialCategory = Receita | CustoFixo | CustoVariavel | DespesaFixa | DespesaVariavel

  /** Object.values(Store), in declaration order. */
  function Stores(): (r: seq<Store>)
    ensures |r| == 3
    ensures forall s: Store :: s in r
    ensures forall i, j :: 0 <= i < j < |r| ==> r[i] != r[j]
  {
    var r := [Fortaleza, Jaguaruana, Direta];
    assert forall s: Store :: s in r by {
      forall s: Store ensures s in r {
        if s.Fortaleza? { assert r[0] == s; }
        else if s.Jaguaruana? { assert r[1] == s; }
        else { assert r[2] == s; }
      }
    }
    r
  }

  /** Object.values(Salesperson), in declaration order. */
  function Salespeople(): (r: seq<Salesperson>)
    ensures |r| == 3
    ensures forall p: Salesperson :: p in r
    ensures forall i, j :: 0 <= i < j < |r| ==> r[i] != r[j]
  {
    var r := [Stela, Thiago, Regis];
    assert forall p: Salesperson :: p in r by {
      forall p: Salesperson ensures p in r {
        if p.Stela? { assert r[0] == p; }
        else if p.Thiago? { assert r[1] == p; }
        else { assert r[2] == p; }
      }
    }
    r
  }

  /** Object.values(FinancialCategory), in declaration order; RECEITA is the only revenue member. */
  function Categories(): (r: seq<FinancialCategory>)
    ensures |r| == 5
    ensures forall c: FinancialCategory :: c in r
    ensures forall i, j :: 0 <= i < j < |r| ==> r[i] != r[j]
    ensures forall i :: 0 <= i < |r| ==> (IsRevenue(r[i]) <==> i == 0)
  {
    var r := [Receita, CustoFixo, CustoVariavel, DespesaFixa, DespesaVariavel];
    assert forall c: FinancialCategory :: c in r by {
      forall c: FinancialCategory ensures c in r {
        if c.Receita? { assert r[0] == c; }
        else if c.CustoFixo? { assert r[1] == c; }
        else if c.CustoVariavel? { assert r[2] == c; }
        else if c.DespesaFixa? { assert r[3] == c; }
        else { assert r[4] == c; }
      }
    }
    r
  }

  /** A category's position in the declaration order. */
  function CategoryRank(c: FinancialCategory): (n: nat)
    ensures n < |Categories()| && Categories()[n] == c
  {
    match c
    case Receita => 0
    case CustoFixo => 1
    case CustoVariavel => 2
    case DespesaFixa => 3
    case DespesaVariavel => 4
  }

  /** The one category every report treats as income. */
  predicate IsRevenue(c: FinancialCategory)
  {
    c == Receita
  }

  /** The enum's string value, which is also what the screens display. */
  function CategoryName(c: FinancialCategory): string
  {
    match c
    case Receita => "Receita"
    case CustoFixo => "Custo Fixo"
    case CustoVariavel => "Custo Variável"
    case DespesaFixa => "Despesa Fixa"
    case DespesaVariavel => "Despesa Variável"
  }

  function StoreName(s: Store): string
  {
    match s
    case Fortaleza => "Fortaleza"
    case Jaguaruana => "Jaguaruana"
    case Direta => "Direta"
  }

  lemma CategoryNameInjective(a: FinancialCategory, b: FinancialCategory)
    requires CategoryName(a) == CategoryName(b)
    ensures a == b
  {
  }

  type Money = int
  type Instant = int

  const MsPerDay: int := 86400000

  /** The UTC calendar day of an instant (toISOString().split('T')[0] as a number). */
  function DayKey(t: Instant): int
  {
    t / MsPerDay
  }

  /** An instant lies in [start, end] by UTC day; an absent bound ('' in the screens) does not restrict. */
  predicate InRange(t: Instant, start: Option<int>, end: Option<int>)
  {
    (start.None? || DayKey(t) >= start.value) && (end.None? || DayKey(t) <= end.value)
  }

  /** Midnight UTC of a day, which is what new Date('YYYY-MM-DD').toISOString() denotes. */
  function DayStart(day: int): (t: Instant)
    ensures DayKey(t) == day
  {
    day * MsPerDay
  }

  /** Sale. productId and quantity are independently optional. */
  datatype Sale = Sale(
    id: string,
    date: Instant,
    amount: Money,
    store: Store,
    salesperson: Salesperson,
    description: string,
    productId: Option<string>,
    quantity: Option<int>)

  /** Omit<Sale, 'id'>: what the sales form hands to the engine. */
  datatype SaleInput = SaleInput(
    date: Instant,
    amount: Money,
    store: Store,
    salesperson: Salesperson,
    description: string,
    productId: Option<string>,
    quantity: Option<int>)

  function WithId(input: SaleInput, id: string): (s: Sale)
    ensures s.id == id && s.amount == input.amount && s.date == input.date
    ensures s.productId == input.productId && s.quantity == input.quantity
    ensures s.store == input.store && s.salesperson == input.salesperson && s.description == input.description
  {
    Sale(id, input.date, input.amount, input.store, input.salesperson, input.description,
         input.productId, input.quantity)
  }

  /** A transaction id. A Transaction has no owner field: the derived lines of a
      sale are found again only through the "t-rev-" / "t-cost-" id convention,
      which Rev and Cost make explicit. */
  datatype TxId = Rev(saleId: string) | Cost(saleId: string) | Manual(key: string)

  const RevPrefix: string := "t-rev-"
  const CostPrefix: string := "t-cost-"

  /** A manual id (a random base-36 string) never has one of the derived prefixes. */
  predicate ManualKeyOk(key: string)
  {
    !(|key| >= |RevPrefix| && key[..|RevPrefix|] == RevPrefix) &&
    !(|key| >= |CostPrefix| && key[..|CostPrefix|] == CostPrefix)
  }

  /** The id as the source stores it. */
  function IdText(id: TxId): string
  {
    match id
    case Rev(s) => RevPrefix + s
    case Cost(s) => CostPrefix + s
    case Manual(k) => k
  }

  /** The string convention is unambiguous as long as manual ids avoid the prefixes. */
  lemma IdTextInjective(a: TxId, b: TxId)
    requires a.Manual? ==> ManualKeyOk(a.key)
    requires b.Manual? ==> ManualKeyOk(b.key)
    requires IdText(a) == IdText(b)
    ensures a == b
  {
    var t := IdText(a);
    match a {
      case Rev(x) =>
        assert t[..|RevPrefix|] == RevPrefix;
        assert t[2] == 'r';
        if b.Rev? {
          assert x == t[|RevPrefix|..] == b.saleId;
        }
      case Cost(x) =>
        assert t[..|CostPrefix|] == CostPrefix;
        assert t[2] == 'c';
        if b.Cost? {
          assert x == t[|CostPrefix|..] == b.saleId;
        }
      case Manual(k) =>
    }
  }

  datatype Transaction = Transaction(
    id: TxId,
    date: Instant,
    amount: Money,
    category: FinancialCategory,
    description: string,
    store: Store)

  /** Omit<Transaction, 'id'>: what the ledger form hands to the engine. */
  datatype TransactionInput = TransactionInput(
    date: Instant,
    amount: Money,
    category: FinancialCategory,
    description: string,
    store: Store)

  datatype InventoryItem = InventoryItem(
    id: string,
    name: string,
    sku: string,
    quantity: int,
    minQuantity: int,
    unitPrice: Money,
    unitCost: Money,
    category: string)

  /** The restock alert ("Reposição" badge, dashboard low-stock list). */
  predicate NeedsRestock(item: InventoryItem)
  {
    item.quantity <= item.minQuantity
  }

  /** No item has negative stock. */
  predicate StockNonNegative(inv: seq<InventoryItem>)
  {
    forall i :: 0 <= i < |inv| ==> inv[i].quantity >= 0
  }
}
