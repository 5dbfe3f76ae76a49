/** The inventory screen (components/InventoryManager.tsx): the new-product form and
    its validation, the inline edits of a row (category, quantity, cost, price), the
    -/+ stock buttons, the category filter and its list of categories, the delete
    button and the restock badge. Every edit hands a whole new inventory list to
    onUpdate, which is App's setInventory, so each is a function from list to list. */
module InventoryManager {
  import opened Types
  import opened Seqs
  import opened Text
  import opened Stock

  /** The smallest price or cost an inline edit stores: 0.01, one cent. */
  const MinPrice: Money := 1

  /** What a catalogue the screen maintains looks like: no negative stock, and every
      price and cost at least one cent. */
  predicate CatalogueSound(inv: seq<InventoryItem>)
  {
    forall i :: 0 <= i < |inv| ==>
      inv[i].quantity >= 0 && inv[i].unitPrice >= MinPrice && inv[i].unitCost >= MinPrice
  }

  lemma SeedIsSound()
    ensures CatalogueSound(SeedInventory())
  {
  }

  /** The engine's clamped stock adjustment keeps a sound catalogue sound. */
  lemma AdjustKeepsSound(inv: seq<InventoryItem>, id: string, delta: int)
    requires CatalogueSound(inv)
    ensures CatalogueSound(Adjust(inv, id, delta))
  {
    AdjustSpec(inv, id, delta);
  }

  // ---------------------------------------------------------------- the new-product form

  /** The form's state. Its numeric inputs hold numbers already (parseInt(...) || 0 and
      parseFloat(...) || 0 on every keystroke); prices are in cents. */
  datatype ItemForm = ItemForm(
    name: string,
    sku: string,
    quantity: int,
    minQuantity: int,
    unitPrice: Money,
    unitCost: Money,
    category: string)

  /** The state the form starts in and is reset to after an add. */
  const EmptyForm: ItemForm := ItemForm("", "", 0, 0, 0, 0, "")

  /** The five messages formErrors can hold. */
  datatype ItemFormError = NameRequired | NegativeQuantity | PriceNotPositive | CostNotPositive | CategoryRequired

  /** A form formErrors has nothing to say about. sku and minQuantity are not checked. */
  predicate ItemFormOk(f: ItemForm)
  {
    !Blank(f.name) && f.quantity >= 0 && f.unitPrice > 0 && f.unitCost > 0 && !Blank(f.category)
  }

  /** formErrors: one push per failed check, in the order of the checks. */
  method FormErrors(f: ItemForm) returns (errs: seq<ItemFormError>)
    ensures NameRequired in errs <==> Blank(f.name)
    ensures NegativeQuantity in errs <==> f.quantity < 0
    ensures PriceNotPositive in errs <==> f.unitPrice <= 0
    ensures CostNotPositive in errs <==> f.unitCost <= 0
    ensures CategoryRequired in errs <==> Blank(f.category)
    ensures errs == [] <==> ItemFormOk(f)
    ensures NoRepeats(errs)
  {
    var nameMissing := IsMissing(f.name);
    var categoryMissing := IsMissing(f.category);
    errs := [];
    if nameMissing {
      errs := errs + [NameRequired];
    }
    if f.quantity < 0 {
      PushFresh(errs, NegativeQuantity);
      errs := errs + [NegativeQuantity];
    }
    if f.unitPrice <= 0 {
      PushFresh(errs, PriceNotPositive);
      errs := errs + [PriceNotPositive];
    }
    if f.unitCost <= 0 {
      PushFresh(errs, CostNotPositive);
      errs := errs + [CostNotPositive];
    }
    if categoryMissing {
      PushFresh(errs, CategoryRequired);
      errs := errs + [CategoryRequired];
    }
  }

  /** The item handleAddItem builds: the form's fields and a fresh id. */
  function NewItem(f: ItemForm, id: string): (item: InventoryItem)
    ensures item.id == id && item.name == f.name && item.sku == f.sku && item.category == f.category
    ensures item.quantity == f.quantity && item.minQuantity == f.minQuantity
    ensures item.unitPrice == f.unitPrice && item.unitCost == f.unitCost
  {
    InventoryItem(id, f.name, f.sku, f.quantity, f.minQuantity, f.unitPrice, f.unitCost, f.category)
  }

  /** What handleAddItem leaves behind: the list handed to onUpdate (or the old one when it
      returns early), the form and whether the form is still open. */
  datatype AddOutcome = AddOutcome(inventory: seq<InventoryItem>, form: ItemForm, isAdding: bool)

  /** handleAddItem, with the random id passed in. A form with errors changes nothing; a valid
      one appends exactly one item at the end, closes the form and resets it to a state
      that would itself be refused. */
  function HandleAddItem(inv: seq<InventoryItem>, f: ItemForm, isAdding: bool, id: string): (r: AddOutcome)
    ensures !ItemFormOk(f) ==> r == AddOutcome(inv, f, isAdding)
    ensures ItemFormOk(f) ==> |r.inventory| == |inv| + 1 && r.inventory[..|inv|] == inv
    ensures ItemFormOk(f) ==> r.inventory[|inv|].id == id && r.inventory[|inv|].name == f.name
    ensures ItemFormOk(f) ==> r.inventory[|inv|].quantity == f.quantity && r.inventory[|inv|].category == f.category
    ensures ItemFormOk(f) ==> r.inventory[|inv|].unitPrice == f.unitPrice && r.inventory[|inv|].unitCost == f.unitCost
    ensures ItemFormOk(f) ==> r.inventory[|inv|].sku == f.sku && r.inventory[|inv|].minQuantity == f.minQuantity
    ensures ItemFormOk(f) ==> r == AddOutcome(inv + [NewItem(f, id)], EmptyForm, false)
    ensures ItemFormOk(f) ==> !r.isAdding && !ItemFormOk(r.form)
    ensures CatalogueSound(inv) ==> CatalogueSound(r.inventory)
  {
    if !ItemFormOk(f) then AddOutcome(inv, f, isAdding)
    else
      AddOutcome(inv + [NewItem(f, id)], EmptyForm, false)
  }

  // ---------------------------------------------------------------- inline edits of a row

  /** The value an inline edit carries: the category text as typed, or the result of
      parseInt (quantity) or parseFloat in cents (cost, price), None for NaN. */
  datatype FieldEdit =
    | Category(category: string)
    | Quantity(quantity: Option<int>)
    | UnitCost(cost: Option<Money>)
    | UnitPrice(price: Option<Money>)

  /** isNaN(v) ? 0 : Math.max(0, v). */
  function SafeQuantity(v: Option<int>): (r: int)
    ensures r >= 0
    ensures v.Some? && v.value >= 0 ==> r == v.value
    ensures v.None? || v.value < 0 ==> r == 0
  {
    if v.None? then 0 else Floor0(v.value)
  }

  /** isNaN(v) ? 0.01 : Math.max(0.01, v). */
  function SafePrice(v: Option<Money>): (r: Money)
    ensures r >= MinPrice
    ensures v.Some? && v.value >= MinPrice ==> r == v.value
    ensures v.None? || v.value < MinPrice ==> r == MinPrice
  {
    if v.None? || v.value < MinPrice then MinPrice else v.value
  }

  /** { ...item, [field]: safeValue }: the named field takes the sanitised value and every
      other field keeps its value. */
  function ApplyEdit(item: InventoryItem, e: FieldEdit): (r: InventoryItem)
    ensures r.id == item.id && r.name == item.name && r.sku == item.sku && r.minQuantity == item.minQuantity
    ensures r.category == (if e.Category? then e.category else item.category)
    ensures r.quantity == (if e.Quantity? then SafeQuantity(e.quantity) else item.quantity)
    ensures r.unitCost == (if e.UnitCost? then SafePrice(e.cost) else item.unitCost)
    ensures r.unitPrice == (if e.UnitPrice? then SafePrice(e.price) else item.unitPrice)
  {
    match e
    case Category(c) => item.(category := c)
    case Quantity(v) => item.(quantity := SafeQuantity(v))
    case UnitCost(v) => item.(unitCost := SafePrice(v))
    case UnitPrice(v) => item.(unitPrice := SafePrice(v))
  }

  /** handleFieldUpdate: inventory.map(item => item.id === id ? edited : item). */
  function FieldUpdate(inv: seq<InventoryItem>, id: string, e: FieldEdit): (r: seq<InventoryItem>)
    ensures |r| == |inv|
  {
    seq(|inv|, i requires 0 <= i < |inv| => if inv[i].id == id then ApplyEdit(inv[i], e) else inv[i])
  }

  /** Only the items with the id are edited, and only in the named field; length, order and
      ids are kept. */
  lemma FieldUpdateSpec(inv: seq<InventoryItem>, id: string, e: FieldEdit)
    ensures ItemIds(FieldUpdate(inv, id, e)) == ItemIds(inv)
    ensures forall i :: 0 <= i < |inv| && inv[i].id != id ==> FieldUpdate(inv, id, e)[i] == inv[i]
    ensures forall i :: 0 <= i < |inv| && inv[i].id == id ==> FieldUpdate(inv, id, e)[i] == ApplyEdit(inv[i], e)
  {
  }

  /** Every inline edit keeps a sound catalogue sound: the clamps see to the quantity, the
      cost and the price. */
  lemma FieldUpdateKeepsSound(inv: seq<InventoryItem>, id: string, e: FieldEdit)
    requires CatalogueSound(inv)
    ensures CatalogueSound(FieldUpdate(inv, id, e))
  {
  }

  /** An edit of the quantity never leaves a negative stock behind on the edited items. */
  lemma QuantityEditNonNegative(inv: seq<InventoryItem>, id: string, v: Option<int>)
    requires StockNonNegative(inv)
    ensures StockNonNegative(FieldUpdate(inv, id, Quantity(v)))
  {
  }

  /** handleStockUpdate: the -/+ buttons. An unknown id changes nothing; otherwise the
      quantity edit is applied with the first matching item's stock plus delta. */
  function StockUpdate(inv: seq<InventoryItem>, id: string, delta: int): (r: seq<InventoryItem>)
    ensures |r| == |inv|
    ensures FindItem(inv, id).None? ==> r == inv
  {
    match FindItem(inv, id)
    case None => inv
    case Some(item) => FieldUpdate(inv, id, Quantity(Some(item.quantity + delta)))
  }

  /** When ids are unique, the screen's -/+ buttons do exactly what the engine's clamped
      stock adjustment does: every other item unchanged, the item set to max(0, q + delta). */
  lemma StockUpdateIsAdjust(inv: seq<InventoryItem>, id: string, delta: int)
    requires forall i, j :: 0 <= i < j < |inv| ==> inv[i].id != inv[j].id
    ensures StockUpdate(inv, id, delta) == Adjust(inv, id, delta)
  {
    var r := StockUpdate(inv, id, delta);
    var a := Adjust(inv, id, delta);
    match FindItem(inv, id)
    case None =>
      forall i | 0 <= i < |inv| ensures a[i] == inv[i] {
      }
    case Some(item) =>
      var e := Quantity(Some(item.quantity + delta));
      assert r == FieldUpdate(inv, id, e);
      forall i | 0 <= i < |inv| ensures r[i] == a[i] {
        if inv[i].id == id {
          SameIdSameItem(inv, item, i);
        }
      }
  }

  /** With unique ids, an item of the list is the only one carrying its id. */
  lemma SameIdSameItem(inv: seq<InventoryItem>, item: InventoryItem, i: nat)
    requires forall i, j :: 0 <= i < j < |inv| ==> inv[i].id != inv[j].id
    requires item in inv && i < |inv| && inv[i].id == item.id
    ensures inv[i] == item
  {
    var k :| 0 <= k < |inv| && inv[k] == item;
    assert !(i < k) && !(k < i);
  }

  /** The stock buttons keep a sound catalogue sound. */
  lemma StockUpdateKeepsSound(inv: seq<InventoryItem>, id: string, delta: int)
    requires CatalogueSound(inv)
    ensures CatalogueSound(StockUpdate(inv, id, delta))
  {
    var found := FindItem(inv, id);
    if found.Some? {
      FieldUpdateKeepsSound(inv, id, Quantity(Some(found.value.quantity + delta)));
    }
  }

  // ---------------------------------------------------------------- delete and the badge

  function NotItemId(id: string): InventoryItem -> bool
  {
    (i: InventoryItem) => i.id != id
  }

  /** The delete button, once confirm() says yes: inventory.filter(i => i.id !== id). */
  function DeleteItem(inv: seq<InventoryItem>, id: string, confirmed: bool): (r: seq<InventoryItem>)
    ensures !confirmed ==> r == inv
    ensures forall i :: 0 <= i < |r| ==> r[i] in inv
    ensures confirmed ==> forall i :: 0 <= i < |r| ==> r[i].id != id
    ensures forall i :: 0 <= i < |inv| && inv[i].id != id ==> inv[i] in r
    ensures CatalogueSound(inv) ==> CatalogueSound(r)
  {
    if confirmed then Filter(inv, NotItemId(id)) else inv
  }

  /** What is left after a delete keeps its order. */
  lemma DeleteItemKeepsOrder(inv: seq<InventoryItem>, id: string, confirmed: bool)
    ensures Sublist(DeleteItem(inv, id, confirmed), inv)
  {
    if confirmed {
      FilterIsSublist(inv, NotItemId(id));
    } else {
      SublistRefl(inv);
    }
  }

  lemma {:induction false} SublistRefl<T>(s: seq<T>)
    ensures Sublist(s, s)
  {
    if s != [] {
      SublistRefl(s[1..]);
    }
  }

  /** The status column's label. */
  function StatusLabel(item: InventoryItem): (r: string)
    ensures r == "Reposição" <==> NeedsRestock(item)
    ensures r == "OK" <==> !NeedsRestock(item)
  {
    if item.quantity <= item.minQuantity then "Reposição" else "OK"
  }

  // ---------------------------------------------------------------- categories and the filter

  /** inventory.map(item => item.category). */
  function CategoryColumn(inv: seq<InventoryItem>): (r: seq<string>)
    ensures |r| == |inv|
  {
    if inv == [] then [] else [inv[0].category] + CategoryColumn(inv[1..])
  }

  lemma {:induction false} CategoryColumnAt(inv: seq<InventoryItem>)
    ensures forall i :: 0 <= i < |inv| ==> CategoryColumn(inv)[i] == inv[i].category
  {
    if inv != [] {
      CategoryColumnAt(inv[1..]);
      assert forall i :: 1 <= i < |inv| ==> inv[i] == inv[1..][i - 1];
    }
  }

  /** Strictly increasing in the default string order, so also free of duplicates. */
  predicate StrictlySorted(s: seq<string>)
  {
    forall i, j :: 0 <= i < j < |s| ==> LexLess(s[i], s[j])
  }

  lemma StrictlySortedDistinct(s: seq<string>)
    requires StrictlySorted(s)
    ensures forall i, j :: 0 <= i < j < |s| ==> s[i] != s[j]
  {
    forall i, j | 0 <= i < j < |s| ensures s[i] != s[j] {
      LexLessIrreflexive(s[i]);
    }
  }

  /** Adds c to a strictly sorted list of distinct strings, where it belongs, unless it is there. */
  function InsertSorted(c: string, s: seq<string>): (r: seq<string>)
    requires StrictlySorted(s)
    ensures StrictlySorted(r)
    ensures forall x :: x in r <==> x == c || x in s
  {
    if s == [] then [c]
    else if c == s[0] then s
    else if LexLess(c, s[0]) then
      forall j | 0 <= j < |s| ensures LexLess(c, s[j]) {
        if j > 0 { LexLessTransitive(c, s[0], s[j]); }
      }
      [c] + s
    else
      LexLessTotal(c, s[0]);
      var rest := InsertSorted(c, s[1..]);
      assert forall x :: x in rest ==> LexLess(s[0], x);
      [s[0]] + rest
  }

  /** categories: Array.from(new Set(inventory.map(c).filter(Boolean))).sort(): each
      non-empty category of the inventory once, in increasing order. */
  function ItemCategories(inv: seq<InventoryItem>): (r: seq<string>)
    ensures StrictlySorted(r)
    ensures forall c :: c in r <==> c != "" && c in CategoryColumn(inv)
  {
    if inv == [] then []
    else
      var rest := ItemCategories(inv[1..]);
      if inv[0].category == "" then rest else InsertSorted(inv[0].category, rest)
  }

  /** The filter buttons: "Todos" clears the selection, a category's button selects it or,
      when it is already selected, clears it again. */
  function ToggleCategory(selected: Option<string>, cat: string): (r: Option<string>)
    ensures r.None? <==> selected == Some(cat)
    ensures r.Some? ==> r.value == cat
  {
    if selected == Some(cat) then None else Some(cat)
  }

  function InCategory(c: string): InventoryItem -> bool
  {
    (i: InventoryItem) => i.category == c
  }

  /** filteredInventory: the whole list when no category is selected (null or ''), else the
      items of the selected category. */
  function FilteredInventory(inv: seq<InventoryItem>, selected: Option<string>): (r: seq<InventoryItem>)
    ensures selected.None? || selected == Some("") ==> r == inv
    ensures selected.Some? && selected.value != "" ==>
      (forall i :: 0 <= i < |r| ==> r[i] in inv && r[i].category == selected.value) &&
      (forall i :: 0 <= i < |inv| && inv[i].category == selected.value ==> inv[i] in r)
  {
    if selected.None? || selected.value == "" then inv else Filter(inv, InCategory(selected.value))
  }

  /** The filtered rows keep the inventory's order, and filtering again by the same category
      changes nothing. */
  lemma FilteredInventoryOrder(inv: seq<InventoryItem>, c: string)
    requires c != ""
    ensures Sublist(FilteredInventory(inv, Some(c)), inv)
    ensures FilteredInventory(FilteredInventory(inv, Some(c)), Some(c)) == FilteredInventory(inv, Some(c))
  {
    FilterIsSublist(inv, InCategory(c));
    FilterIdempotent(inv, InCategory(c));
  }

  /** Every category button selects at least one row. */
  lemma CategoryButtonSelectsRows(inv: seq<InventoryItem>, c: string)
    requires c in ItemCategories(inv)
    ensures FilteredInventory(inv, Some(c)) != []
  {
    CategoryColumnAt(inv);
    var i :| 0 <= i < |inv| && CategoryColumn(inv)[i] == c;
    assert inv[i] in FilteredInventory(inv, Some(c));
  }
}
