/** The sale entry form (components/SalesForm.tsx): its validation, the automatic pricing
    when a product or a quantity is chosen, and the Omit<Sale, 'id'> payload it hands to
    App's handleAddSale. The form keeps its numbers as typed text; a date is the day
    picked in the date input. */
module SalesForm {
  import opened Types
  import opened Seqs
  import opened Text
  import opened Stock
  import opened Reconcile

  datatype SaleFormData = SaleFormData(
    amount: NumText,
    store: Store,
    salesperson: Salesperson,
    description: string,
    date: int,
    productId: string,
    quantity: NumText)

  /** The state the form opens in and is reset to: no product ('' is "Lançamento Manual"),
      quantity '1', today's date. */
  function InitialForm(today: int): (f: SaleFormData)
    ensures f.amount.Empty? && f.description == "" && f.productId == "" && f.date == today
    ensures Parse(f.quantity) == Some(1)
    ensures f.store == Fortaleza && f.salesperson == Stela
  {
    SaleFormData(Empty, Fortaleza, Stela, "", today, "", Typed(Some(1)))
  }

  /** selectedProduct: inventory.find(p => p.id === formData.productId). */
  function SelectedProduct(f: SaleFormData, inv: seq<InventoryItem>): Option<InventoryItem>
  {
    FindItem(inv, f.productId)
  }

  /** The four messages errors can hold; the stock message shows the available quantity. */
  datatype SaleFormError = AmountNotPositive | QuantityBelowOne | InsufficientStock(available: int) | DescriptionTooShort

  /** The stock the stock message reports: present exactly when a product is selected and
      the parsed quantity exceeds its stock (a NaN quantity exceeds nothing). */
  function Shortfall(f: SaleFormData, inv: seq<InventoryItem>): (r: Option<int>)
    ensures r.Some? <==> SelectedProduct(f, inv).Some? && Parse(f.quantity).Some? &&
                         Parse(f.quantity).value > SelectedProduct(f, inv).value.quantity
    ensures r.Some? ==> r.value == SelectedProduct(f, inv).value.quantity
  {
    match SelectedProduct(f, inv)
    case None => None
    case Some(p) =>
      var qty := Parse(f.quantity);
      if qty.Some? && qty.value > p.quantity then Some(p.quantity) else None
  }

  /** A form errors has nothing to say about. */
  predicate SaleFormOk(f: SaleFormData, inv: seq<InventoryItem>)
  {
    Parse(f.amount).Some? && Parse(f.amount).value > 0 &&
    Parse(f.quantity).Some? && Parse(f.quantity).value > 0 &&
    Shortfall(f, inv).None? &&
    Utf16Length(Trim(f.description)) >= 3
  }

  /** errors: one push per failed check, in the order of the checks. */
  method Errors(f: SaleFormData, inv: seq<InventoryItem>) returns (errs: seq<SaleFormError>)
    ensures AmountNotPositive in errs <==> Parse(f.amount).None? || Parse(f.amount).value <= 0
    ensures QuantityBelowOne in errs <==> Parse(f.quantity).None? || Parse(f.quantity).value <= 0
    ensures forall a :: InsufficientStock(a) in errs <==> Shortfall(f, inv) == Some(a)
    ensures DescriptionTooShort in errs <==> Utf16Length(Trim(f.description)) < 3
    ensures errs == [] <==> SaleFormOk(f, inv)
    ensures NoRepeats(errs)
  {
    var amt := Parse(f.amount);
    var qty := Parse(f.quantity);
    var selectedProduct := SelectedProduct(f, inv);
    var trimmedLength := Utf16Length(Trim(f.description));
    errs := [];
    if amt.None? || amt.value <= 0 {
      errs := errs + [AmountNotPositive];
    }
    if qty.None? || qty.value <= 0 {
      PushFresh(errs, QuantityBelowOne);
      errs := errs + [QuantityBelowOne];
    }
    if selectedProduct.Some? && qty.Some? && qty.value > selectedProduct.value.quantity {
      PushFresh(errs, InsufficientStock(selectedProduct.value.quantity));
      errs := errs + [InsufficientStock(selectedProduct.value.quantity)];
    }
    if trimmedLength < 3 {
      PushFresh(errs, DescriptionTooShort);
      errs := errs + [DescriptionTooShort];
    }
  }

  /** price * n, where a NaN count gives NaN. */
  function Times(price: Money, n: Option<int>): (r: Option<int>)
    ensures r.Some? <==> n.Some?
    ensures n.Some? ==> r.value == price * n.value
  {
    if n.None? then None else Some(price * n.value)
  }

  /** handleProductChange: picking a product prices the sale at its unit price times the
      quantity typed (1 when the field is empty) and describes it as "Venda de <name>";
      picking "Lançamento Manual" (or an unknown id) clears the product and the amount. */
  function ProductChange(f: SaleFormData, inv: seq<InventoryItem>, id: string): (r: SaleFormData)
    ensures r.store == f.store && r.salesperson == f.salesperson && r.date == f.date && r.quantity == f.quantity
    ensures FindItem(inv, id).Some? ==>
      r.productId == id &&
      Parse(r.amount) == Times(FindItem(inv, id).value.unitPrice, ParseOr(f.quantity, 1)) &&
      r.description == "Venda de " + FindItem(inv, id).value.name
    ensures FindItem(inv, id).None? ==> r.productId == "" && r.amount.Empty? && r.description == f.description
  {
    match FindItem(inv, id)
    case Some(product) =>
      f.(productId := id,
         amount := Show(Times(product.unitPrice, ParseOr(f.quantity, 1))),
         description := "Venda de " + product.name)
    case None =>
      f.(productId := "", amount := Empty)
  }

  /** handleQtyChange: the quantity is stored as typed; with a product selected the amount is
      re-priced (an empty quantity counts as 0), otherwise the amount typed by hand is kept. */
  function QtyChange(f: SaleFormData, inv: seq<InventoryItem>, qty: NumText): (r: SaleFormData)
    ensures r.quantity == qty
    ensures r.store == f.store && r.salesperson == f.salesperson && r.date == f.date
    ensures r.productId == f.productId && r.description == f.description
    ensures SelectedProduct(f, inv).Some? ==>
      Parse(r.amount) == Times(SelectedProduct(f, inv).value.unitPrice, ParseOr(qty, 0))
    ensures SelectedProduct(f, inv).None? ==> r.amount == f.amount
  {
    match SelectedProduct(f, inv)
    case Some(product) => f.(quantity := qty, amount := Show(Times(product.unitPrice, ParseOr(qty, 0))))
    case None => f.(quantity := qty)
  }

  /** Choosing a product and then typing a quantity prices the sale at the catalogue's
      unit price times that quantity. */
  lemma ChosenProductIsPriced(f: SaleFormData, inv: seq<InventoryItem>, id: string, n: int)
    requires FindItem(inv, id).Some?
    ensures var r := QtyChange(ProductChange(f, inv, id), inv, Typed(Some(n)));
      Parse(r.amount) == Some(FindItem(inv, id).value.unitPrice * n) && r.productId == id
  {
  }

  /** What handleSubmit leaves behind: the payload handed to onSubmit, if any, and the form. */
  datatype SubmitOutcome = SubmitOutcome(submitted: Option<SaleInput>, form: SaleFormData)

  /** handleSubmit: nothing happens while there are errors. Otherwise the payload carries
      the parsed amount, the day's midnight, productId '' as absent, and
      parseInt(quantity) || undefined as the quantity (kept for a manual sale too); the
      form is reset. */
  function Submit(f: SaleFormData, inv: seq<InventoryItem>, today: int): (r: SubmitOutcome)
    ensures !SaleFormOk(f, inv) ==> r == SubmitOutcome(None, f)
    ensures SaleFormOk(f, inv) ==> r.submitted.Some? && r.form == InitialForm(today)
    ensures SaleFormOk(f, inv) ==>
      var s := r.submitted.value;
      s.amount == Parse(f.amount).value && s.amount > 0 &&
      s.date == DayStart(f.date) && s.store == f.store && s.salesperson == f.salesperson &&
      s.description == f.description &&
      (s.productId.None? <==> f.productId == "") &&
      (s.productId.Some? ==> s.productId.value == f.productId) &&
      s.quantity == Parse(f.quantity) && s.quantity.value >= 1
  {
    if !SaleFormOk(f, inv) then SubmitOutcome(None, f)
    else
      var qty := Parse(f.quantity);
      var sale := SaleInput(
        DayStart(f.date),
        Parse(f.amount).value,
        f.store,
        f.salesperson,
        f.description,
        if f.productId == "" then None else Some(f.productId),
        if qty.None? || qty.value == 0 then None else qty);
      SubmitOutcome(Some(sale), InitialForm(today))
  }

  /** The form's stock check and the engine agree: a sale submitted against the inventory
      it was checked with takes its quantity off the product's stock exactly, so the
      clamp at zero never acts, and every other item keeps its stock. */
  lemma SubmittedSaleNeverClamps(f: SaleFormData, inv: seq<InventoryItem>, today: int, id: string)
    requires SaleFormOk(f, inv) && f.productId != ""
    requires forall i, j :: 0 <= i < j < |inv| ==> inv[i].id != inv[j].id
    ensures var sale := WithId(Submit(f, inv, today).submitted.value, id);
      var after := SaleStock(inv, sale, false, inv);
      |after| == |inv| &&
      forall i :: 0 <= i < |inv| ==>
        after[i].quantity == if inv[i].id == f.productId then inv[i].quantity - sale.quantity.value else inv[i].quantity
  {
    var sale := WithId(Submit(f, inv, today).submitted.value, id);
    var q := sale.quantity.value;
    match FindItem(inv, f.productId)
    case None =>
    case Some(p) =>
      AdjustSpec(inv, f.productId, -q);
      forall i | 0 <= i < |inv| && inv[i].id == f.productId ensures inv[i] == p {
        var j :| 0 <= j < |inv| && inv[j] == p;
        assert !(i < j) && !(j < i);
      }
  }

  /** A sale entered without a product is booked as revenue only, even though it carries
      a quantity; the inventory is not touched. */
  lemma ManualSaleOnlyRevenue(f: SaleFormData, inv: seq<InventoryItem>, today: int, id: string)
    requires SaleFormOk(f, inv) && f.productId == ""
    ensures var sale := WithId(Submit(f, inv, today).submitted.value, id);
      sale.quantity.Some? && |SaleTransactions(sale, inv)| == 1 && SaleStock(inv, sale, false, inv) == inv
  {
  }
}
