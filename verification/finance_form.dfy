/** The ledger entry form (components/FinanceForm.tsx): its validation and the
    Omit<Transaction, 'id'> payload it hands to App's handleAddTransaction. */
module FinanceForm {
  import opened Types
  import opened Seqs
  import opened Text
  import opened Reconcile

  datatype FinanceFormData = FinanceFormData(
    amount: NumText,
    category: FinancialCategory,
    store: Store,
    description: string,
    date: int)

  /** The state the form opens in: CUSTO_FIXO at Fortaleza, today, nothing typed. */
  function InitialForm(today: int): (f: FinanceFormData)
    ensures f.amount.Empty? && f.description == "" && f.date == today
    ensures f.category == CustoFixo && f.store == Fortaleza
  {
    FinanceFormData(Empty, CustoFixo, Fortaleza, "", today)
  }

  /** The two messages errors can hold. */
  datatype FinanceFormError = AmountNotPositive | DescriptionRequired

  predicate FinanceFormOk(f: FinanceFormData)
  {
    Parse(f.amount).Some? && Parse(f.amount).value > 0 && Utf16Length(Trim(f.description)) >= 3
  }

  /** errors: one push per failed check. */
  method Errors(f: FinanceFormData) returns (errs: seq<FinanceFormError>)
    ensures AmountNotPositive in errs <==> Parse(f.amount).None? || Parse(f.amount).value <= 0
    ensures DescriptionRequired in errs <==> Utf16Length(Trim(f.description)) < 3
    ensures errs == [] <==> FinanceFormOk(f)
    ensures NoRepeats(errs)
  {
    var val := Parse(f.amount);
    errs := [];
    if val.None? || val.value <= 0 {
      errs := errs + [AmountNotPositive];
    }
    if Utf16Length(Trim(f.description)) < 3 {
      PushFresh(errs, DescriptionRequired);
      errs := errs + [DescriptionRequired];
    }
  }

  /** What handleSubmit leaves behind: the payload handed to onSubmit, if any, and the form. */
  datatype SubmitOutcome = SubmitOutcome(submitted: Option<TransactionInput>, form: FinanceFormData)

  /** handleSubmit: nothing happens while there are errors. Otherwise the entry carries the
      parsed amount, the category, store and description as chosen and the day's midnight,
      and only the amount and the description are cleared, so the next entry starts from
      the same category, store and date. */
  function Submit(f: FinanceFormData): (r: SubmitOutcome)
    ensures !FinanceFormOk(f) ==> r == SubmitOutcome(None, f)
    ensures FinanceFormOk(f) ==>
      r.submitted.Some? &&
      r.submitted.value.amount == Parse(f.amount).value && r.submitted.value.amount > 0 &&
      r.submitted.value.category == f.category && r.submitted.value.store == f.store &&
      r.submitted.value.description == f.description && r.submitted.value.date == DayStart(f.date)
    ensures FinanceFormOk(f) ==>
      r.form.amount.Empty? && r.form.description == "" &&
      r.form.category == f.category && r.form.store == f.store && r.form.date == f.date
  {
    if !FinanceFormOk(f) then SubmitOutcome(None, f)
    else
      var entry := TransactionInput(DayStart(f.date), Parse(f.amount).value, f.category, f.description, f.store);
      SubmitOutcome(Some(entry), f.(amount := Empty, description := ""))
  }

  /** The form's reset leaves a form it would refuse, so a second click submits nothing. */
  lemma SubmitTwiceSubmitsOnce(f: FinanceFormData)
    requires FinanceFormOk(f)
    ensures Submit(Submit(f).form).submitted.None?
  {
    var g := Submit(f).form;
    assert Parse(g.amount).None?;
  }

  /** A description of two shrimp emoji is four UTF-16 code units long, so it passes the
      three-character check. */
  lemma EmojiDescriptionAccepted(today: int)
    ensures Submit(FinanceFormData(Typed(Some(100)), CustoFixo, Fortaleza, "\U{1F990}\U{1F990}", today)).submitted.Some?
  {
    var d := "\U{1F990}\U{1F990}";
    assert TrimStart(d) == d;
    assert TrimEnd(d) == d;
    Utf16LengthScenario();
  }

  /** A submitted entry becomes a manual ledger line with exactly the entry's fields, put
      in front of the ledger; with a manual id kept clear of the derived forms the books
      stay consistent. */
  lemma SubmittedEntryIsBooked(f: FinanceFormData, b: Books, key: string)
    requires FinanceFormOk(f) && Valid(b) && ManualKeyOk(key)
    requires forall i :: 0 <= i < |b.transactions| ==> b.transactions[i].id != Manual(key)
    ensures var e := Submit(f).submitted.value;
      var r := AddTransaction(b, e, key);
      r.transactions[0] == Transaction(Manual(key), DayStart(f.date), Parse(f.amount).value, f.category, f.description, f.store) &&
      r.transactions[1..] == b.transactions && Valid(r)
  {
    AddTransactionKeepsValid(b, Submit(f).submitted.value, key);
  }
}
