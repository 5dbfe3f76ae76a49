/** The split of the ledger every report makes: RECEITA lines are income, every other
    category is an expense. */
module Ledger {
  import opened Types
  import opened Seqs

  function TxAmount(t: Transaction): int
  {
    t.amount
  }

  function SaleAmount(s: Sale): int
  {
    s.amount
  }

  function IsIncome(t: Transaction): bool
  {
    IsRevenue(t.category)
  }

  function IsExpense(t: Transaction): bool
  {
    !IsRevenue(t.category)
  }

  /** The income of a list of lines: the RECEITA amounts added up. */
  function Income(txs: seq<Transaction>): int
  {
    SumOf(Filter(txs, IsIncome), TxAmount)
  }

  /** The expenses of a list of lines: every other amount added up. */
  function Expenses(txs: seq<Transaction>): int
  {
    SumOf(Filter(txs, IsExpense), TxAmount)
  }

  /** Income and expenses together account for every line exactly once. */
  lemma IncomePlusExpenses(txs: seq<Transaction>)
    ensures Income(txs) + Expenses(txs) == SumOf(txs, TxAmount)
  {
    SumOfPartition(txs, IsIncome, IsExpense, TxAmount);
  }

  function SignedAmount(t: Transaction): int
  {
    if IsRevenue(t.category) then t.amount else -t.amount
  }

  /** The balance, income minus expenses, is the ledger summed with every expense
      counted negatively. */
  lemma {:induction false} BalanceIsSignedSum(txs: seq<Transaction>)
    ensures Income(txs) - Expenses(txs) == SumOf(txs, SignedAmount)
  {
    if txs != [] {
      BalanceIsSignedSum(txs[1..]);
      var t := txs[0];
      SumOfConcat(if IsIncome(t) then [t] else [], Filter(txs[1..], IsIncome), TxAmount);
      SumOfConcat(if IsExpense(t) then [t] else [], Filter(txs[1..], IsExpense), TxAmount);
    }
  }
}
