/** The three headline totals of the dashboard. */
module Summary {
  import opened JsValues
  import opened Ledger

  datatype Totals = Totals(income: real, expenses: real, balance: real)

  function ExpenseAmount(t: JsVal): real {
    if IsExpense(t) then Amount(t) else 0.0
  }

  /** Neither income nor an exact 'expense'. */
  function OtherAmount(t: JsVal): real {
    if IsIncome(t) || IsExpense(t) then 0.0 else Amount(t)
  }

  /** income: the 'income' amounts; expenses: the amounts of type exactly
      'expense'; balance: their difference. */
  function SummaryTotals(txs: seq<JsVal>): Totals {
    var income := Sum(Select(txs, IsIncome), Amount);
    var expenses := Sum(Select(txs, IsExpense), Amount);
    Totals(income, expenses, income - expenses)
  }

  /** Each total is the sum over the whole list with the other transactions
      counted as 0; records of any other type count in neither total, and
      the balance is income less expenses. */
  lemma SummaryMeaning(txs: seq<JsVal>)
    ensures SummaryTotals(txs).income == Sum(txs, IncomeAmount)
    ensures SummaryTotals(txs).expenses == Sum(txs, ExpenseAmount)
    ensures SummaryTotals(txs).balance == SummaryTotals(txs).income - SummaryTotals(txs).expenses
    ensures Sum(txs, Amount) == SummaryTotals(txs).income + SummaryTotals(txs).expenses + Sum(txs, OtherAmount)
  {
    SumSelect(txs, IsIncome, Amount, IncomeAmount);
    SumSelect(txs, IsExpense, Amount, ExpenseAmount);
    SumSplit(txs, IncomeAmount, ExpenseAmount, t => IncomeAmount(t) + ExpenseAmount(t));
    SumSplit(txs, t => IncomeAmount(t) + ExpenseAmount(t), OtherAmount, Amount);
  }

  lemma SummaryEmpty()
    ensures SummaryTotals([]) == Totals(0.0, 0.0, 0.0)
  {
  }

  /** Adding an income transaction (the store puts new ones first) raises
      income and the balance by its amount and leaves expenses unchanged;
      adding an expense does the converse. */
  lemma SummaryOfAdded(t: JsVal, txs: seq<JsVal>)
    ensures IsIncome(t) ==>
      SummaryTotals([t] + txs).income == SummaryTotals(txs).income + Amount(t) &&
      SummaryTotals([t] + txs).expenses == SummaryTotals(txs).expenses &&
      SummaryTotals([t] + txs).balance == SummaryTotals(txs).balance + Amount(t)
    ensures IsExpense(t) ==>
      SummaryTotals([t] + txs).income == SummaryTotals(txs).income &&
      SummaryTotals([t] + txs).expenses == SummaryTotals(txs).expenses + Amount(t)
    ensures !IsIncome(t) && !IsExpense(t) ==> SummaryTotals([t] + txs) == SummaryTotals(txs)
  {
    SummaryMeaning([t] + txs);
    SummaryMeaning(txs);
    SumAppend([t], txs, IncomeAmount);
    SumAppend([t], txs, ExpenseAmount);
  }

  /** The totals do not depend on the order of the list. */
  lemma SummaryOrderIndependent(a: seq<JsVal>, b: seq<JsVal>)
    requires multiset(a) == multiset(b)
    ensures SummaryTotals(a) == SummaryTotals(b)
  {
    SummaryMeaning(a);
    SummaryMeaning(b);
    SumPermutation(a, b, IncomeAmount);
    SumPermutation(a, b, ExpenseAmount);
  }
}
