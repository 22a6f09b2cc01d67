/** The expense-by-category pie: exact 'expense' transactions summed per
    category, labels and values in the order categories are first seen, one
    palette colour per slice (at most eight), and the tooltip percentage. */
module PieChart {
  import opened JsValues
  import opened Ledger

  /** `COLORS`. */
  const Colors: seq<string> :=
    ["#ef4444", "#f97316", "#eab308", "#22c55e", "#06b6d4", "#3b82f6", "#8b5cf6", "#ec4899"]

  /** `transactions.filter(t => t.type === 'expense')`. */
  function Expenses(txs: seq<JsVal>): seq<JsVal> {
    Select(txs, IsExpense)
  }

  /** `categoryTotals`. */
  function CategoryTotals(txs: seq<JsVal>): Tally<real> {
    Accumulate(Expenses(txs), CategoryKey, 0.0, AddAmount)
  }

  /** Some exact 'expense' transaction is filed under category `c`. */
  predicate HasExpenseIn(txs: seq<JsVal>, c: string) {
    exists i :: 0 <= i < |txs| && IsExpense(txs[i]) && CategoryKey(txs[i]) == c
  }

  /** The `reduce` that fills `categoryTotals`: one total per category of an
      expense, holding the sum of that category's expense amounts. */
  method BuildCategoryTotals(txs: seq<JsVal>) returns (totals: Tally<real>)
    ensures totals == CategoryTotals(txs)
    ensures forall c :: c in totals.values <==> HasExpenseIn(txs, c)
    ensures forall c :: c in totals.values ==> totals.values[c] == KeyedSum(Expenses(txs), CategoryKey, c, Amount)
  {
    totals := AccumulateLoop(Expenses(txs), CategoryKey, 0.0, AddAmount);
    TotalsMeaning(Expenses(txs), CategoryKey);
    AccumulateMeaning(Expenses(txs), CategoryKey, 0.0, AddAmount);
    ExpenseCategories(txs);
  }

  lemma ExpenseCategories(txs: seq<JsVal>)
    ensures forall c :: c in KeyList(Expenses(txs), CategoryKey) <==> HasExpenseIn(txs, c)
  {
    SelectMeaning(txs, IsExpense);
    KeyListMembers(Expenses(txs), CategoryKey);
    forall c ensures c in KeyList(Expenses(txs), CategoryKey) <==> HasExpenseIn(txs, c) {
      if c in KeyList(Expenses(txs), CategoryKey) {
        var i :| 0 <= i < |Expenses(txs)| && CategoryKey(Expenses(txs)[i]) == c;
        assert Expenses(txs)[i] in Expenses(txs);
      }
      if HasExpenseIn(txs, c) {
        var i :| 0 <= i < |txs| && IsExpense(txs[i]) && CategoryKey(txs[i]) == c;
        assert txs[i] in Expenses(txs);
        var j :| 0 <= j < |Expenses(txs)| && Expenses(txs)[j] == txs[i];
        KeyListAt(Expenses(txs), CategoryKey, j);
      }
    }
  }

  /** The chart's data: `labels`, `dataValues` and the slice colours. */
  datatype PieData = PieData(labels: seq<string>, values: seq<real>, colors: seq<string>)

  function Min(a: int, b: int): int {
    if a < b then a else b
  }

  /** `COLORS.slice(0, n)`. */
  function SliceColors(n: nat): (cs: seq<string>)
    ensures |cs| == Min(8, n)
    ensures forall i :: 0 <= i < |cs| ==> cs[i] == Colors[i]
  {
    Colors[..Min(8, n)]
  }

  function Pie(txs: seq<JsVal>): PieData {
    var totals := CategoryTotals(txs);
    AccumulateMeaning(Expenses(txs), CategoryKey, 0.0, AddAmount);
    FirstOccurrencesMeaning(KeyList(Expenses(txs), CategoryKey));
    var labels := totals.keys;
    PieData(labels, seq(|labels|, i requires 0 <= i < |labels| => totals.values[labels[i]]), SliceColors(|labels|))
  }

  /** Labels are the distinct categories of the expenses in first-seen order
      and exactly the categories some expense is filed under. */
  lemma PieLabels(txs: seq<JsVal>)
    ensures Pie(txs).labels == FirstOccurrences(KeyList(Expenses(txs), CategoryKey))
    ensures forall i, j :: 0 <= i < j < |Pie(txs).labels| ==> Pie(txs).labels[i] != Pie(txs).labels[j]
    ensures forall c :: c in Pie(txs).labels <==> HasExpenseIn(txs, c)
  {
    ExpenseCategories(txs);
    AccumulateMeaning(Expenses(txs), CategoryKey, 0.0, AddAmount);
    FirstOccurrencesMeaning(KeyList(Expenses(txs), CategoryKey));
  }

  /** Values run parallel to the labels, each the expense total of its
      category, and min(8, number of categories) colours are assigned. */
  lemma PieValues(txs: seq<JsVal>)
    ensures |Pie(txs).values| == |Pie(txs).labels|
    ensures |Pie(txs).colors| == Min(8, |Pie(txs).labels|)
    ensures forall i :: 0 <= i < |Pie(txs).labels| ==>
              Pie(txs).values[i] == KeyedSum(Expenses(txs), CategoryKey, Pie(txs).labels[i], Amount)
  {
    var p := Pie(txs);
    TotalsMeaning(Expenses(txs), CategoryKey);
    AccumulateMeaning(Expenses(txs), CategoryKey, 0.0, AddAmount);
    FirstOccurrencesMeaning(KeyList(Expenses(txs), CategoryKey));
    forall i | 0 <= i < |p.labels|
      ensures p.values[i] == KeyedSum(Expenses(txs), CategoryKey, p.labels[i], Amount)
    {
      assert p.labels[i] in CategoryTotals(txs).values;
    }
  }

  /** Only exact 'expense' transactions contribute: adding a record of any
      other type leaves the chart as it was. */
  lemma NonExpenseIgnored(txs: seq<JsVal>, t: JsVal)
    requires !IsExpense(t)
    ensures Pie([t] + txs) == Pie(txs)
  {
    SelectAppend([t], txs, IsExpense);
    assert Select([t], IsExpense) == [];
    assert Expenses([t] + txs) == Expenses(txs);
  }

  /** The empty-state view is shown exactly when there is no expense; the
      chart then has no slices. */
  lemma EmptyState(txs: seq<JsVal>)
    ensures |Expenses(txs)| == 0 <==> forall i :: 0 <= i < |txs| ==> !IsExpense(txs[i])
    ensures |Expenses(txs)| == 0 ==> Pie(txs).labels == []
    ensures |Expenses(txs)| > 0 ==> |Pie(txs).labels| > 0
  {
    SelectMeaning(txs, IsExpense);
    PieLabels(txs);
    if |Expenses(txs)| > 0 {
      var e := Expenses(txs)[0];
      assert e in Expenses(txs);
      var i :| 0 <= i < |txs| && txs[i] == e;
      assert HasExpenseIn(txs, CategoryKey(e));
    }
  }

  /** The tooltip's `(value / total) * 100`, with the dataset total. */
  function Percentage(value: real, values: seq<real>): JsNum {
    NumScale(NumDiv(Finite(value), Finite(Sum(values, x => x))), 100.0)
  }

  /** Over a dataset with a non-zero total the slice percentages add up to
      100; over a zero total each is NaN or infinite. */
  lemma PercentagesTotal(values: seq<real>)
    ensures Sum(values, x => x) != 0.0 ==>
      (forall i :: 0 <= i < |values| ==> Percentage(values[i], values).Finite?) &&
      Sum(seq(|values|, i requires 0 <= i < |values| => Percentage(values[i], values).r), x => x) == 100.0
    ensures Sum(values, x => x) == 0.0 ==> forall i :: 0 <= i < |values| ==> !Percentage(values[i], values).Finite?
  {
    var total := Sum(values, x => x);
    forall i | 0 <= i < |values|
      ensures total != 0.0 ==> Percentage(values[i], values) == Finite(values[i] / total * 100.0)
      ensures total == 0.0 ==> !Percentage(values[i], values).Finite?
    {
      PercentageOf(values[i], total);
    }
    if total != 0.0 {
      var ps := seq(|values|, i requires 0 <= i < |values| => Percentage(values[i], values).r);
      ScaledSum(values, total);
      assert ps == seq(|values|, i requires 0 <= i < |values| => values[i] / total * 100.0);
    }
  }

  /** One slice's percentage of a dataset total. */
  lemma PercentageOf(value: real, total: real)
    ensures total != 0.0 ==> NumScale(NumDiv(Finite(value), Finite(total)), 100.0) == Finite(value / total * 100.0)
    ensures total == 0.0 ==> !NumScale(NumDiv(Finite(value), Finite(total)), 100.0).Finite?
  {
  }

  lemma {:induction false} ScaledSum(values: seq<real>, total: real)
    requires total != 0.0
    ensures Sum(seq(|values|, i requires 0 <= i < |values| => values[i] / total * 100.0), x => x) ==
            Sum(values, x => x) / total * 100.0
  {
    if values != [] {
      var init := values[..|values| - 1];
      ScaledSum(init, total);
      var s := seq(|values|, i requires 0 <= i < |values| => values[i] / total * 100.0);
      assert s[..|s| - 1] == seq(|init|, i requires 0 <= i < |init| => init[i] / total * 100.0);
      var a, b := Sum(init, x => x), values[|values| - 1];
      assert a / total * 100.0 + b / total * 100.0 == (a + b) / total * 100.0;
    }
  }
}
