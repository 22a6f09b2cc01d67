/** The budget panel: the month it looks at (today minus an offset), what was
    spent per category in that month, the progress bar of each budget, and
    the handlers that change the offset and write a budget. */
module BudgetManager {
  import opened JsText
  import opened JsValues
  import opened Calendar
  import opened Ledger
  import Backup

  // ---------------------------------------------------------------------
  // The target month

  /** `targetDate.setMonth(targetDate.getMonth() - monthOffset)` on today's
      date, as written: the day of the month is kept, so on the 29th-31st the
      date can roll over into the month after the one intended. */
  function TargetDateAsWritten(now: DateTime, offset: int): JsDate {
    SetMonth(ValidDate(now), now.month - offset)
  }

  /** The month `offset` months before today's, as (year, month 0..11). */
  function TargetMonth(now: DateTime, offset: int): (r: (int, int))
    ensures 0 <= r.1 < 12
    ensures r.0 * 12 + r.1 == now.year * 12 + now.month - offset
  {
    var total := now.year * 12 + now.month - offset;
    (total / 12, total % 12)
  }

  /** Offset 0 is today's month, and each further step goes back exactly one
      calendar month, so different offsets name different months. */
  lemma TargetMonthSteps(now: DateTime, k: nat, j: nat)
    requires Valid(now)
    ensures TargetMonth(now, 0) == (now.year, now.month)
    ensures TargetMonth(now, k + 1) == PrevMonth(TargetMonth(now, k).0, TargetMonth(now, k).1)
    ensures k != j ==> TargetMonth(now, k) != TargetMonth(now, j)
  {
  }

  /** Up to the 28th the date as written lands in the intended month. */
  lemma TargetDateAgreesUpTo28th(now: DateTime, offset: int)
    requires Valid(now) && now.day <= 28
    ensures TargetDateAsWritten(now, offset).ValidDate? ==>
              (TargetDateAsWritten(now, offset).dt.year, TargetDateAsWritten(now, offset).dt.month) ==
              TargetMonth(now, offset)
  {
    var m := now.month - offset;
    assert 1 <= now.day <= DaysInMonth(now.year + m / 12, m % 12);
  }

  /** Where the date as written lands: on today's day of the intended month
      when that month is long enough, and otherwise that many days into the
      month after it, always at today's time of day. */
  lemma TargetDateMeaning(now: DateTime, offset: int)
    requires Valid(now)
    ensures var t := TargetMonth(now, offset);
            var n := NextMonth(t.0, t.1);
            TargetDateAsWritten(now, offset).ValidDate? ==>
              (now.day <= DaysInMonth(t.0, t.1) ==>
                 TargetDateAsWritten(now, offset).dt == DateTime(t.0, t.1, now.day, now.ms)) &&
              (now.day > DaysInMonth(t.0, t.1) ==>
                 TargetDateAsWritten(now, offset).dt == DateTime(n.0, n.1, now.day - DaysInMonth(t.0, t.1), now.ms))
  {
    var m := now.month - offset;
    var t := TargetMonth(now, offset);
    assert (t.0, t.1) == (now.year + m / 12, m % 12);
    assert MakeDateTime(now.year, m, now.day, now.ms) == NormalizeDay(t.0, t.1, now.day, now.ms);
    if now.day > DaysInMonth(t.0, t.1) {
      var n := NextMonth(t.0, t.1);
      assert 1 <= now.day - DaysInMonth(t.0, t.1) <= 3 <= DaysInMonth(n.0, n.1);
      assert NormalizeDay(t.0, t.1, now.day, now.ms) == NormalizeDay(n.0, n.1, now.day - DaysInMonth(t.0, t.1), now.ms);
    }
  }

  /** On 31 October, one month back gives 1 October: the panel shows October
      again instead of September. */
  lemma TargetDateRollover()
    ensures var now := DateTime(2025, 9, 31, 43200000);
            TargetDateAsWritten(now, 1) == ValidDate(DateTime(2025, 9, 1, 43200000)) &&
            TargetMonth(now, 1) == (2025, 8)
  {
    var now := DateTime(2025, 9, 31, 43200000);
    assert MakeDateTime(2025, 8, 31, 43200000) == NormalizeDay(2025, 8, 31, 43200000);
    assert DaysInMonth(2025, 8) == 30;
    assert NormalizeDay(2025, 8, 31, 43200000) == NormalizeDay(2025, 9, 1, 43200000);
  }

  // ---------------------------------------------------------------------
  // Spending in the target month

  /** An exact 'expense' dated in the given month. */
  predicate SpentIn(t: JsVal, year: int, month: int) {
    IsExpense(t) && TxDate(t).ValidDate? && TxDate(t).dt.year == year && TxDate(t).dt.month == month
  }

  function MonthExpenses(txs: seq<JsVal>, year: int, month: int): seq<JsVal> {
    Select(txs, t => SpentIn(t, year, month))
  }

  /** `spending` for the month. */
  function Spending(txs: seq<JsVal>, year: int, month: int): map<string, real> {
    Accumulate(MonthExpenses(txs, year, month), CategoryKey, 0.0, AddAmount).values
  }

  /** Some expense of the month is filed under `c`. */
  predicate SpentOn(txs: seq<JsVal>, year: int, month: int, c: string) {
    exists i :: 0 <= i < |txs| && SpentIn(txs[i], year, month) && CategoryKey(txs[i]) == c
  }

  /** The `filter` and `reduce` that build `spending`: a category appears iff
      some expense of the month is filed under it, and holds the sum of the
      amounts of those expenses. */
  method BuildSpending(txs: seq<JsVal>, year: int, month: int) returns (spending: map<string, real>)
    ensures spending == Spending(txs, year, month)
    ensures forall c :: c in spending <==> SpentOn(txs, year, month, c)
    ensures forall c :: c in spending ==> spending[c] == KeyedSum(MonthExpenses(txs, year, month), CategoryKey, c, Amount)
  {
    var expenses: seq<JsVal> := [];
    var i := 0;
    while i < |txs|
      invariant 0 <= i <= |txs|
      invariant expenses == MonthExpenses(txs[..i], year, month)
    {
      assert txs[..i + 1][..i] == txs[..i];
      if SpentIn(txs[i], year, month) {
        expenses := expenses + [txs[i]];
      }
      i := i + 1;
    }
    assert txs[..i] == txs;
    var totals := AccumulateLoop(expenses, CategoryKey, 0.0, AddAmount);
    spending := totals.values;
    TotalsMeaning(expenses, CategoryKey);
    SpendingCategories(txs, year, month);
  }

  lemma SpendingCategories(txs: seq<JsVal>, year: int, month: int)
    ensures forall c :: c in Spending(txs, year, month) <==> SpentOn(txs, year, month, c)
  {
    var es := MonthExpenses(txs, year, month);
    TotalsMeaning(es, CategoryKey);
    SelectMeaning(txs, t => SpentIn(t, year, month));
    forall c ensures c in Spending(txs, year, month) <==> SpentOn(txs, year, month, c) {
      if c in Spending(txs, year, month) {
        var i :| 0 <= i < |es| && CategoryKey(es[i]) == c;
        assert es[i] in es;
      }
      if SpentOn(txs, year, month, c) {
        var i :| 0 <= i < |txs| && SpentIn(txs[i], year, month) && CategoryKey(txs[i]) == c;
        assert txs[i] in es;
      }
    }
  }

  /** Only expenses of the month count: adding any other record leaves the
      spending as it was. */
  lemma SpendingIgnoresOthers(txs: seq<JsVal>, t: JsVal, year: int, month: int)
    requires !SpentIn(t, year, month)
    ensures Spending([t] + txs, year, month) == Spending(txs, year, month)
  {
    SelectAppend([t], txs, u => SpentIn(u, year, month));
    assert Select([t], u => SpentIn(u, year, month)) == [];
    assert MonthExpenses([t] + txs, year, month) == MonthExpenses(txs, year, month);
  }

  /** `spending[cat] || 0`: a budgeted category with no spend reads 0. */
  function Spent(spending: map<string, real>, cat: string): (r: real)
    ensures cat !in spending ==> r == 0.0
    ensures cat in spending ==> r == spending[cat]
  {
    if cat in spending then spending[cat] else 0.0
  }

  // ---------------------------------------------------------------------
  // Progress bars

  /** `Math.min((spent / limit) * 100, 100)`. */
  function Pct(spent: real, limit: JsVal): JsNum {
    NumMin(NumScale(NumDiv(Finite(spent), ToNumber(limit)), 100.0), Finite(100.0))
  }

  /** The bar never goes past 100 percent: the result is NaN (a zero or
      non-numeric limit with nothing spent), -Infinity, or a number <= 100. */
  lemma PctAtMost100(spent: real, limit: JsVal)
    ensures !Pct(spent, limit).PosInf?
    ensures Pct(spent, limit).Finite? ==> Pct(spent, limit).r <= 100.0
  {
    CappedAtMost100(spent, ToNumber(limit));
  }

  lemma CappedAtMost100(spent: real, n: JsNum)
    ensures !NumMin(NumScale(NumDiv(Finite(spent), n), 100.0), Finite(100.0)).PosInf?
    ensures NumMin(NumScale(NumDiv(Finite(spent), n), 100.0), Finite(100.0)).Finite? ==>
              NumMin(NumScale(NumDiv(Finite(spent), n), 100.0), Finite(100.0)).r <= 100.0
  {
  }

  datatype BarColour = Red | Yellow | Green

  /** `pct >= 100 ? red : pct >= 80 ? yellow : green`. */
  function Colour(pct: JsNum): BarColour {
    if NumGe(pct, Finite(100.0)) then Red
    else if NumGe(pct, Finite(80.0)) then Yellow
    else Green
  }

  /** Against a positive limit, the bar is red once the limit is reached,
      yellow from 80 percent of it, and green below that. */
  lemma ColourOfSpend(spent: real, limit: real)
    requires limit > 0.0
    ensures Colour(Pct(spent, Num(Finite(limit)))) == Red <==> spent >= limit
    ensures Colour(Pct(spent, Num(Finite(limit)))) == Yellow <==> 0.8 * limit <= spent < limit
    ensures Colour(Pct(spent, Num(Finite(limit)))) == Green <==> spent < 0.8 * limit
  {
    var q := spent / limit;
    var p := q * 100.0;
    assert Pct(spent, Num(Finite(limit))) == Finite(if p < 100.0 then p else 100.0);
    RatioAtLeast(spent, limit, 1.0);
    RatioAtLeast(spent, limit, 0.8);
  }

  lemma RatioAtLeast(spent: real, limit: real, k: real)
    requires limit > 0.0
    ensures spent / limit >= k <==> spent >= k * limit
  {
    var q := spent / limit;
    assert q * limit == spent;
    if q >= k {
      assert q * limit >= k * limit;
    } else {
      assert q * limit < k * limit;
    }
  }

  // ---------------------------------------------------------------------
  // The panel's state

  class Panel {
    /** The `budgets` object the panel reads and replaces. */
    var budgets: map<string, JsVal>
    var category: string
    /** The text of the amount input. */
    var amount: string
    var monthOffset: int

    predicate Valid()
      reads this
    {
      monthOffset >= 0
    }

    constructor(budgets: map<string, JsVal>)
      ensures Valid()
      ensures this.budgets == budgets && category == "Food" && amount == "" && monthOffset == 0
    {
      this.budgets := budgets;
      category := "Food";
      amount := "";
      monthOffset := 0;
    }

    /** The date whose month and year the panel shows and filters by, as
      written: today moved back `monthOffset` months with `setMonth`. Up to
      the 28th it lies in the intended month; later in the month it can roll
      over into the month after the intended one. */
    function Target(now: DateTime): (r: JsDate)
      requires Calendar.Valid(now)
      reads this
      ensures var t := TargetMonth(now, monthOffset);
              r.ValidDate? ==>
                r.dt.ms == now.ms &&
                ((r.dt.year, r.dt.month) == t || (r.dt.year, r.dt.month) == NextMonth(t.0, t.1)) &&
                (now.day <= 28 ==> (r.dt.year, r.dt.month) == t && r.dt.day == now.day)
    {
      TargetDateMeaning(now, monthOffset);
      TargetDateAsWritten(now, monthOffset)
    }

    /** "Previous" goes one month further back. */
    method Previous()
      requires Valid()
      modifies this
      ensures Valid()
      ensures monthOffset == old(monthOffset) + 1
      ensures budgets == old(budgets) && category == old(category) && amount == old(amount)
    {
      monthOffset := monthOffset + 1;
    }

    /** "Next" comes one month forward, never past the current month. */
    method Next()
      requires Valid()
      modifies this
      ensures Valid()
      ensures monthOffset == if old(monthOffset) >= 1 then old(monthOffset) - 1 else 0
      ensures budgets == old(budgets) && category == old(category) && amount == old(amount)
    {
      monthOffset := if monthOffset - 1 > 0 then monthOffset - 1 else 0;
    }

    method SetCategory(c: string)
      requires Valid()
      modifies this
      ensures Valid()
      ensures category == c
      ensures budgets == old(budgets) && amount == old(amount) && monthOffset == old(monthOffset)
    {
      category := c;
    }

    method SetAmount(a: string)
      requires Valid()
      modifies this
      ensures Valid()
      ensures amount == a
      ensures budgets == old(budgets) && category == old(category) && monthOffset == old(monthOffset)
    {
      amount := a;
    }

    /** `setBudget`: nothing happens while the input is empty; otherwise the
      selected category gets `Number(amount)`, whatever that is (no check
      that it is positive or even a number), and the input is cleared. */
    method SetBudget()
      requires Valid()
      modifies this
      ensures Valid()
      ensures old(amount) == "" ==> budgets == old(budgets) && amount == old(amount)
      ensures old(amount) != "" ==>
                budgets == old(budgets)[old(category) := Num(StringToNumber(old(amount)))] && amount == ""
      ensures category == old(category) && monthOffset == old(monthOffset)
    {
      if amount == "" {
        return;
      }
      budgets := budgets[category := Num(StringToNumber(amount))];
      amount := "";
    }
  }

  /** The panel writes a flat `{ category: number }` object, but both budget
      sanitisers expect `{ monthKey: { category: limit } }` and drop every
      non-object month, so what the panel writes does not survive a restore:
      a flat map of numbers restores as {}. */
  lemma FlatBudgetsRestoreEmpty(budgets: map<string, JsVal>)
    requires forall c :: c in budgets ==> budgets[c].Num?
    ensures Backup.SanitizedBudgets(Obj(budgets)) == map[]
  {
    Backup.SanitizedBudgetsMeaning(Obj(budgets));
  }

  /** In particular the category `setBudget` just wrote is never among the
      restored months. */
  lemma SetBudgetLostOnRestore(budgets: map<string, JsVal>, category: string, amount: string)
    ensures category !in Backup.SanitizedBudgets(Obj(budgets[category := Num(StringToNumber(amount))]))
  {
    Backup.SanitizedBudgetsMeaning(Obj(budgets[category := Num(StringToNumber(amount))]));
  }
}
