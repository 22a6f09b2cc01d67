/** The monthly income/expense line chart: transactions bucketed under a
    `YYYY-MM` key, the keys in string order, and the two series read off in
    that order. */
module LineChart {
  import opened JsText
  import opened JsValues
  import opened Calendar
  import opened Ledger

  /** `${getFullYear()}-${String(getMonth() + 1).padStart(2, '0')}` of
      `new Date(t.date)`; an invalid date prints both parts as "NaN". */
  function MonthKey(t: JsVal): string {
    match TxDate(t)
    case ValidDate(d) => MonthKeyOf(d.year, d.month)
    case InvalidDate => "NaN-NaN"
  }

  function MonthKeyOf(year: int, month: int): string
    requires 0 <= month < 12
  {
    IntToString(year) + "-" + PadDigits(month + 1, 2)
  }

  /** `monthlyData`. */
  function MonthlyData(txs: seq<JsVal>): Tally<Bucket> {
    Accumulate(txs, MonthKey, Bucket(0.0, 0.0), AddToBucket)
  }

  /** The `reduce` that fills `monthlyData`: one bucket per month with at
      least one transaction, 'income' amounts in its income and every other
      type in its expenses. */
  method BuildMonthlyData(txs: seq<JsVal>) returns (data: Tally<Bucket>)
    ensures data == MonthlyData(txs)
    ensures forall m :: m in data.values <==> exists i :: 0 <= i < |txs| && MonthKey(txs[i]) == m
    ensures forall m :: m in data.values ==>
              data.values[m] == Bucket(KeyedSum(txs, MonthKey, m, IncomeAmount), KeyedSum(txs, MonthKey, m, NonIncomeAmount))
  {
    data := AccumulateLoop(txs, MonthKey, Bucket(0.0, 0.0), AddToBucket);
    BucketsMeaning(txs, MonthKey);
  }

  /** The chart's three parallel sequences. */
  datatype Series = Series(months: seq<string>, incomeData: seq<real>, expenseData: seq<real>)

  /** `sortedMonths`, `incomeData` and `expenseData` (the labels are the
      locale rendering of `sortedMonths`). */
  function ChartSeries(txs: seq<JsVal>): Series {
    var data := MonthlyData(txs);
    var months := SortStrings(data.keys);
    MonthKeysSorted(txs);
    Series(months,
           seq(|months|, i requires 0 <= i < |months| => data.values[months[i]].income),
           seq(|months|, i requires 0 <= i < |months| => data.values[months[i]].expenses))
  }

  lemma MonthKeysSorted(txs: seq<JsVal>)
    ensures SortedStrings(SortStrings(MonthlyData(txs).keys))
    ensures forall m :: m in SortStrings(MonthlyData(txs).keys) <==> m in MonthlyData(txs).values
  {
    var data := MonthlyData(txs);
    SortStringsSorted(data.keys);
    AccumulateMeaning(txs, MonthKey, Bucket(0.0, 0.0), AddToBucket);
    FirstOccurrencesMeaning(KeyList(txs, MonthKey));
    forall m ensures m in SortStrings(data.keys) <==> m in data.keys {
      assert m in SortStrings(data.keys) <==> m in multiset(SortStrings(data.keys));
      assert m in data.keys <==> m in multiset(data.keys);
    }
  }

  /** The series have equal length; position i of each refers to the i-th
      month in ascending order; only months with a transaction appear. */
  lemma ChartSeriesMeaning(txs: seq<JsVal>)
    ensures var s := ChartSeries(txs);
            |s.incomeData| == |s.months| && |s.expenseData| == |s.months| &&
            SortedStrings(s.months) &&
            (forall m :: m in s.months <==> exists i :: 0 <= i < |txs| && MonthKey(txs[i]) == m) &&
            (forall i :: 0 <= i < |s.months| ==>
               s.incomeData[i] == KeyedSum(txs, MonthKey, s.months[i], IncomeAmount) &&
               s.expenseData[i] == KeyedSum(txs, MonthKey, s.months[i], NonIncomeAmount))
  {
    MonthKeysSorted(txs);
    BucketsMeaning(txs, MonthKey);
  }

  /** For a four-digit year the key is `YYYY-MM`: seven characters, a dash in
      the middle, and the digits of the year and of the 1-based month. */
  lemma MonthKeyFormat(year: int, month: int)
    requires 1000 <= year <= 9999 && 0 <= month < 12
    ensures var k := MonthKeyOf(year, month);
            |k| == 7 && k[4] == '-' && AllDigits(k[..4]) && AllDigits(k[5..]) &&
            DigitsValue(k[..4]) == year && DigitsValue(k[5..]) == month + 1
  {
    var k := MonthKeyOf(year, month);
    FourDigitNatToString(year);
    PadDigitsRoundTrip(year, 4);
    PadDigitsRoundTrip(month + 1, 2);
    assert k[..4] == PadDigits(year, 4);
    assert k[5..] == PadDigits(month + 1, 2);
  }

  /** For four-digit years the string order of month keys is chronological. */
  lemma MonthKeyOrder(y1: int, m1: int, y2: int, m2: int)
    requires 1000 <= y1 <= 9999 && 1000 <= y2 <= 9999 && 0 <= m1 < 12 && 0 <= m2 < 12
    ensures LexLe(MonthKeyOf(y1, m1), MonthKeyOf(y2, m2)) <==> y1 < y2 || (y1 == y2 && m1 <= m2)
  {
    FourDigitNatToString(y1);
    FourDigitNatToString(y2);
    var p1, p2 := PadDigits(y1, 4), PadDigits(y2, 4);
    var s1, s2 := "-" + PadDigits(m1 + 1, 2), "-" + PadDigits(m2 + 1, 2);
    assert MonthKeyOf(y1, m1) == p1 + s1;
    assert MonthKeyOf(y2, m2) == p2 + s2;
    LexLeAppend(p1, s1, p2, s2);
    PadDigitsOrder(y1, y2, 4);
    PadDigitsRoundTrip(y1, 4);
    PadDigitsRoundTrip(y2, 4);
    assert p1 == p2 <==> y1 == y2;
    LexLeAppend("-", PadDigits(m1 + 1, 2), "-", PadDigits(m2 + 1, 2));
    PadDigitsOrder(m1 + 1, m2 + 1, 2);
    if y1 != y2 {
      LexLeTotal(p1, p2);
      if LexLe(p1, p2) && LexLe(p2, p1) {
        LexLeAntisym(p1, p2);
      }
    }
  }
}
