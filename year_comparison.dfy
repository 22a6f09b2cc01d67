/** The year-over-year table: transactions bucketed by calendar year, the
    years in string order, and each row compared with the row before it. */
module YearComparison {
  import opened JsText
  import opened JsValues
  import opened Calendar
  import opened Ledger

  /** The key `data[year]` uses: the full year of `new Date(t.date)`, or
      "NaN" when the date is invalid. */
  function YearKey(t: JsVal): string {
    match TxDate(t)
    case ValidDate(d) => IntToString(d.year)
    case InvalidDate => "NaN"
  }

  /** `yearlyData`. */
  function YearlyData(txs: seq<JsVal>): Tally<Bucket> {
    Accumulate(txs, YearKey, Bucket(0.0, 0.0), AddToBucket)
  }

  /** The `forEach` that fills `yearlyData`. */
  method BuildYearlyData(txs: seq<JsVal>) returns (data: Tally<Bucket>)
    ensures data == YearlyData(txs)
    ensures forall y :: y in data.values <==> exists i :: 0 <= i < |txs| && YearKey(txs[i]) == y
    ensures forall y :: y in data.values ==>
              data.values[y] == Bucket(KeyedSum(txs, YearKey, y, IncomeAmount), KeyedSum(txs, YearKey, y, NonIncomeAmount))
  {
    data := AccumulateLoop(txs, YearKey, Bucket(0.0, 0.0), AddToBucket);
    BucketsMeaning(txs, YearKey);
  }

  /** The yearly buckets do not depend on the order of the transactions. */
  lemma YearlyDataOrderIndependent(a: seq<JsVal>, b: seq<JsVal>)
    requires multiset(a) == multiset(b)
    ensures YearlyData(a).values == YearlyData(b).values
  {
    BucketsOrderIndependent(a, b, YearKey);
  }

  /** Every key in the order of creation is a bucket, and conversely. */
  predicate Consistent<V>(t: Tally<V>) {
    (forall k :: k in t.keys ==> k in t.values) && (forall k :: k in t.values ==> k in t.keys)
  }

  lemma YearlyDataConsistent(txs: seq<JsVal>)
    ensures Consistent(YearlyData(txs))
  {
    AccumulateMeaning(txs, YearKey, Bucket(0.0, 0.0), AddToBucket);
    FirstOccurrencesMeaning(KeyList(txs, YearKey));
  }

  /** `Object.keys(yearlyData).sort()`. */
  function Years(data: Tally<Bucket>): (years: seq<string>)
    ensures SortedStrings(years)
    ensures multiset(years) == multiset(data.keys)
  {
    SortStringsSorted(data.keys);
    SortStrings(data.keys)
  }

  datatype YearRow = YearRow(
    year: string,
    income: real,
    expenses: real,
    savings: real,
    incomeChange: Option<real>,
    expenseChange: Option<real>,
    savingsChange: Option<real>)

  /** `previous.x > 0 ? (current.x - previous.x) / previous.x * 100 : null`. */
  function PercentChange(current: real, previous: real): Option<real> {
    if previous > 0.0 then Some((current - previous) / previous * 100.0) else None
  }

  function Row(years: seq<string>, data: map<string, Bucket>, i: nat): YearRow
    requires i < |years|
    requires forall y :: y in years ==> y in data
  {
    var current := data[years[i]];
    var savings := current.income - current.expenses;
    if i == 0 then YearRow(years[i], current.income, current.expenses, savings, None, None, None)
    else
      var previous := data[years[i - 1]];
      YearRow(years[i], current.income, current.expenses, savings,
              PercentChange(current.income, previous.income),
              PercentChange(current.expenses, previous.expenses),
              Some(savings - (previous.income - previous.expenses)))
  }

  /** `comparisons`. */
  function Comparisons(data: Tally<Bucket>): seq<YearRow>
    requires Consistent(data)
  {
    var years := Years(data);
    assert forall y :: y in years ==> y in data.keys by {
      forall y | y in years ensures y in data.keys {
        assert y in multiset(years);
      }
    }
    seq(|years|, i requires 0 <= i < |years| => Row(years, data.values, i))
  }

  /** The years listed are exactly the years of the transactions. */
  lemma YearsMeaning(txs: seq<JsVal>)
    ensures Consistent(YearlyData(txs))
    ensures forall y :: y in Years(YearlyData(txs)) <==> y in YearlyData(txs).values
    ensures forall y :: y in Years(YearlyData(txs)) <==> exists i :: 0 <= i < |txs| && YearKey(txs[i]) == y
  {
    YearlyDataConsistent(txs);
    var data := YearlyData(txs);
    var years := Years(data);
    BucketsMeaning(txs, YearKey);
    forall y ensures y in years <==> y in data.keys {
      assert y in years <==> y in multiset(years);
      assert y in data.keys <==> y in multiset(data.keys);
    }
  }

  /** One row per year, in ascending string order, each with that year's
      income and expenses and savings = income - expenses. */
  lemma ComparisonsRows(data: Tally<Bucket>)
    requires Consistent(data)
    ensures |Comparisons(data)| == |Years(data)|
    ensures forall i, j :: 0 <= i < j < |Comparisons(data)| ==>
              LexLe(Comparisons(data)[i].year, Comparisons(data)[j].year)
    ensures forall i :: 0 <= i < |Comparisons(data)| ==>
              Comparisons(data)[i].year == Years(data)[i] && Years(data)[i] in data.values &&
              Comparisons(data)[i].income == data.values[Years(data)[i]].income &&
              Comparisons(data)[i].expenses == data.values[Years(data)[i]].expenses &&
              Comparisons(data)[i].savings == Comparisons(data)[i].income - Comparisons(data)[i].expenses
  {
    var years := Years(data);
    forall i | 0 <= i < |years| ensures years[i] in data.values {
      assert years[i] in multiset(data.keys);
    }
  }

  /** The first row has no changes; a later row is compared with the row
      before it: percentage changes only against a positive previous value,
      the savings change always. */
  lemma ComparisonsChanges(data: Tally<Bucket>)
    requires Consistent(data)
    ensures |Comparisons(data)| > 0 ==>
              Comparisons(data)[0].incomeChange.None? && Comparisons(data)[0].expenseChange.None? &&
              Comparisons(data)[0].savingsChange.None?
    ensures forall i :: 0 < i < |Comparisons(data)| ==>
              var rows := Comparisons(data);
              rows[i].incomeChange == PercentChange(rows[i].income, rows[i - 1].income) &&
              rows[i].expenseChange == PercentChange(rows[i].expenses, rows[i - 1].expenses) &&
              rows[i].savingsChange == Some(rows[i].savings - rows[i - 1].savings)
  {
  }

  /** A percentage change exists only against a positive previous value, and
      then it is the relative change in percent. */
  lemma PercentChangeMeaning(current: real, previous: real)
    ensures PercentChange(current, previous).Some? <==> previous > 0.0
    ensures previous > 0.0 ==>
              PercentChange(current, previous).value * previous == (current - previous) * 100.0
  {
  }

  /** "Previous" is the preceding year present in the data, not the calendar
      year before: no year of the data lies strictly between a row's year and
      the previous row's year. */
  lemma PreviousIsPrecedingPresentYear(data: Tally<Bucket>, i: nat, y: string)
    requires 0 < i < |Years(data)|
    requires y in data.keys && LexLe(y, Years(data)[i]) && y != Years(data)[i]
    ensures LexLe(y, Years(data)[i - 1])
  {
    var years := Years(data);
    assert y in multiset(years);
    var j :| 0 <= j < |years| && years[j] == y;
    if j >= i {
      if j > i {
        assert LexLe(years[i], years[j]);
      } else {
        LexLeRefl(y);
      }
      LexLeAntisym(y, years[i]);
    }
    if j < i - 1 {
      assert LexLe(years[j], years[i - 1]);
    } else {
      LexLeRefl(y);
    }
  }

  /** For four-digit years the string order of the keys is the numeric order. */
  lemma FourDigitYearOrder(y1: int, y2: int)
    requires 1000 <= y1 <= 9999 && 1000 <= y2 <= 9999
    ensures LexLe(IntToString(y1), IntToString(y2)) <==> y1 <= y2
  {
    FourDigitNatToString(y1);
    FourDigitNatToString(y2);
    PadDigitsOrder(y1, y2, 4);
  }
}
