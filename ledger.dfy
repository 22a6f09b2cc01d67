/** What the dashboard's charts and totals read from a stored transaction, and
    the list folds they are built from: filtering, summing, and the keyed
    accumulation that `forEach`/`reduce` perform into a fresh object (keys in
    the order they are first written). */
module Ledger {
  import opened JsText
  import opened JsValues
  import opened Calendar

  /** `t.amount` as the totals add it up: a finite number counts as itself and
      anything else as 0. */
  function Amount(t: JsVal): real {
    var v := Get(t, "amount");
    if v.Num? && v.n.Finite? then v.n.r else 0.0
  }

  /** `t.type === 'income'`. */
  predicate IsIncome(t: JsVal) {
    Get(t, "type") == Str("income")
  }

  /** `t.type === 'expense'`: narrower than "not income", since stored records
      are not normalised and may carry any type. */
  predicate IsExpense(t: JsVal) {
    Get(t, "type") == Str("expense")
  }

  /** `new Date(t.date)`. */
  function TxDate(t: JsVal): JsDate {
    DateFromValue(Get(t, "date"))
  }

  function IncomeAmount(t: JsVal): real {
    if IsIncome(t) then Amount(t) else 0.0
  }

  function NonIncomeAmount(t: JsVal): real {
    if IsIncome(t) then 0.0 else Amount(t)
  }

  // ---------------------------------------------------------------------
  // Filter and sum

  /** `xs.filter(p)`. */
  function Select<T>(xs: seq<T>, p: T -> bool): seq<T> {
    if xs == [] then []
    else Select(xs[..|xs| - 1], p) + (if p(xs[|xs| - 1]) then [xs[|xs| - 1]] else [])
  }

  lemma {:induction false} SelectMeaning<T>(xs: seq<T>, p: T -> bool)
    ensures |Select(xs, p)| <= |xs|
    ensures forall x :: x in Select(xs, p) <==> x in xs && p(x)
    ensures Select(xs, p) == [] <==> forall i :: 0 <= i < |xs| ==> !p(xs[i])
  {
    if xs != [] {
      SelectMeaning(xs[..|xs| - 1], p);
      assert xs == xs[..|xs| - 1] + [xs[|xs| - 1]];
    }
  }

  lemma {:induction false} SelectAppend<T>(a: seq<T>, b: seq<T>, p: T -> bool)
    ensures Select(a + b, p) == Select(a, p) + Select(b, p)
    decreases |b|
  {
    if b != [] {
      var b' := b[..|b| - 1];
      assert (a + b)[..|a + b| - 1] == a + b';
      SelectAppend(a, b', p);
    } else {
      assert a + b == a;
    }
  }

  /** `xs.reduce((s, x) => s + f(x), 0)`. */
  function Sum<T>(xs: seq<T>, f: T -> real): real {
    if xs == [] then 0.0 else Sum(xs[..|xs| - 1], f) + f(xs[|xs| - 1])
  }

  lemma {:induction false} SumAppend<T>(a: seq<T>, b: seq<T>, f: T -> real)
    ensures Sum(a + b, f) == Sum(a, f) + Sum(b, f)
    decreases |b|
  {
    if b != [] {
      assert (a + b)[..|a + b| - 1] == a + b[..|b| - 1];
      SumAppend(a, b[..|b| - 1], f);
    } else {
      assert a + b == a;
    }
  }

  /** A sum does not depend on the order of what is summed. */
  lemma {:induction false} SumPermutation<T>(a: seq<T>, b: seq<T>, f: T -> real)
    requires multiset(a) == multiset(b)
    ensures Sum(a, f) == Sum(b, f)
    decreases |a|
  {
    if a != [] {
      var x := a[|a| - 1];
      var a' := a[..|a| - 1];
      assert a == a' + [x];
      assert multiset(a) == multiset(a') + multiset{x};
      assert x in multiset(b);
      var j :| 0 <= j < |b| && b[j] == x;
      var rest := b[..j] + b[j + 1..];
      RemoveAt(b, j);
      assert multiset(a') == multiset(rest);
      SumPermutation(a', rest, f);
      SumRemoveAt(b, j, f);
      SumAppend(a', [x], f);
    } else {
      assert |b| == |multiset(b)| == 0;
    }
  }

  /** Taking out element j takes one occurrence of it out of the multiset. */
  lemma RemoveAt<T>(b: seq<T>, j: nat)
    requires j < |b|
    ensures multiset(b[..j] + b[j + 1..]) == multiset(b) - multiset{b[j]}
  {
    var b1, b2 := b[..j], b[j + 1..];
    assert b == b1 + [b[j]] + b2;
    assert multiset(b) == multiset(b1) + multiset{b[j]} + multiset(b2);
    assert multiset(b1 + b2) == multiset(b1) + multiset(b2);
  }

  lemma SumRemoveAt<T>(b: seq<T>, j: nat, f: T -> real)
    requires j < |b|
    ensures Sum(b, f) == Sum(b[..j] + b[j + 1..], f) + f(b[j])
  {
    var b1, b2 := b[..j], b[j + 1..];
    assert b == b1 + [b[j]] + b2;
    SumAppend(b1, b2, f);
    SumAppend(b1 + [b[j]], b2, f);
    SumAppend(b1, [b[j]], f);
  }

  /** Summing the selected elements is summing all of them with the others
      counted as 0. */
  lemma {:induction false} SumSelect<T>(xs: seq<T>, p: T -> bool, f: T -> real, g: T -> real)
    requires forall x :: g(x) == (if p(x) then f(x) else 0.0)
    ensures Sum(Select(xs, p), f) == Sum(xs, g)
  {
    if xs != [] {
      var init, x := xs[..|xs| - 1], xs[|xs| - 1];
      SumSelect(init, p, f, g);
      SumAppend(Select(init, p), if p(x) then [x] else [], f);
    }
  }

  /** Sums over functions that agree are equal. */
  lemma {:induction false} SumCongruent<T>(xs: seq<T>, f: T -> real, g: T -> real)
    requires forall x :: x in xs ==> f(x) == g(x)
    ensures Sum(xs, f) == Sum(xs, g)
  {
    if xs != [] {
      SumCongruent(xs[..|xs| - 1], f, g);
    }
  }

  /** Sums of two functions add up. */
  lemma {:induction false} SumSplit<T>(xs: seq<T>, f: T -> real, g: T -> real, h: T -> real)
    requires forall x :: h(x) == f(x) + g(x)
    ensures Sum(xs, h) == Sum(xs, f) + Sum(xs, g)
  {
    if xs != [] {
      SumSplit(xs[..|xs| - 1], f, g, h);
    }
  }

  // ---------------------------------------------------------------------
  // Keyed accumulation

  /** `xs.reduce((acc, x) => add(acc, x), zero)`. */
  function Fold<V>(xs: seq<JsVal>, zero: V, add: (V, JsVal) -> V): V {
    if xs == [] then zero else add(Fold(xs[..|xs| - 1], zero, add), xs[|xs| - 1])
  }

  /** An object being filled in: its keys in the order they were created,
      and their values. */
  datatype Tally<V> = Tally(keys: seq<string>, values: map<string, V>)

  /** The key of every element, in list order. */
  function KeyList(xs: seq<JsVal>, key: JsVal -> string): (ks: seq<string>)
    ensures |ks| == |xs|
  {
    if xs == [] then [] else KeyList(xs[..|xs| - 1], key) + [key(xs[|xs| - 1])]
  }

  /** The distinct strings of `ks` in the order they first occur. */
  function FirstOccurrences(ks: seq<string>): seq<string> {
    if ks == [] then []
    else
      var r := FirstOccurrences(ks[..|ks| - 1]);
      if ks[|ks| - 1] in r then r else r + [ks[|ks| - 1]]
  }

  lemma {:induction false} FirstOccurrencesMeaning(ks: seq<string>)
    ensures forall k :: k in FirstOccurrences(ks) <==> k in ks
    ensures forall i, j :: 0 <= i < j < |FirstOccurrences(ks)| ==>
              FirstOccurrences(ks)[i] != FirstOccurrences(ks)[j]
  {
    if ks != [] {
      FirstOccurrencesMeaning(ks[..|ks| - 1]);
      assert ks == ks[..|ks| - 1] + [ks[|ks| - 1]];
    }
  }

  /** For every element in turn, `acc[key(x)] = add(acc[key(x)] ?? zero, x)`. */
  function Accumulate<V>(xs: seq<JsVal>, key: JsVal -> string, zero: V, add: (V, JsVal) -> V): Tally<V> {
    if xs == [] then Tally([], map[])
    else
      var acc := Accumulate(xs[..|xs| - 1], key, zero, add);
      var x := xs[|xs| - 1];
      var k := key(x);
      if k in acc.values then Tally(acc.keys, acc.values[k := add(acc.values[k], x)])
      else Tally(acc.keys + [k], acc.values[k := add(zero, x)])
  }

  /** The elements whose key is `k`. */
  function WithKey(xs: seq<JsVal>, key: JsVal -> string, k: string): seq<JsVal> {
    Select(xs, x => key(x) == k)
  }

  /** The object gets one key per distinct key of the list, created in the
      order the keys first occur, and under each key the fold of exactly the
      elements with that key, in list order. */
  lemma {:induction false} AccumulateMeaning<V>(xs: seq<JsVal>, key: JsVal -> string, zero: V, add: (V, JsVal) -> V)
    ensures Accumulate(xs, key, zero, add).keys == FirstOccurrences(KeyList(xs, key))
    ensures forall k :: k in Accumulate(xs, key, zero, add).values <==> k in KeyList(xs, key)
    ensures forall k :: k in Accumulate(xs, key, zero, add).values ==>
              Accumulate(xs, key, zero, add).values[k] == Fold(WithKey(xs, key, k), zero, add)
  {
    if xs != [] {
      var init, x := xs[..|xs| - 1], xs[|xs| - 1];
      AccumulateMeaning(init, key, zero, add);
      FirstOccurrencesMeaning(KeyList(init, key));
      var acc := Accumulate(init, key, zero, add);
      var r := Accumulate(xs, key, zero, add);
      forall k | k in r.values
        ensures r.values[k] == Fold(WithKey(xs, key, k), zero, add)
      {
        if k != key(x) {
          assert WithKey(xs, key, k) == WithKey(init, key, k);
        } else if k !in acc.values {
          SelectMeaning(init, y => key(y) == k);
          forall i | 0 <= i < |init| ensures key(init[i]) != k {
            assert KeyList(init, key)[i] == key(init[i]) by { KeyListAt(init, key, i); }
          }
          assert WithKey(init, key, k) == [];
          assert WithKey(xs, key, k) == [x];
        }
      }
    }
  }

  lemma {:induction false} KeyListAt(xs: seq<JsVal>, key: JsVal -> string, i: nat)
    requires i < |xs|
    ensures KeyList(xs, key)[i] == key(xs[i])
  {
    if i < |xs| - 1 {
      KeyListAt(xs[..|xs| - 1], key, i);
    }
  }

  lemma KeyListMembers(xs: seq<JsVal>, key: JsVal -> string)
    ensures forall k :: k in KeyList(xs, key) <==> exists i :: 0 <= i < |xs| && key(xs[i]) == k
  {
    forall i | 0 <= i < |xs| ensures KeyList(xs, key)[i] == key(xs[i]) {
      KeyListAt(xs, key, i);
    }
  }

  /** The loop a `forEach` or `reduce` into an object runs. */
  method AccumulateLoop<V>(xs: seq<JsVal>, key: JsVal -> string, zero: V, add: (V, JsVal) -> V)
    returns (acc: Tally<V>)
    ensures acc == Accumulate(xs, key, zero, add)
  {
    acc := Tally([], map[]);
    var i := 0;
    while i < |xs|
      invariant 0 <= i <= |xs|
      invariant acc == Accumulate(xs[..i], key, zero, add)
    {
      assert xs[..i + 1][..i] == xs[..i];
      var k := key(xs[i]);
      if k in acc.values {
        acc := Tally(acc.keys, acc.values[k := add(acc.values[k], xs[i])]);
      } else {
        acc := Tally(acc.keys + [k], acc.values[k := add(zero, xs[i])]);
      }
      i := i + 1;
    }
    assert xs[..i] == xs;
  }

  // ---------------------------------------------------------------------
  // Income/expense buckets

  /** `{ income, expenses }`. */
  datatype Bucket = Bucket(income: real, expenses: real)

  /** `if (t.type === 'income') b.income += t.amount; else b.expenses += t.amount`. */
  function AddToBucket(b: Bucket, t: JsVal): Bucket {
    if IsIncome(t) then b.(income := b.income + Amount(t)) else b.(expenses := b.expenses + Amount(t))
  }

  /** A bucket filled from zero holds the income total and the total of
      everything that is not income. */
  lemma {:induction false} BucketFold(xs: seq<JsVal>)
    ensures Fold(xs, Bucket(0.0, 0.0), AddToBucket) == Bucket(Sum(xs, IncomeAmount), Sum(xs, NonIncomeAmount))
  {
    if xs != [] {
      BucketFold(xs[..|xs| - 1]);
    }
  }

  /** The total of `f` over the elements whose key is `k`. */
  function KeyedSum(xs: seq<JsVal>, key: JsVal -> string, k: string, f: JsVal -> real): real {
    Sum(xs, t => if key(t) == k then f(t) else 0.0)
  }

  lemma KeyedSumOfWithKey(xs: seq<JsVal>, key: JsVal -> string, k: string, f: JsVal -> real)
    ensures Sum(WithKey(xs, key, k), f) == KeyedSum(xs, key, k, f)
  {
    SumSelect(xs, x => key(x) == k, f, t => if key(t) == k then f(t) else 0.0);
  }

  lemma KeyedSumPermutation(a: seq<JsVal>, b: seq<JsVal>, key: JsVal -> string, k: string, f: JsVal -> real)
    requires multiset(a) == multiset(b)
    ensures KeyedSum(a, key, k, f) == KeyedSum(b, key, k, f)
  {
    SumPermutation(a, b, t => if key(t) == k then f(t) else 0.0);
  }

  /** Grouping into income/expense buckets by a key: which keys appear and
      what each bucket holds. */
  lemma BucketsMeaning(xs: seq<JsVal>, key: JsVal -> string)
    ensures forall k :: k in Accumulate(xs, key, Bucket(0.0, 0.0), AddToBucket).values <==>
              exists i :: 0 <= i < |xs| && key(xs[i]) == k
    ensures forall k :: k in Accumulate(xs, key, Bucket(0.0, 0.0), AddToBucket).values ==>
              Accumulate(xs, key, Bucket(0.0, 0.0), AddToBucket).values[k] ==
              Bucket(KeyedSum(xs, key, k, IncomeAmount), KeyedSum(xs, key, k, NonIncomeAmount))
  {
    AccumulateMeaning(xs, key, Bucket(0.0, 0.0), AddToBucket);
    KeyListMembers(xs, key);
    forall k | k in Accumulate(xs, key, Bucket(0.0, 0.0), AddToBucket).values
      ensures Accumulate(xs, key, Bucket(0.0, 0.0), AddToBucket).values[k] ==
              Bucket(KeyedSum(xs, key, k, IncomeAmount), KeyedSum(xs, key, k, NonIncomeAmount))
    {
      BucketFold(WithKey(xs, key, k));
      KeyedSumOfWithKey(xs, key, k, IncomeAmount);
      KeyedSumOfWithKey(xs, key, k, NonIncomeAmount);
    }
  }

  /** Bucket totals do not depend on the order of the transactions. */
  lemma BucketsOrderIndependent(a: seq<JsVal>, b: seq<JsVal>, key: JsVal -> string)
    requires multiset(a) == multiset(b)
    ensures Accumulate(a, key, Bucket(0.0, 0.0), AddToBucket).values ==
            Accumulate(b, key, Bucket(0.0, 0.0), AddToBucket).values
  {
    BucketsMeaning(a, key);
    BucketsMeaning(b, key);
    var ma := Accumulate(a, key, Bucket(0.0, 0.0), AddToBucket).values;
    var mb := Accumulate(b, key, Bucket(0.0, 0.0), AddToBucket).values;
    forall k ensures k in ma <==> k in mb {
      if k in ma {
        var i :| 0 <= i < |a| && key(a[i]) == k;
        assert a[i] in multiset(b);
      }
      if k in mb {
        var i :| 0 <= i < |b| && key(b[i]) == k;
        assert b[i] in multiset(a);
      }
    }
    forall k | k in ma ensures ma[k] == mb[k] {
      KeyedSumPermutation(a, b, key, k, IncomeAmount);
      KeyedSumPermutation(a, b, key, k, NonIncomeAmount);
    }
  }

  // ---------------------------------------------------------------------
  // Per-category totals

  /** `acc[t.category] = (acc[t.category] || 0) + t.amount`. */
  function AddAmount(total: real, t: JsVal): real {
    total + Amount(t)
  }

  /** The property key `t.category` writes to. */
  function CategoryKey(t: JsVal): string {
    ToStr(Get(t, "category"))
  }

  lemma {:induction false} AmountFold(xs: seq<JsVal>)
    ensures Fold(xs, 0.0, AddAmount) == Sum(xs, Amount)
  {
    if xs != [] {
      AmountFold(xs[..|xs| - 1]);
    }
  }

  /** Totals keyed by `key`: keys in first-occurrence order, each holding the
      sum of the amounts filed under it. */
  lemma TotalsMeaning(xs: seq<JsVal>, key: JsVal -> string)
    ensures Accumulate(xs, key, 0.0, AddAmount).keys == FirstOccurrences(KeyList(xs, key))
    ensures forall c :: c in Accumulate(xs, key, 0.0, AddAmount).values <==>
              exists i :: 0 <= i < |xs| && key(xs[i]) == c
    ensures forall c :: c in Accumulate(xs, key, 0.0, AddAmount).values ==>
              Accumulate(xs, key, 0.0, AddAmount).values[c] == KeyedSum(xs, key, c, Amount)
  {
    AccumulateMeaning(xs, key, 0.0, AddAmount);
    KeyListMembers(xs, key);
    forall c | c in Accumulate(xs, key, 0.0, AddAmount).values
      ensures Accumulate(xs, key, 0.0, AddAmount).values[c] == KeyedSum(xs, key, c, Amount)
    {
      AmountFold(WithKey(xs, key, c));
      KeyedSumOfWithKey(xs, key, c, Amount);
    }
  }
}
