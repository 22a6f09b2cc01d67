/** The local-storage diagnostics shown in Settings: the size of each stored
    key, largest first, their total, and a byte count written with a unit.
    The storage is an input: the sequence `localStorage.key(i)` returns for
    i = 0 .. length - 1 and the stored values by key, or None when reading
    it throws. */
module StorageDiagnostics {
  import opened JsText
  import opened JsValues
  import opened Ledger

  datatype Storage = Storage(keys: seq<Option<string>>, values: map<string, string>)

  datatype KeySize = KeySize(key: string, bytes: nat)

  /** `localStorage.getItem(key) || ''`. */
  function ValueOf(st: Storage, key: string): string {
    if key in st.values then st.values[key] else ""
  }

  /** The item the loop pushes for index i, if any: a null or empty key is
      skipped; the size is two bytes per UTF-16 code unit. */
  function ItemAt(st: Storage, i: nat): (item: Option<KeySize>)
    requires i < |st.keys|
    ensures item.Some? <==> st.keys[i].Some? && st.keys[i].value != ""
    ensures item.Some? ==> item.value == KeySize(st.keys[i].value, 2 * Utf16Length(ValueOf(st, st.keys[i].value)))
  {
    if st.keys[i].Some? && st.keys[i].value != "" then Some(KeySize(st.keys[i].value, 2 * Utf16Length(ValueOf(st, st.keys[i].value))))
    else None
  }

  /** The items pushed for the first n indices. */
  function Collected(st: Storage, n: nat): seq<KeySize>
    requires n <= |st.keys|
  {
    if n == 0 then []
    else Collected(st, n - 1) + (if ItemAt(st, n - 1).Some? then [ItemAt(st, n - 1).value] else [])
  }

  /** Every collected item names a non-empty key and counts two bytes per
      UTF-16 code unit of its value, and every non-empty key is collected. */
  lemma {:induction false} CollectedMeaning(st: Storage, n: nat)
    requires n <= |st.keys|
    ensures |Collected(st, n)| <= n
    ensures forall j :: 0 <= j < |Collected(st, n)| ==>
              Collected(st, n)[j].key != "" && Collected(st, n)[j].bytes == 2 * Utf16Length(ValueOf(st, Collected(st, n)[j].key))
    ensures forall i :: 0 <= i < n && st.keys[i].Some? && st.keys[i].value != "" ==>
              KeySize(st.keys[i].value, 2 * Utf16Length(ValueOf(st, st.keys[i].value))) in Collected(st, n)
  {
    if n > 0 {
      CollectedMeaning(st, n - 1);
      var _ := ItemAt(st, n - 1);
    }
  }

  /** A stored value that is one character above U+FFFF, such as U+1F355,
      is two UTF-16 code units and so counts four bytes. */
  lemma AstralValueSize(key: string)
    requires key != ""
    ensures ItemAt(Storage([Some(key)], map[key := "\U{1F355}"]), 0) == Some(KeySize(key, 4))
  {
    assert Utf16Length("\U{1F355}") == Utf16Length([]) + 2;
  }

  // ---------------------------------------------------------------------
  // `items.sort((a, b) => b.bytes - a.bytes)`: largest first

  ghost predicate NonIncreasing(s: seq<KeySize>) {
    forall i, j :: 0 <= i < j < |s| ==> s[i].bytes >= s[j].bytes
  }

  /** Puts x after every element at least as large, so equal sizes keep
      their order. */
  function InsertBySize(x: KeySize, s: seq<KeySize>): seq<KeySize> {
    if s == [] then [x]
    else if s[0].bytes >= x.bytes then [s[0]] + InsertBySize(x, s[1..])
    else [x] + s
  }

  function SortBySize(s: seq<KeySize>): seq<KeySize> {
    if s == [] then [] else InsertBySize(s[|s| - 1], SortBySize(s[..|s| - 1]))
  }

  lemma {:induction false} InsertBySizeMeaning(x: KeySize, s: seq<KeySize>)
    requires NonIncreasing(s)
    ensures NonIncreasing(InsertBySize(x, s))
    ensures multiset(InsertBySize(x, s)) == multiset(s) + multiset{x}
  {
    if s != [] && s[0].bytes >= x.bytes {
      InsertBySizeMeaning(x, s[1..]);
      assert s == [s[0]] + s[1..];
      forall j | 0 <= j < |InsertBySize(x, s[1..])|
        ensures InsertBySize(x, s[1..])[j].bytes <= s[0].bytes
      {
        BelowHead(x, s, InsertBySize(x, s[1..])[j]);
      }
      ConsSorted(s[0], InsertBySize(x, s[1..]));
    } else if s != [] {
      ConsSorted(x, s);
    }
  }

  /** What sits behind the head of a sorted sequence, or x when x is no
      larger than the head, is no larger than the head. */
  lemma BelowHead(x: KeySize, s: seq<KeySize>, y: KeySize)
    requires NonIncreasing(s) && s != [] && s[0].bytes >= x.bytes
    requires y in multiset(s[1..]) + multiset{x}
    ensures y.bytes <= s[0].bytes
  {
    if y != x {
      assert y in s[1..];
    }
  }

  lemma ConsSorted(a: KeySize, r: seq<KeySize>)
    requires NonIncreasing(r)
    requires forall j :: 0 <= j < |r| ==> r[j].bytes <= a.bytes
    ensures NonIncreasing([a] + r)
  {
    forall i, j | 0 <= i < j < |[a] + r|
      ensures ([a] + r)[i].bytes >= ([a] + r)[j].bytes
    {
      assert ([a] + r)[j] == r[j - 1];
      if i > 0 {
        assert ([a] + r)[i] == r[i - 1];
      }
    }
  }

  /** The sort gives a largest-first permutation of its input. */
  lemma {:induction false} SortBySizeMeaning(s: seq<KeySize>)
    ensures NonIncreasing(SortBySize(s))
    ensures multiset(SortBySize(s)) == multiset(s)
  {
    if s != [] {
      SortBySizeMeaning(s[..|s| - 1]);
      InsertBySizeMeaning(s[|s| - 1], SortBySize(s[..|s| - 1]));
      assert s == s[..|s| - 1] + [s[|s| - 1]];
    }
  }

  /** What `getLocalStorageKeySizes` returns. */
  function KeySizesOf(storage: Option<Storage>): seq<KeySize> {
    if storage.None? then [] else SortBySize(Collected(storage.value, |storage.value.keys|))
  }

  /** `getLocalStorageKeySizes()`: [] when reading the storage throws;
      otherwise every non-empty key with its size, largest first. */
  method KeySizes(storage: Option<Storage>) returns (sizes: seq<KeySize>)
    ensures sizes == KeySizesOf(storage)
    ensures storage.None? ==> sizes == []
    ensures storage.Some? ==>
              NonIncreasing(sizes) && multiset(sizes) == multiset(Collected(storage.value, |storage.value.keys|))
  {
    if storage.None? {
      return [];
    }
    var st := storage.value;
    var items: seq<KeySize> := [];
    var i := 0;
    while i < |st.keys|
      invariant i <= |st.keys|
      invariant items == Collected(st, i)
    {
      var key := st.keys[i];
      if key.Some? && key.value != "" {
        var value := ValueOf(st, key.value);
        items := items + [KeySize(key.value, Utf16Length(value) * 2)];
      }
      i := i + 1;
    }
    sizes := SortBySize(items);
    SortBySizeMeaning(items);
  }

  function Bytes(item: KeySize): real {
    item.bytes as real
  }

  /** `getLocalStorageApproxBytes()`. */
  function ApproxBytes(storage: Option<Storage>): real {
    Sum(KeySizesOf(storage), Bytes)
  }

  /** The total is the sum of the sizes of the stored keys, in any order,
      and 0 when reading the storage throws. */
  lemma ApproxBytesTotal(storage: Option<Storage>)
    ensures storage.None? ==> ApproxBytes(storage) == 0.0
    ensures storage.Some? ==> ApproxBytes(storage) == Sum(Collected(storage.value, |storage.value.keys|), Bytes)
  {
    if storage.Some? {
      SortBySizeMeaning(Collected(storage.value, |storage.value.keys|));
      SumPermutation(KeySizesOf(storage), Collected(storage.value, |storage.value.keys|), Bytes);
    }
  }

  // ---------------------------------------------------------------------
  // `formatBytes`

  const Units: seq<string> := ["B", "KB", "MB", "GB"]

  function Pow1024(u: nat): (p: real)
    ensures p >= 1.0
  {
    if u == 0 then 1.0 else 1024.0 * Pow1024(u - 1)
  }

  /** "0 B", or a value, an index into `Units` and the number of decimals
      `toFixed` is asked for. */
  datatype ByteLabel = ZeroBytes | Scaled(v: real, unit: nat, decimals: nat)

  /** `formatBytes(bytes)` for a number argument `bytes` (on which `Number`
      is the identity): "0 B" unless it is finite and
      positive; otherwise n = v * 1024^u for the largest unit u <= 3 with
      1024^u <= n (or u = 0), with one decimal only for 1 <= v < 10 above
      bytes. */
  method FormatBytes(bytes: JsNum) returns (r: ByteLabel)
    ensures r.ZeroBytes? <==> !(bytes.Finite? && bytes.r > 0.0)
    ensures r.Scaled? ==> r.unit < |Units| && r.v * Pow1024(r.unit) == bytes.r
    ensures r.Scaled? ==> r.unit == 3 || r.v < 1024.0
    ensures r.Scaled? ==> r.unit == 0 || Pow1024(r.unit) <= bytes.r
    ensures r.Scaled? ==> r.unit == 3 || bytes.r < Pow1024(r.unit + 1)
    ensures r.Scaled? ==> r.decimals == (if r.v >= 10.0 || r.unit == 0 then 0 else 1)
  {
    if !bytes.Finite? || bytes.r <= 0.0 {
      return ZeroBytes;
    }
    var v, u := ScaleDown(bytes.r);
    r := Scaled(v, u, if v >= 10.0 || u == 0 then 0 else 1);
  }

  /** The `while` loop of `formatBytes`. */
  method ScaleDown(n: real) returns (v: real, u: nat)
    requires n > 0.0
    ensures u < |Units| && v * Pow1024(u) == n
    ensures u == 3 || v < 1024.0
    ensures u == 0 || Pow1024(u) <= n
    ensures u == 3 || n < Pow1024(u + 1)
  {
    v := n;
    u := 0;
    while v >= 1024.0 && u < |Units| - 1
      invariant u <= 3
      invariant v * Pow1024(u) == n
      invariant u == 0 || v >= 1.0
    {
      ScaleStep(v, Pow1024(u));
      v := v / 1024.0;
      u := u + 1;
    }
    UnitBounds(v, Pow1024(u), n);
  }

  /** One turn of the loop divides v by 1024 and multiplies the scale by
      1024. */
  lemma ScaleStep(v: real, p: real)
    requires v >= 1024.0
    ensures v / 1024.0 >= 1.0
    ensures (v / 1024.0) * (1024.0 * p) == v * p
  {
  }

  /** With n = v * p and p = 1024^u: p <= n once v >= 1, and n < 1024 p while
      v < 1024. */
  lemma UnitBounds(v: real, p: real, n: real)
    requires v * p == n && p >= 1.0
    ensures v >= 1.0 ==> p <= n
    ensures v < 1024.0 ==> n < 1024.0 * p
  {
    if v >= 1.0 {
      assert (v - 1.0) * p >= 0.0;
    }
    if v < 1024.0 {
      assert (1024.0 - v) * p > 0.0;
    }
  }

  /** The text shown: "0 B", or the value as `toFixed` writes it, a space
      and the unit. `toFixed` is not modelled and is a parameter. */
  function ByteText(r: ByteLabel, toFixed: (real, nat) -> string): string
    requires r.Scaled? ==> r.unit < |Units|
  {
    if r.ZeroBytes? then "0 B" else toFixed(r.v, r.decimals) + " " + Units[r.unit]
  }
}
