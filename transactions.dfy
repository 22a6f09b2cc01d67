/** The shared transaction sanitiser: it canonicalises a loosely shaped record
    read from storage or from a backup, or drops it when it cannot be
    represented safely. Unknown fields of a kept record are carried over. */
module Transactions {
  import opened JsText
  import opened JsValues
  import opened Calendar

  /** `safeNumber(v)`: `Number(v)` when finite, else 0. */
  function SafeNumber(v: JsVal): (r: real)
    ensures ToNumber(v).Finite? ==> r == ToNumber(v).r
    ensures !ToNumber(v).Finite? ==> r == 0.0
  {
    match ToNumber(v)
    case Finite(x) => x
    case _ => 0.0
  }

  /** `safeDate(v)`: `new Date(v)` when it holds a time value, else null. */
  function SafeDate(v: JsVal): (r: Option<DateTime>)
    ensures r.Some? <==> DateFromValue(v).ValidDate?
    ensures r.Some? ==> r.value == DateFromValue(v).dt && Valid(r.value) && InTimeRange(r.value)
  {
    match DateFromValue(v)
    case InvalidDate => None
    case ValidDate(d) => Some(d)
  }

  /** `safeCategory(cat, fallback)`: `String(cat ?? '')` trimmed, or the
      fallback when that is empty. */
  function SafeCategory(cat: JsVal, fallback: string): (r: string)
    ensures Trim(ToStr(Coalesce(cat, Str("")))) == "" ==> r == fallback
    ensures Trim(ToStr(Coalesce(cat, Str("")))) != "" ==>
              r == Trim(ToStr(Coalesce(cat, Str("")))) && IsTrimmed(r) && r != ""
  {
    TrimIsTrimmed(ToStr(Coalesce(cat, Str(""))));
    var v := Trim(ToStr(Coalesce(cat, Str(""))));
    if v != "" then v else fallback
  }

  /** `safeType(t)`: exactly the string 'income' stays income; every other
      value, strings and non-strings alike, becomes 'expense'. */
  function SafeType(t: JsVal): (r: string)
    ensures r == "income" <==> t == Str("income")
    ensures r == "income" || r == "expense"
  {
    if t == Str("income") then "income" else "expense"
  }

  /** The fields a normalised record always carries. */
  predicate IsCanonicalKey(k: string) {
    k == "id" || k == "date" || k == "type" || k == "category" || k == "amount" || k == "description"
  }

  /** A record whose reason for being dropped is none of the three the
      sanitiser checks. */
  predicate Representable(t: JsVal) {
    Truthy(t) && IsTypeofObject(t) && SafeDate(Get(t, "date")).Some? && !IsNullish(Get(t, "id"))
  }

  /** The canonical shape of a normalised record. */
  ghost predicate IsNormalizedRecord(r: JsVal) {
    r.Obj? &&
    CanonicalKeys() <= r.fields.Keys &&
    !IsNullish(r.fields["id"]) &&
    r.fields["date"].Str? &&
    (exists d :: Valid(d) && InTimeRange(d) && r.fields["date"].s == ToIsoString(d)) &&
    (r.fields["type"] == Str("income") || r.fields["type"] == Str("expense")) &&
    r.fields["category"].Str? && IsTrimmed(r.fields["category"].s) && r.fields["category"].s != "" &&
    r.fields["amount"].Num? && r.fields["amount"].n.Finite? &&
    r.fields["description"].Str?
  }

  function CanonicalKeys(): (s: set<string>)
    ensures forall k :: k in s <==> IsCanonicalKey(k)
  {
    {"id", "date", "type", "category", "amount", "description"}
  }

  /** The values `normalizeTransaction` writes over a record. */
  datatype Canonical = Canonical(id: JsVal, date: string, txType: string, category: string,
                                 amount: real, description: string)

  /** The canonical fields as an object's own properties. */
  function CanonicalFields(c: Canonical): map<string, JsVal> {
    map[
      "id" := c.id,
      "date" := Str(c.date),
      "type" := Str(c.txType),
      "category" := Str(c.category),
      "amount" := Num(Finite(c.amount)),
      "description" := Str(c.description)]
  }

  /** `{...base, id, date, type, category, amount, description}`: the six
      fields are overwritten and every other property of `base` is kept. */
  lemma OverwriteFields(base: map<string, JsVal>, c: Canonical)
    ensures var m := base + CanonicalFields(c);
      m.Keys == base.Keys + CanonicalKeys() &&
      (forall k :: k in base && !IsCanonicalKey(k) ==> m[k] == base[k]) &&
      m["id"] == c.id && m["date"] == Str(c.date) && m["type"] == Str(c.txType) &&
      m["category"] == Str(c.category) && m["amount"] == Num(Finite(c.amount)) &&
      m["description"] == Str(c.description)
  {
  }

  /** The sanitised values for record `t` with date `d` and id `id`. */
  function CanonicalOf(t: JsVal, d: DateTime, id: JsVal): Canonical
    requires Valid(d)
  {
    Canonical(id, ToIsoString(d), SafeType(Get(t, "type")), SafeCategory(Get(t, "category"), "Other"),
              SafeNumber(Get(t, "amount")), ToStr(Coalesce(Get(t, "description"), Str(""))))
  }

  /** `normalizeTransaction(t)`: null for a falsy or non-object value, for a
      date that does not parse and for a missing id; otherwise the record
      with its canonical fields rewritten. */
  function NormalizeTransaction(t: JsVal): (r: Option<JsVal>)
    ensures r.None? <==> !Representable(t)
  {
    if !Truthy(t) || !IsTypeofObject(t) then None
    else
      var d := SafeDate(Get(t, "date"));
      if d.None? then None
      else
        var id := Coalesce(Get(t, "id"), Null);
        if IsNullish(id) then None
        else Some(Obj(Spread(t) + CanonicalFields(CanonicalOf(t, d.value, id))))
  }

  /** A kept record: the input was a plain object, its id is kept as is and
      never invented, unknown fields survive unchanged, and the canonical
      fields hold the sanitised values. */
  lemma NormalizeTransactionShape(t: JsVal)
    requires NormalizeTransaction(t).Some?
    ensures t.Obj?
    ensures var r := NormalizeTransaction(t).value;
      r.Obj? && r.fields.Keys == t.fields.Keys + CanonicalKeys() &&
      (forall k :: k in t.fields && !IsCanonicalKey(k) ==> r.fields[k] == t.fields[k]) &&
      r.fields["id"] == Get(t, "id") &&
      r.fields["date"] == Str(ToIsoString(SafeDate(Get(t, "date")).value)) &&
      r.fields["type"] == Str(SafeType(Get(t, "type"))) &&
      r.fields["category"] == Str(SafeCategory(Get(t, "category"), "Other")) &&
      r.fields["amount"] == Num(Finite(SafeNumber(Get(t, "amount")))) &&
      r.fields["description"] == Str(ToStr(Coalesce(Get(t, "description"), Str(""))))
  {
    KeptIsObject(t);
    var d := SafeDate(Get(t, "date")).value;
    NormalizeTransactionOf(t, d);
    OverwriteFields(t.fields, CanonicalOf(t, d, Get(t, "id")));
  }

  /** Only a plain object survives: an array has no `date` property. */
  lemma KeptIsObject(t: JsVal)
    requires NormalizeTransaction(t).Some?
    ensures t.Obj? && SafeDate(Get(t, "date")).Some? && !IsNullish(Get(t, "id"))
  {
  }

  /** A kept record has the canonical shape. */
  lemma NormalizeTransactionCanonical(t: JsVal)
    requires NormalizeTransaction(t).Some?
    ensures IsNormalizedRecord(NormalizeTransaction(t).value)
  {
    NormalizeTransactionShape(t);
    var r := NormalizeTransaction(t).value;
    var d := SafeDate(Get(t, "date")).value;
    var cat := SafeCategory(Get(t, "category"), "Other");
    SafeCategoryShape(Get(t, "category"));
    CanonicalShape(r, d, Get(t, "id"), SafeType(Get(t, "type")), cat,
                   SafeNumber(Get(t, "amount")), ToStr(Coalesce(Get(t, "description"), Str(""))));
  }

  /** The category the sanitiser writes is trimmed and never empty. */
  lemma SafeCategoryShape(cat: JsVal)
    ensures IsTrimmed(SafeCategory(cat, "Other")) && SafeCategory(cat, "Other") != ""
  {
    FallbackTrimmed();
  }

  lemma FallbackTrimmed()
    ensures IsTrimmed("Other")
  {
    assert "Other"[0] == 'O' && "Other"[4] == 'r';
  }

  /** A record holding the sanitisers' kinds of values has the canonical
      shape. */
  lemma CanonicalShape(r: JsVal, d: DateTime, id: JsVal, ty: string, cat: string, x: real, desc: string)
    requires Valid(d) && InTimeRange(d) && !IsNullish(id)
    requires (ty == "income" || ty == "expense") && IsTrimmed(cat) && cat != ""
    requires r.Obj? && CanonicalKeys() <= r.fields.Keys
    requires r.fields["id"] == id && r.fields["date"] == Str(ToIsoString(d)) && r.fields["type"] == Str(ty)
    requires r.fields["category"] == Str(cat) && r.fields["amount"] == Num(Finite(x))
    requires r.fields["description"] == Str(desc)
    ensures IsNormalizedRecord(r)
  {
    assert Valid(d) && InTimeRange(d) && r.fields["date"].s == ToIsoString(d);
  }

  /** Overwriting the canonical fields with the values they already hold
      changes nothing. */
  lemma OverwriteWithOwn(base: map<string, JsVal>, c: Canonical)
    requires CanonicalKeys() <= base.Keys
    requires base["id"] == c.id && base["date"] == Str(c.date) && base["type"] == Str(c.txType)
    requires base["category"] == Str(c.category) && base["amount"] == Num(Finite(c.amount))
    requires base["description"] == Str(c.description)
    ensures base + CanonicalFields(c) == base
  {
  }

  /** The result of the sanitiser for a representable record with date `d`. */
  lemma NormalizeTransactionOf(t: JsVal, d: DateTime)
    requires t.Obj? && SafeDate(Get(t, "date")) == Some(d) && !IsNullish(Get(t, "id"))
    ensures Valid(d)
    ensures NormalizeTransaction(t) == Some(Obj(t.fields + CanonicalFields(CanonicalOf(t, d, Get(t, "id")))))
  {
  }

  /** Each sanitiser leaves a value it produced unchanged. */
  lemma SafeTypeFixed(ty: JsVal)
    requires ty == Str("income") || ty == Str("expense")
    ensures SafeType(ty) == ty.s
  {
  }

  lemma SafeCategoryFixed(cat: string)
    requires IsTrimmed(cat) && cat != ""
    ensures SafeCategory(Str(cat), "Other") == cat
  {
    TrimIdempotent(cat);
    assert ToStr(Coalesce(Str(cat), Str(""))) == cat;
  }

  lemma SafeNumberFixed(x: real)
    ensures SafeNumber(Num(Finite(x))) == x
  {
  }

  lemma DescriptionFixed(desc: string)
    ensures ToStr(Coalesce(Str(desc), Str(""))) == desc
  {
  }

  /** The sanitised values of a canonical record are the values it holds. */
  lemma CanonicalOfCanonical(r: JsVal, d: DateTime)
    requires IsNormalizedRecord(r) && Valid(d) && r.fields["date"].s == ToIsoString(d)
    ensures CanonicalOf(r, d, r.fields["id"]) ==
            Canonical(r.fields["id"], r.fields["date"].s, r.fields["type"].s, r.fields["category"].s,
                      r.fields["amount"].n.r, r.fields["description"].s)
  {
    var ty, cat, amt, desc := r.fields["type"], r.fields["category"], r.fields["amount"], r.fields["description"];
    assert Get(r, "type") == ty && Get(r, "category") == cat;
    assert Get(r, "amount") == amt && Get(r, "description") == desc;
    SafeTypeFixed(ty);
    SafeCategoryFixed(cat.s);
    SafeNumberFixed(amt.n.r);
    DescriptionFixed(desc.s);
  }

  /** A date written by `toISOString` is read back by `safeDate`. */
  lemma SafeDateOfIso(d: DateTime)
    requires Valid(d) && InTimeRange(d)
    ensures SafeDate(Str(ToIsoString(d))) == Some(d)
  {
    SafeDateOfString(ToIsoString(d));
    IsoRoundTrip(d);
  }

  lemma SafeDateOfString(s: string)
    ensures SafeDate(Str(s)) == if ParseDateString(s).ValidDate? then Some(ParseDateString(s).dt) else None
  {
  }

  /** A record already in canonical shape is a fixed point of the sanitiser;
      this rests on `Date.parse` reading back what `toISOString` writes. */
  lemma NormalizedRecordIsFixed(r: JsVal)
    requires IsNormalizedRecord(r)
    ensures NormalizeTransaction(r) == Some(r)
  {
    var d :| Valid(d) && InTimeRange(d) && r.fields["date"].s == ToIsoString(d);
    assert Get(r, "date") == Str(ToIsoString(d));
    SafeDateOfIso(d);
    NormalizeTransactionOf(r, d);
    CanonicalOfCanonical(r, d);
    OverwriteWithOwn(r.fields, CanonicalOf(r, d, r.fields["id"]));
  }

  /** A normalised record normalises to itself. */
  lemma NormalizeIdempotent(t: JsVal)
    requires NormalizeTransaction(t).Some?
    ensures NormalizeTransaction(NormalizeTransaction(t).value) == NormalizeTransaction(t)
  {
    NormalizeTransactionCanonical(t);
    NormalizedRecordIsFixed(NormalizeTransaction(t).value);
  }

  // ---------------------------------------------------------------------
  // Keeping the defined results of a partial map over a list

  /** The results `f` defines, in input order. */
  function FilterSome<T, U>(f: T -> Option<U>, items: seq<T>): seq<U> {
    if items == [] then []
    else
      var init := FilterSome(f, items[..|items| - 1]);
      match f(items[|items| - 1])
      case None => init
      case Some(r) => init + [r]
  }

  /** How many inputs `f` leaves undefined. */
  function CountNone<T, U>(f: T -> Option<U>, items: seq<T>): nat {
    if items == [] then 0
    else CountNone(f, items[..|items| - 1]) + (if f(items[|items| - 1]).None? then 1 else 0)
  }

  lemma {:induction false} FilterSomeCounts<T, U>(f: T -> Option<U>, items: seq<T>)
    ensures |FilterSome(f, items)| + CountNone(f, items) == |items|
    ensures CountNone(f, items) == 0 <==> forall i :: 0 <= i < |items| ==> f(items[i]).Some?
    ensures forall j :: 0 <= j < |FilterSome(f, items)| ==>
              exists i :: 0 <= i < |items| && f(items[i]) == Some(FilterSome(f, items)[j])
  {
    if items != [] {
      var init := items[..|items| - 1];
      FilterSomeCounts(f, init);
      assert forall i :: 0 <= i < |init| ==> init[i] == items[i];
      var out := FilterSome(f, items);
      forall j | 0 <= j < |out|
        ensures exists i :: 0 <= i < |items| && f(items[i]) == Some(out[j])
      {
        if j < |FilterSome(f, init)| {
          var i :| 0 <= i < |init| && f(init[i]) == Some(FilterSome(f, init)[j]);
          assert f(items[i]) == Some(out[j]);
        } else {
          assert f(items[|items| - 1]) == Some(out[j]);
        }
      }
    }
  }

  lemma {:induction false} FilterSomeAppend<T, U>(f: T -> Option<U>, a: seq<T>, b: seq<T>)
    ensures FilterSome(f, a + b) == FilterSome(f, a) + FilterSome(f, b)
    decreases |b|
  {
    if b == [] {
      assert a + b == a;
    } else {
      var b0 := b[..|b| - 1];
      assert (a + b)[..|a + b| - 1] == a + b0;
      assert (a + b)[|a + b| - 1] == b[|b| - 1];
      FilterSomeAppend(f, a, b0);
    }
  }

  /** A list of fixed points of `f` passes through unchanged. */
  lemma {:induction false} FilterSomeOfFixed<T>(f: T -> Option<T>, s: seq<T>)
    requires forall j :: 0 <= j < |s| ==> f(s[j]) == Some(s[j])
    ensures FilterSome(f, s) == s
  {
    if s != [] {
      FilterSomeOfFixed(f, s[..|s| - 1]);
      assert s == s[..|s| - 1] + [s[|s| - 1]];
    }
  }

  // ---------------------------------------------------------------------
  // normalizeTransactions

  /** The in-order list of the records that normalise. */
  function NormalizedList(items: seq<JsVal>): seq<JsVal> {
    FilterSome(NormalizeTransaction, items)
  }

  /** How many records the sanitiser drops. */
  function DroppedCount(items: seq<JsVal>): nat {
    CountNone(NormalizeTransaction, items)
  }

  /** `normalizeTransactions(v)`: [] for a non-array, else the records that
      normalise, in their input order. */
  method NormalizeTransactions(v: JsVal) returns (out: seq<JsVal>)
    ensures !v.Arr? ==> out == []
    ensures v.Arr? ==> out == NormalizedList(v.items)
  {
    if !v.Arr? {
      return [];
    }
    out := [];
    var i := 0;
    while i < |v.items|
      invariant 0 <= i <= |v.items|
      invariant out == FilterSome(NormalizeTransaction, v.items[..i])
    {
      assert v.items[..i + 1][..i] == v.items[..i];
      var norm := NormalizeTransaction(v.items[i]);
      if norm.Some? {
        out := out + [norm.value];
      }
      i := i + 1;
    }
    assert v.items[..i] == v.items;
  }

  /** Kept plus dropped accounts for every input record; nothing is dropped
      exactly when every record is representable; and every kept record is
      canonical and comes from some input record. */
  lemma NormalizedListProperties(items: seq<JsVal>)
    ensures |NormalizedList(items)| + DroppedCount(items) == |items|
    ensures DroppedCount(items) == 0 <==> forall i :: 0 <= i < |items| ==> Representable(items[i])
    ensures forall j :: 0 <= j < |NormalizedList(items)| ==>
              IsNormalizedRecord(NormalizedList(items)[j]) &&
              exists i :: 0 <= i < |items| && NormalizeTransaction(items[i]) == Some(NormalizedList(items)[j])
  {
    FilterSomeCounts(NormalizeTransaction, items);
    var out := NormalizedList(items);
    forall j | 0 <= j < |out| ensures IsNormalizedRecord(out[j]) {
      var i :| 0 <= i < |items| && NormalizeTransaction(items[i]) == Some(out[j]);
      NormalizeTransactionCanonical(items[i]);
    }
  }

  /** Normalising a list splits over concatenation, so kept records stay in
      their input order. */
  lemma NormalizedListAppend(a: seq<JsVal>, b: seq<JsVal>)
    ensures NormalizedList(a + b) == NormalizedList(a) + NormalizedList(b)
  {
    FilterSomeAppend(NormalizeTransaction, a, b);
  }

  /** Normalising an already normalised list changes nothing. */
  lemma NormalizedListIdempotent(items: seq<JsVal>)
    ensures NormalizedList(NormalizedList(items)) == NormalizedList(items)
  {
    NormalizedListProperties(items);
    var out := NormalizedList(items);
    forall j | 0 <= j < |out| ensures NormalizeTransaction(out[j]) == Some(out[j]) {
      NormalizedRecordIsFixed(out[j]);
    }
    FilterSomeOfFixed(NormalizeTransaction, out);
  }

  // ---------------------------------------------------------------------
  // isInRangeInclusive

  /** A date range whose bounds may be missing. */
  datatype Range = Range(start: Option<JsDate>, end: Option<JsDate>)

  /** `isInRangeInclusive(date, range)` for `Date` bounds: a missing range or
      a missing bound admits every date. */
  predicate IsInRangeInclusive(date: JsDate, range: Option<Range>) {
    if range.None? || range.value.start.None? || range.value.end.None? then true
    else DateLe(range.value.start.value, date) && DateLe(date, range.value.end.value)
  }

  /** With both bounds present the test is start <= date <= end on instants,
      and an Invalid Date on either side is never in range. */
  lemma InRangeMeaning(date: JsDate, start: JsDate, end: JsDate)
    ensures IsInRangeInclusive(date, Some(Range(Some(start), Some(end)))) <==>
            date.ValidDate? && start.ValidDate? && end.ValidDate? &&
            Le(start.dt, date.dt) && Le(date.dt, end.dt)
    ensures forall r: Range :: r.start.None? || r.end.None? ==> IsInRangeInclusive(date, Some(r))
  {
  }
}
