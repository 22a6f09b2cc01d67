/** The dashboard's own rules: its second record sanitiser (which fabricates
    what the shared one refuses), its budget sanitiser, the month and year
    ranges of the comparison view, and the transitions of the transaction
    list. Fresh ids and the current instant are parameters. */
module App {
  import opened JsText
  import opened JsValues
  import opened Calendar
  import opened Transactions
  import opened Ledger
  import Backup

  // ---------------------------------------------------------------------
  // sanitizeTransactions

  /** `toSafeISO(v)`: the ISO form of `new Date(v)`, or of now when that is
      an Invalid Date. */
  function SafeIso(v: JsVal, now: DateTime): (s: string)
    requires Valid(now) && InTimeRange(now)
    ensures DateFromValue(v).ValidDate? ==> s == ToIsoString(DateFromValue(v).dt)
    ensures DateFromValue(v).InvalidDate? ==> s == ToIsoString(now)
    ensures ParseDateString(s).ValidDate? && s == ToIsoString(ParseDateString(s).dt)
  {
    match DateFromValue(v)
    case ValidDate(d) => IsoRoundTrip(d); ToIsoString(d)
    case InvalidDate => IsoRoundTrip(now); ToIsoString(now)
  }

  /** `String(cat ?? 'Other') || 'Other'`: untrimmed, and never empty. */
  function AppCategory(cat: JsVal): (r: string)
    ensures r != ""
    ensures IsNullish(cat) || cat == Str("") ==> r == "Other"
    ensures cat.Str? && cat.s != "" ==> r == cat.s
  {
    var s := ToStr(Coalesce(cat, Str("Other")));
    if s == "" then "Other" else s
  }

  /** An entry the sanitiser keeps: truthy and of `typeof` 'object' (arrays
      included). */
  predicate IsObjectLike(t: JsVal) {
    Truthy(t) && IsTypeofObject(t)
  }

  /** The fields the dashboard writes for one entry: its id, or `newId` when
      the id is null or undefined. */
  function AppCanonical(t: JsVal, newId: real, now: DateTime): Canonical
    requires Valid(now) && InTimeRange(now)
  {
    Canonical(Coalesce(Get(t, "id"), Num(Finite(newId))), SafeIso(Get(t, "date"), now),
              SafeType(Get(t, "type")), AppCategory(Get(t, "category")),
              SafeNumber(Get(t, "amount")), ToStr(Coalesce(Get(t, "description"), Str(""))))
  }

  /** One entry through the sanitiser's `map`: null for a non-object, else a
      new record holding exactly the six canonical fields. */
  function AppRecord(t: JsVal, newId: real, now: DateTime): Option<JsVal>
    requires Valid(now) && InTimeRange(now)
  {
    if !IsObjectLike(t) then None else Some(Obj(CanonicalFields(AppCanonical(t, newId, now))))
  }

  /** `sanitizeTransactions(arr)`; entry i is given `freshIds(i)` as the id
      `Date.now() + random` would produce for it. */
  function SanitizeTransactions(arr: JsVal, freshIds: nat -> real, now: DateTime): seq<JsVal>
    requires Valid(now) && InTimeRange(now)
  {
    if arr.Arr? then SanitizeEntries(arr.items, freshIds, now) else []
  }

  function SanitizeEntries(items: seq<JsVal>, freshIds: nat -> real, now: DateTime): seq<JsVal>
    requires Valid(now) && InTimeRange(now)
  {
    Kept(items, AppEntry(freshIds, now))
  }

  /** The `map` callback: entry i is sanitised with the fresh id `freshIds(i)`. */
  function AppEntry(freshIds: nat -> real, now: DateTime): (JsVal, nat) -> Option<JsVal>
    requires Valid(now) && InTimeRange(now)
  {
    (t: JsVal, i: nat) => AppRecord(t, freshIds(i), now)
  }

  /** `.map(f).filter(Boolean)` with the entry's index passed to `f`: the
      images that are not null, in order. */
  function Kept<T, U>(items: seq<T>, f: (T, nat) -> Option<U>): seq<U> {
    if items == [] then []
    else
      var init := Kept(items[..|items| - 1], f);
      match f(items[|items| - 1], |items| - 1)
      case None => init
      case Some(r) => init + [r]
  }

  /** As many images as entries `p` holds of, when `p` says which entries
      have an image. */
  lemma {:induction false} KeptLength<T, U>(items: seq<T>, f: (T, nat) -> Option<U>, p: T -> bool)
    requires forall i :: 0 <= i < |items| ==> (f(items[i], i).Some? <==> p(items[i]))
    ensures |Kept(items, f)| == |Select(items, p)|
  {
    if items != [] {
      KeptLength(items[..|items| - 1], f, p);
    }
  }

  /** Every kept value is the image of some entry. */
  lemma {:induction false} KeptImages<T, U>(items: seq<T>, f: (T, nat) -> Option<U>)
    ensures forall j :: 0 <= j < |Kept(items, f)| ==>
              exists i :: 0 <= i < |items| && f(items[i], i) == Some(Kept(items, f)[j])
  {
    if items != [] {
      var init := items[..|items| - 1];
      KeptImages(init, f);
      var out, prev := Kept(items, f), Kept(init, f);
      forall j | 0 <= j < |out|
        ensures exists i :: 0 <= i < |items| && f(items[i], i) == Some(out[j])
      {
        if j < |prev| {
          var i :| 0 <= i < |init| && f(init[i], i) == Some(prev[j]);
          assert items[i] == init[i];
        } else {
          assert f(items[|items| - 1], |items| - 1) == Some(out[j]);
        }
      }
    } else {
      assert Kept(items, f) == [];
    }
  }

  /** A record as this sanitiser writes it. */
  ghost predicate IsAppRecord(r: JsVal) {
    r.Obj? && r.fields.Keys == CanonicalKeys() &&
    !IsNullish(r.fields["id"]) &&
    r.fields["type"] in {Str("income"), Str("expense")} &&
    r.fields["amount"].Num? && r.fields["amount"].n.Finite? &&
    r.fields["date"].Str? && ParseDateString(r.fields["date"].s).ValidDate? &&
    r.fields["date"].s == ToIsoString(ParseDateString(r.fields["date"].s).dt) &&
    r.fields["description"].Str? &&
    r.fields["category"].Str? && r.fields["category"].s != ""
  }

  lemma CanonicalFieldsLookup(c: Canonical)
    ensures var m := CanonicalFields(c);
      m.Keys == CanonicalKeys() &&
      m["id"] == c.id && m["date"] == Str(c.date) && m["type"] == Str(c.txType) &&
      m["category"] == Str(c.category) && m["amount"] == Num(Finite(c.amount)) &&
      m["description"] == Str(c.description)
  {
    OverwriteFields(map[], c);
    assert map[] + CanonicalFields(c) == CanonicalFields(c);
  }

  /** A kept entry keeps an existing id and gets the fresh one only when its
      id is null or undefined; its date is its own when that parses and now
      otherwise; every field has its canonical type. */
  lemma AppRecordShape(t: JsVal, newId: real, now: DateTime)
    requires Valid(now) && InTimeRange(now)
    ensures AppRecord(t, newId, now).Some? <==> IsObjectLike(t)
    ensures AppRecord(t, newId, now).Some? ==>
      var r := AppRecord(t, newId, now).value;
      IsAppRecord(r) &&
      (!IsNullish(Get(t, "id")) ==> r.fields["id"] == Get(t, "id")) &&
      (IsNullish(Get(t, "id")) ==> r.fields["id"] == Num(Finite(newId))) &&
      (DateFromValue(Get(t, "date")).ValidDate? ==> r.fields["date"] == Str(ToIsoString(DateFromValue(Get(t, "date")).dt))) &&
      (DateFromValue(Get(t, "date")).InvalidDate? ==> r.fields["date"] == Str(ToIsoString(now))) &&
      (Get(t, "category") == Str("") ==> r.fields["category"] == Str("Other"))
  {
    if IsObjectLike(t) {
      var c := AppCanonical(t, newId, now);
      CanonicalFieldsLookup(c);
    }
  }

  /** Non-arrays give []; otherwise only the non-object entries are dropped,
      and every kept record is the image of an entry, in order of entries. */
  lemma SanitizeEntriesMeaning(items: seq<JsVal>, freshIds: nat -> real, now: DateTime)
    requires Valid(now) && InTimeRange(now)
    ensures |SanitizeEntries(items, freshIds, now)| == |Select(items, IsObjectLike)|
    ensures forall j :: 0 <= j < |SanitizeEntries(items, freshIds, now)| ==>
              IsAppRecord(SanitizeEntries(items, freshIds, now)[j]) &&
              exists i :: 0 <= i < |items| && AppRecord(items[i], freshIds(i), now) == Some(SanitizeEntries(items, freshIds, now)[j])
  {
    forall i | 0 <= i < |items|
      ensures AppEntry(freshIds, now)(items[i], i).Some? <==> IsObjectLike(items[i])
      ensures AppEntry(freshIds, now)(items[i], i).Some? ==> IsAppRecord(AppEntry(freshIds, now)(items[i], i).value)
    {
      AppRecordShape(items[i], freshIds(i), now);
    }
    KeptMeaning(items, AppEntry(freshIds, now), IsObjectLike, IsAppRecord);
  }

  /** What is kept: one value per entry satisfying p, each the image of some
      entry and each satisfying what every image satisfies. */
  lemma KeptMeaning<T, U>(items: seq<T>, f: (T, nat) -> Option<U>, p: T -> bool, q: U -> bool)
    requires forall i :: 0 <= i < |items| ==> (f(items[i], i).Some? <==> p(items[i]))
    requires forall i :: 0 <= i < |items| && f(items[i], i).Some? ==> q(f(items[i], i).value)
    ensures |Kept(items, f)| == |Select(items, p)|
    ensures forall j :: 0 <= j < |Kept(items, f)| ==>
              q(Kept(items, f)[j]) && exists i :: 0 <= i < |items| && f(items[i], i) == Some(Kept(items, f)[j])
  {
    KeptLength(items, f, p);
    KeptImages(items, f);
    forall j | 0 <= j < |Kept(items, f)|
      ensures q(Kept(items, f)[j])
    {
      var i :| 0 <= i < |items| && f(items[i], i) == Some(Kept(items, f)[j]);
    }
  }

  lemma SanitizeTransactionsMeaning(arr: JsVal, freshIds: nat -> real, now: DateTime)
    requires Valid(now) && InTimeRange(now)
    ensures !arr.Arr? ==> SanitizeTransactions(arr, freshIds, now) == []
    ensures arr.Arr? ==> |SanitizeTransactions(arr, freshIds, now)| == |Select(arr.items, IsObjectLike)|
    ensures forall j :: 0 <= j < |SanitizeTransactions(arr, freshIds, now)| ==>
              IsAppRecord(SanitizeTransactions(arr, freshIds, now)[j])
  {
    if arr.Arr? {
      SanitizeEntriesMeaning(arr.items, freshIds, now);
    }
  }

  /** The two sanitisers differ: an object without an id is dropped by the
      shared one and kept, under a fabricated id, by the dashboard. */
  lemma SanitizersDiffer(t: JsVal, newId: real, now: DateTime)
    requires Valid(now) && InTimeRange(now)
    requires t.Obj? && IsNullish(Get(t, "id"))
    ensures NormalizeTransaction(t).None?
    ensures AppRecord(t, newId, now).Some? && AppRecord(t, newId, now).value.fields["id"] == Num(Finite(newId))
  {
    AppRecordShape(t, newId, now);
  }

  /** An object whose date does not parse is dropped by the shared
      sanitiser and dated now by the dashboard's. */
  lemma UnparseableDateDiffers(t: JsVal, newId: real, now: DateTime)
    requires Valid(now) && InTimeRange(now)
    requires t.Obj? && DateFromValue(Get(t, "date")).InvalidDate?
    ensures NormalizeTransaction(t).None?
    ensures AppRecord(t, newId, now).Some? && AppRecord(t, newId, now).value.fields["date"] == Str(ToIsoString(now))
  {
    AppRecordShape(t, newId, now);
  }

  // ---------------------------------------------------------------------
  // sanitizeBudgets

  /** The inline guard `!v || typeof v !== 'object' || Array.isArray(v)`,
      negated. */
  predicate IsBudgetObject(v: JsVal) {
    !(!Truthy(v) || !IsTypeofObject(v) || v.Arr?)
  }

  /** The dashboard's `sanitizeBudgets(obj)`. */
  function SanitizedBudgets(obj: JsVal): map<string, map<string, real>> {
    if !IsBudgetObject(obj) then map[]
    else map m | m in obj.fields && m != ProtoAccessor && IsBudgetObject(obj.fields[m]) :: Backup.CleanLimits(obj.fields[m].fields)
  }

  /** The loops of `sanitizeBudgets`: month objects are kept with their
      positive finite limits, every other month value is skipped, and a
      month keyed `__proto__` adds no own key. */
  method SanitizeBudgets(obj: JsVal) returns (next: map<string, map<string, real>>)
    ensures next == SanitizedBudgets(obj)
  {
    next := map[];
    if !IsBudgetObject(obj) {
      return;
    }
    var months := obj.fields.Keys;
    while months != {}
      invariant months <= obj.fields.Keys
      invariant next == map m | m in obj.fields.Keys - months && m != ProtoAccessor && IsBudgetObject(obj.fields[m]) ::
                         Backup.CleanLimits(obj.fields[m].fields)
      decreases months
    {
      var m :| m in months;
      if IsBudgetObject(obj.fields[m]) {
        var clean := Backup.SanitizeLimits(obj.fields[m].fields);
        next := AssignKey(next, m, clean);
      }
      months := months - {m};
    }
  }

  /** Its copy is the backup reader's sanitiser exactly. */
  lemma SanitizeBudgetsSameAsBackup(obj: JsVal)
    ensures SanitizedBudgets(obj) == Backup.SanitizedBudgets(obj)
  {
    if obj.Obj? {
      forall m | m in obj.fields ensures IsBudgetObject(obj.fields[m]) == Backup.IsPlainObject(obj.fields[m]) {
      }
    }
  }

  // ---------------------------------------------------------------------
  // Month and year ranges

  datatype Period = Period(start: JsDate, end: JsDate)

  /** `getMonthRangeFromDate(date)`. */
  function MonthRange(date: JsDate): Period {
    match date
    case InvalidDate => Period(InvalidDate, InvalidDate)
    case ValidDate(d) => Period(StartOfDay(NewDate(d.year, d.month, 1, 0)), SetMilliseconds(NewDate(d.year, d.month + 1, 1, 0), -1))
  }

  /** `getYearRangeFromDate(date)`. */
  function YearRange(date: JsDate): Period {
    match date
    case InvalidDate => Period(InvalidDate, InvalidDate)
    case ValidDate(d) => Period(StartOfDay(NewDate(d.year, 0, 1, 0)), SetMilliseconds(NewDate(d.year + 1, 0, 1, 0), -1))
  }

  /** The last millisecond of a month. */
  function LastInstant(y: int, m: int): DateTime
    requires 0 <= m < 12
  {
    DateTime(y, m, DaysInMonth(y, m), MsPerDay - 1)
  }

  /** `new Date(y, m, 1)` is the first instant of the month, and
      `setHours(0, 0, 0, 0)` leaves it so. */
  lemma FirstOfMonth(y: int, m: int)
    requires 0 <= m < 12
    ensures NewDate(y, m, 1, 0) == Clip(DateTime(ConstructorYear(y), m, 1, 0))
    ensures StartOfDay(NewDate(y, m, 1, 0)) == NewDate(y, m, 1, 0)
  {
    assert MakeDateTime(ConstructorYear(y), m, 1, 0) == DateTime(ConstructorYear(y), m, 1, 0);
  }

  /** `new Date(y, m + 1, 1)` is the first instant of the next month, and
      `setMilliseconds(-1)` steps back to the last instant of month m. */
  lemma EndOfMonthFrom(y: int, m: int)
    requires 0 <= m < 12
    ensures var n := NextMonth(ConstructorYear(y), m);
            NewDate(y, m + 1, 1, 0) == Clip(DateTime(n.0, n.1, 1, 0)) &&
            SetMilliseconds(NewDate(y, m + 1, 1, 0), -1) ==
              (if InTimeRange(DateTime(n.0, n.1, 1, 0)) then Clip(LastInstant(ConstructorYear(y), m)) else InvalidDate)
  {
    var yy := ConstructorYear(y);
    var n := NextMonth(yy, m);
    if m == 11 {
      assert MakeDateTime(yy, 12, 1, 0) == NormalizeDay(yy + 1, 0, 1, 0);
    } else {
      assert MakeDateTime(yy, m + 1, 1, 0) == DateTime(yy, m + 1, 1, 0);
    }
    assert -1 / MsPerDay == -1 && -1 % MsPerDay == MsPerDay - 1;
    assert MakeDateTime(n.0, n.1, 1, 0 - 0 % 1000 + -1) == NormalizeDay(n.0, n.1, 0, MsPerDay - 1);
    assert PrevMonth(n.0, n.1) == (yy, m);
  }

  /** The month range starts at the first instant of the month and ends one
      millisecond before the next month starts, each side Invalid Date when
      that instant is outside the time-value range; the constructor's year is
      used, so the years 0..99 land in the twentieth century. */
  lemma MonthRangeBounds(d: DateTime)
    requires Valid(d)
    ensures var y := ConstructorYear(d.year);
            var n := NextMonth(y, d.month);
            MonthRange(ValidDate(d)).start == Clip(DateTime(y, d.month, 1, 0)) &&
            MonthRange(ValidDate(d)).end ==
              (if InTimeRange(DateTime(n.0, n.1, 1, 0)) then Clip(LastInstant(y, d.month)) else InvalidDate)
  {
    FirstOfMonth(d.year, d.month);
    EndOfMonthFrom(d.year, d.month);
  }

  /** Outside the years 0..99 the month range contains the date. */
  lemma MonthRangeContains(d: DateTime)
    requires Valid(d) && !(0 <= d.year <= 99)
    ensures MonthRange(ValidDate(d)).start.ValidDate? ==> Le(MonthRange(ValidDate(d)).start.dt, d)
    ensures MonthRange(ValidDate(d)).end.ValidDate? ==> Le(d, MonthRange(ValidDate(d)).end.dt)
  {
    MonthRangeBounds(d);
  }

  /** `new Date(y, 0, 1)` with `setMilliseconds(-1)` is the last instant of
      the year before. */
  lemma EndOfYearFrom(y: int)
    ensures var yy := ConstructorYear(y);
            SetMilliseconds(NewDate(y, 0, 1, 0), -1) ==
              (if InTimeRange(DateTime(yy, 0, 1, 0)) then Clip(LastInstant(yy - 1, 11)) else InvalidDate)
  {
    var yy := ConstructorYear(y);
    FirstOfMonth(y, 0);
    assert -1 / MsPerDay == -1 && -1 % MsPerDay == MsPerDay - 1;
    assert MakeDateTime(yy, 0, 1, 0 - 0 % 1000 + -1) == NormalizeDay(yy, 0, 0, MsPerDay - 1);
    assert PrevMonth(yy, 0) == (yy - 1, 11);
  }

  /** The year range runs from 1 January 00:00:00.000 to 31 December
      23:59:59.999, each side Invalid Date outside the time-value range. */
  lemma YearRangeBounds(d: DateTime)
    requires Valid(d)
    ensures var y1 := ConstructorYear(d.year + 1);
            YearRange(ValidDate(d)).start == Clip(DateTime(ConstructorYear(d.year), 0, 1, 0)) &&
            YearRange(ValidDate(d)).end ==
              (if InTimeRange(DateTime(y1, 0, 1, 0)) then Clip(LastInstant(y1 - 1, 11)) else InvalidDate)
  {
    FirstOfMonth(d.year, 0);
    EndOfYearFrom(d.year + 1);
  }

  /** Outside the years -1..99 the year range contains the date. */
  lemma YearRangeContains(d: DateTime)
    requires Valid(d) && !(-1 <= d.year <= 99)
    ensures YearRange(ValidDate(d)).start.ValidDate? ==> Le(YearRange(ValidDate(d)).start.dt, d)
    ensures YearRange(ValidDate(d)).end.ValidDate? ==> Le(d, YearRange(ValidDate(d)).end.dt)
  {
    YearRangeBounds(d);
  }

  // ---------------------------------------------------------------------
  // Current and previous period

  /** `currentPeriod` for the comparison mode. */
  function CurrentPeriod(mode: string, view: DateTime): Option<Period> {
    if mode == "year" then Some(YearRange(ValidDate(view)))
    else if mode == "month" then Some(MonthRange(ValidDate(view)))
    else None
  }

  /** `previousPeriod` as written: in month mode `setMonth(getMonth() - 1)`
      keeps the day, so from the 29th-31st it can roll back into the
      current month. */
  function PreviousPeriodAsWritten(mode: string, view: DateTime): Option<Period> {
    if mode == "month" then Some(MonthRange(SetMonth(ValidDate(view), view.month - 1)))
    else if mode == "year" then Some(YearRange(SetFullYear(ValidDate(view), view.year - 1)))
    else None
  }

  /** On 31 March the "previous" month is March again: the comparison view
      compares the month with itself. */
  lemma PreviousMonthRollover()
    ensures var view := DateTime(2025, 2, 31, 0);
            PreviousPeriodAsWritten("month", view) == CurrentPeriod("month", view)
  {
    var view := DateTime(2025, 2, 31, 0);
    FebruaryThirtyFirst();
    MonthRangeOfMonth(DateTime(2025, 2, 3, 0), view);
  }

  /** `setMonth(1)` on a 31 March lands on 3 March. */
  lemma FebruaryThirtyFirst()
    ensures SetMonth(ValidDate(DateTime(2025, 2, 31, 0)), 1) == ValidDate(DateTime(2025, 2, 3, 0))
  {
    assert MakeDateTime(2025, 1, 31, 0) == NormalizeDay(2025, 1, 31, 0);
    assert DaysInMonth(2025, 1) == 28;
    assert NormalizeDay(2025, 1, 31, 0) == NormalizeDay(2025, 2, 3, 0);
    assert InTimeRange(DateTime(2025, 2, 3, 0));
  }

  /** The month range depends on the year and month only. */
  lemma MonthRangeOfMonth(a: DateTime, b: DateTime)
    requires a.year == b.year && a.month == b.month
    ensures MonthRange(ValidDate(a)) == MonthRange(ValidDate(b))
  {
  }

  /** `previousPeriod` as intended: the range of the calendar month before the
      view's month, or of the year before. */
  function PreviousPeriod(mode: string, view: DateTime): Option<Period>
    requires Valid(view)
  {
    if mode == "month" then
      var p := PrevMonth(view.year, view.month);
      Some(MonthRange(Clip(DateTime(p.0, p.1, 1, 0))))
    else if mode == "year" then Some(YearRange(SetFullYear(ValidDate(view), view.year - 1)))
    else None
  }

  /** Outside the two modes there is no period at all. */
  lemma NoPeriodOutsideModes(mode: string, view: DateTime)
    requires Valid(view)
    ensures mode != "month" && mode != "year" <==> PreviousPeriod(mode, view).None?
    ensures mode != "month" && mode != "year" <==> PreviousPeriodAsWritten(mode, view).None?
    ensures mode != "month" && mode != "year" <==> CurrentPeriod(mode, view).None?
  {
  }

  /** The range of a month whose first instant and whose successor's first
      instant are representable: both of its ends are valid. */
  lemma MonthRangeOfFirst(y: int, m: int)
    requires 0 <= m < 12 && !(0 <= y <= 99)
    requires InTimeRange(DateTime(y, m, 1, 0))
    requires InTimeRange(DateTime(NextMonth(y, m).0, NextMonth(y, m).1, 1, 0))
    ensures MonthRange(ValidDate(DateTime(y, m, 1, 0))) ==
              Period(ValidDate(DateTime(y, m, 1, 0)), ValidDate(LastInstant(y, m)))
  {
    var n := NextMonth(y, m);
    MonthRangeBounds(DateTime(y, m, 1, 0));
    assert Le(LastInstant(y, m), DateTime(n.0, n.1, 1, 0));
    LeTrans(LastInstant(y, m), DateTime(n.0, n.1, 1, 0), MaxInstant);
    LeTrans(MinInstant, DateTime(y, m, 1, 0), LastInstant(y, m));
  }

  /** In month mode the previous period is the month before the view's
      month: it starts at that month's first instant, ends at its last, and
      so ends one millisecond before the current period starts. */
  lemma PreviousMonthMeaning(view: DateTime)
    requires Valid(view) && InTimeRange(view) && !(0 <= view.year <= 100)
    requires InTimeRange(DateTime(PrevMonth(view.year, view.month).0, PrevMonth(view.year, view.month).1, 1, 0))
    ensures var p := PrevMonth(view.year, view.month);
            NextMonth(p.0, p.1) == (view.year, view.month) &&
            PreviousPeriod("month", view) == CurrentPeriod("month", DateTime(p.0, p.1, 1, 0)) &&
            PreviousPeriod("month", view) == Some(Period(ValidDate(DateTime(p.0, p.1, 1, 0)), ValidDate(LastInstant(p.0, p.1)))) &&
            CurrentPeriod("month", view).value.start == ValidDate(DateTime(view.year, view.month, 1, 0))
  {
    var p := PrevMonth(view.year, view.month);
    var current := DateTime(view.year, view.month, 1, 0);
    assert NextMonth(p.0, p.1) == (view.year, view.month);
    assert Le(current, view);
    LeTrans(current, view, MaxInstant);
    MonthRangeOfFirst(p.0, p.1);
    MonthRangeBounds(view);
  }

  /** `setFullYear(y - 1)` stays in year y - 1 (29 February becomes
      1 March). */
  lemma PrevYearDate(view: DateTime)
    requires Valid(view) && InTimeRange(view) && InTimeRange(DateTime(view.year - 1, 0, 1, 0))
    ensures SetFullYear(ValidDate(view), view.year - 1).ValidDate?
    ensures SetFullYear(ValidDate(view), view.year - 1).dt.year == view.year - 1
  {
    var y := view.year - 1;
    var r := MakeDateTime(y, view.month, view.day, view.ms);
    if view.day > DaysInMonth(y, view.month) {
      assert view.month == 1 && view.day == 29;
      assert r == NormalizeDay(y, 1, 29, view.ms);
      assert NormalizeDay(y, 1, 29, view.ms) == NormalizeDay(y, 2, 1, view.ms);
    }
    LeTrans(MinInstant, DateTime(y, 0, 1, 0), r);
    LeTrans(r, view, MaxInstant);
  }

  /** In year mode the previous period is the range of the year before. */
  lemma PreviousYearMeaning(view: DateTime)
    requires Valid(view) && InTimeRange(view) && InTimeRange(DateTime(view.year - 1, 0, 1, 0))
    ensures PreviousPeriod("year", view) == PreviousPeriodAsWritten("year", view)
    ensures PreviousPeriod("year", view) == CurrentPeriod("year", DateTime(view.year - 1, 0, 1, 0))
  {
    PrevYearDate(view);
  }

  /** Up to the 28th the month-mode previous period as written is the
      intended one. */
  lemma PreviousPeriodAgreesUpTo28th(view: DateTime)
    requires Valid(view) && InTimeRange(view) && view.day <= 28
    requires InTimeRange(DateTime(PrevMonth(view.year, view.month).0, PrevMonth(view.year, view.month).1, 1, 0))
    ensures PreviousPeriodAsWritten("month", view) == PreviousPeriod("month", view)
  {
    var p := PrevMonth(view.year, view.month);
    var q := DateTime(p.0, p.1, view.day, view.ms);
    if view.month == 0 {
      assert MakeDateTime(view.year, -1, view.day, view.ms) == NormalizeDay(view.year - 1, 11, view.day, view.ms);
    }
    assert MakeDateTime(view.year, view.month - 1, view.day, view.ms) == q;
    LeTrans(MinInstant, DateTime(p.0, p.1, 1, 0), q);
    LeTrans(q, view, MaxInstant);
  }

  // ---------------------------------------------------------------------
  // The transaction list

  /** `a === b`. Arrays and objects compare by contents here, where the
      program compares references. */
  predicate StrictEquals(a: JsVal, b: JsVal) {
    match (a, b)
    case (Num(x), Num(y)) => !x.NaN? && x == y
    case _ => a == b
  }

  /** SameValueZero, the equality of `Set.has`: like `===` except that NaN
      equals NaN. */
  predicate SameValueZero(a: JsVal, b: JsVal) {
    a == b
  }

  lemma SameValueZeroVsStrict(a: JsVal, b: JsVal)
    ensures SameValueZero(a, b) <==> StrictEquals(a, b) || (a == Num(NaN) && b == Num(NaN))
    ensures StrictEquals(a, b) ==> StrictEquals(b, a)
  {
  }

  predicate HasId(t: JsVal, id: JsVal) {
    StrictEquals(Get(t, "id"), id)
  }

  /** `prev.filter(t => t.id !== id)`. */
  function Without(txs: seq<JsVal>, id: JsVal): seq<JsVal> {
    Select(txs, t => !HasId(t, id))
  }

  /** `idSet.has(x)` for `idSet = new Set(ids)`. */
  predicate InIds(ids: seq<JsVal>, x: JsVal) {
    exists i :: 0 <= i < |ids| && SameValueZero(ids[i], x)
  }

  /** `prev.filter(t => !idSet.has(t.id))`. */
  function WithoutAny(txs: seq<JsVal>, ids: seq<JsVal>): seq<JsVal> {
    Select(txs, t => !InIds(ids, Get(t, "id")))
  }

  /** `{ ...record, id }`. */
  function WithId(record: JsVal, id: JsVal): JsVal {
    Obj(Spread(record)["id" := id])
  }

  /** `prev.map(t => t.id === id ? { ...updated, id } : t)`: an entry whose
      id does not match stays as it was; a matching entry becomes an object
      with exactly the fields of `updated` plus `id`, holding the id it
      matched and every other field of `updated` unchanged. */
  function Edited(txs: seq<JsVal>, id: JsVal, updated: JsVal): (r: seq<JsVal>)
    ensures |r| == |txs|
    ensures forall i :: 0 <= i < |txs| && !HasId(txs[i], id) ==> r[i] == txs[i]
    ensures forall i :: 0 <= i < |txs| && HasId(txs[i], id) ==>
              r[i].Obj? && r[i].fields.Keys == Spread(updated).Keys + {"id"} &&
              r[i].fields["id"] == id && StrictEquals(Get(txs[i], "id"), r[i].fields["id"]) &&
              forall k :: k in Spread(updated) && k != "id" ==> r[i].fields[k] == Spread(updated)[k]
  {
    seq(|txs|, i requires 0 <= i < |txs| => if HasId(txs[i], id) then WithId(updated, id) else txs[i])
  }

  /** The `transactions` state and its transitions. */
  class Store {
    var transactions: seq<JsVal>

    constructor(saved: seq<JsVal>)
      ensures transactions == saved
    {
      transactions := saved;
    }

    /** `addTransaction(t)`: the new record goes first. */
    method Add(t: JsVal)
      modifies this
      ensures transactions == [t] + old(transactions)
    {
      transactions := [t] + transactions;
    }

    /** `deleteTransaction(id)`. */
    method Delete(id: JsVal)
      modifies this
      ensures transactions == Without(old(transactions), id)
    {
      transactions := Without(transactions, id);
    }

    /** `editTransaction(id, updated)`: every matching entry is replaced by
      `updated` carrying the original id; the others stay. */
    method Edit(id: JsVal, updated: JsVal)
      modifies this
      ensures |transactions| == |old(transactions)|
      ensures forall i :: 0 <= i < |transactions| ==>
                transactions[i] == if HasId(old(transactions)[i], id) then WithId(updated, id) else old(transactions)[i]
    {
      transactions := Edited(transactions, id, updated);
    }

    /** `duplicateTransaction(t)`: nothing for a falsy argument; otherwise a
      copy under the fresh id goes first and is returned. */
    method Duplicate(t: JsVal, freshId: real) returns (clone: Option<JsVal>)
      modifies this
      ensures !Truthy(t) ==> clone.None? && transactions == old(transactions)
      ensures Truthy(t) ==> clone == Some(WithId(t, Num(Finite(freshId)))) &&
                            transactions == [clone.value] + old(transactions)
    {
      if !Truthy(t) {
        return None;
      }
      var c := WithId(t, Num(Finite(freshId)));
      transactions := [c] + transactions;
      return Some(c);
    }

    /** `bulkDeleteTransactions(ids)`: nothing for a non-array or an empty
      array; otherwise every entry whose id is in the set goes. */
    method BulkDelete(ids: JsVal)
      modifies this
      ensures !ids.Arr? || ids.items == [] ==> transactions == old(transactions)
      ensures ids.Arr? && ids.items != [] ==> transactions == WithoutAny(old(transactions), ids.items)
    {
      if !ids.Arr? || |ids.items| == 0 {
        return;
      }
      transactions := WithoutAny(transactions, ids.items);
    }
  }

  /** Deleting removes exactly the entries with the id and keeps the rest in
      order: nothing changes when no entry matches, and a second delete
      changes nothing. */
  lemma DeleteMeaning(txs: seq<JsVal>, id: JsVal)
    ensures forall t :: t in Without(txs, id) <==> t in txs && !HasId(t, id)
    ensures |Without(txs, id)| <= |txs|
    ensures (forall i :: 0 <= i < |txs| ==> !HasId(txs[i], id)) ==> Without(txs, id) == txs
    ensures Without(Without(txs, id), id) == Without(txs, id)
  {
    SelectMeaning(txs, t => !HasId(t, id));
    if forall i :: 0 <= i < |txs| ==> !HasId(txs[i], id) {
      SelectAll(txs, t => !HasId(t, id));
    }
    var w := Without(txs, id);
    SelectMeaning(w, t => !HasId(t, id));
    forall i | 0 <= i < |w| ensures !HasId(w[i], id) {
      assert w[i] in w;
    }
    SelectAll(w, t => !HasId(t, id));
  }

  lemma {:induction false} SelectAll<T>(xs: seq<T>, p: T -> bool)
    requires forall i :: 0 <= i < |xs| ==> p(xs[i])
    ensures Select(xs, p) == xs
  {
    if xs != [] {
      SelectAll(xs[..|xs| - 1], p);
      assert xs == xs[..|xs| - 1] + [xs[|xs| - 1]];
    }
  }

  /** A record added and then deleted by its (non-NaN) id is gone again, and
      the other entries with that id go with it. */
  lemma AddThenDelete(t: JsVal, txs: seq<JsVal>)
    requires Get(t, "id") != Num(NaN)
    ensures Without([t] + txs, Get(t, "id")) == Without(txs, Get(t, "id"))
  {
    SelectAppend([t], txs, u => !HasId(u, Get(t, "id")));
    assert Select([t], u => !HasId(u, Get(t, "id"))) == [];
  }

  /** Editing keeps every entry's id up to `===`: a replaced entry carries
      the id it matched. */
  lemma EditKeepsIds(txs: seq<JsVal>, id: JsVal, updated: JsVal)
    ensures forall i :: 0 <= i < |txs| ==>
              Edited(txs, id, updated)[i] == txs[i] ||
              (Get(Edited(txs, id, updated)[i], "id") == id && StrictEquals(Get(txs[i], "id"), id))
  {
  }

  /** The copy differs from the original only in its id. */
  lemma CloneDiffersOnlyInId(t: JsVal, freshId: real)
    requires t.Obj?
    ensures var c := WithId(t, Num(Finite(freshId)));
            c.fields.Keys == t.fields.Keys + {"id"} &&
            c.fields["id"] == Num(Finite(freshId)) &&
            forall k :: k in t.fields && k != "id" ==> c.fields[k] == t.fields[k]
  {
  }

  lemma InOneId(id: JsVal, v: JsVal)
    ensures InIds([id], v) <==> v == id
  {
    if v == id {
      assert SameValueZero([id][0], v);
    }
  }

  /** Bulk deletion of one id that is not NaN is a single delete. */
  lemma BulkDeleteOfOne(txs: seq<JsVal>, id: JsVal)
    requires id != Num(NaN)
    ensures WithoutAny(txs, [id]) == Without(txs, id)
  {
    var p := u => !InIds([id], Get(u, "id"));
    var q := u => !HasId(u, id);
    forall u ensures p(u) == q(u) {
      InOneId(id, Get(u, "id"));
    }
    SelectSame(txs, p, q);
  }

  /** For a NaN id they differ: `!==` never matches NaN, so a single delete
      keeps everything, while the set matches NaN and removes every entry
      whose id is NaN. */
  lemma BulkDeleteOfNaN(txs: seq<JsVal>)
    ensures Without(txs, Num(NaN)) == txs
    ensures forall t :: t in WithoutAny(txs, [Num(NaN)]) <==> t in txs && Get(t, "id") != Num(NaN)
  {
    SelectAll(txs, u => !HasId(u, Num(NaN)));
    var p := u => !InIds([Num(NaN)], Get(u, "id"));
    SelectMeaning(txs, p);
    forall t ensures p(t) <==> Get(t, "id") != Num(NaN) {
      InOneId(Num(NaN), Get(t, "id"));
    }
  }

  lemma {:induction false} SelectSame<T>(xs: seq<T>, p: T -> bool, q: T -> bool)
    requires forall x :: p(x) == q(x)
    ensures Select(xs, p) == Select(xs, q)
  {
    if xs != [] {
      SelectSame(xs[..|xs| - 1], p, q);
    }
  }
}
