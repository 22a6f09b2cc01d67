/** Reading a backup file back in: the budget-map sanitiser, the migration of
    v1 and legacy layouts to the v2 data shape, and the restore preview that
    `parseBackupText` builds after `JSON.parse`. The parse itself is an input:
    `None` when `JSON.parse` throws, `Some(v)` for the value it returns. */
module Backup {
  import opened JsText
  import opened JsValues
  import opened Transactions

  /** `isPlainObject(v)`: truthy, `typeof` 'object', not an array. */
  predicate IsPlainObject(v: JsVal) {
    Truthy(v) && IsTypeofObject(v) && !v.Arr?
  }

  /** Among JSON values the plain objects are exactly the objects. */
  lemma PlainObjectIsObject(v: JsVal)
    ensures IsPlainObject(v) <==> v.Obj?
  {
  }

  // ---------------------------------------------------------------------
  // sanitizeBudgets

  /** A limit survives when `Number(limit)` is finite and positive. */
  predicate IsPositiveLimit(v: JsVal) {
    ToNumber(v).Finite? && ToNumber(v).r > 0.0
  }

  /** The limits of one month that survive, as numbers. `cleanCats[cat] = n`
      adds no own key for the category `__proto__`. */
  function CleanLimits(cats: map<string, JsVal>): map<string, real> {
    map c | c in cats && c != ProtoAccessor && IsPositiveLimit(cats[c]) :: ToNumber(cats[c]).r
  }

  /** What `sanitizeBudgets(obj)` returns: {} unless `obj` is a plain object;
      otherwise every month whose value is a plain object, with its
      surviving limits. A month keyed `__proto__` becomes the prototype of
      the result, not an own key, so it is not part of the result. */
  function SanitizedBudgets(obj: JsVal): map<string, map<string, real>> {
    if !IsPlainObject(obj) then map[]
    else map m | m in obj.fields && m != ProtoAccessor && IsPlainObject(obj.fields[m]) :: CleanLimits(obj.fields[m].fields)
  }

  /** The inner loop of `sanitizeBudgets` over one month's entries. */
  method SanitizeLimits(cats: map<string, JsVal>) returns (clean: map<string, real>)
    ensures clean == CleanLimits(cats)
  {
    clean := map[];
    var todo := cats.Keys;
    while todo != {}
      invariant todo <= cats.Keys
      invariant clean == map c | c in cats.Keys - todo && c != ProtoAccessor && IsPositiveLimit(cats[c]) :: ToNumber(cats[c]).r
      decreases todo
    {
      var c :| c in todo;
      var n := ToNumber(cats[c]);
      if n.Finite? && n.r > 0.0 {
        clean := AssignKey(clean, c, n.r);
      }
      todo := todo - {c};
    }
  }

  /** `sanitizeBudgets(obj)`: the outer loop over the months. */
  method SanitizeBudgets(obj: JsVal) returns (next: map<string, map<string, real>>)
    ensures next == SanitizedBudgets(obj)
  {
    next := map[];
    if !IsPlainObject(obj) {
      return;
    }
    var months := obj.fields.Keys;
    while months != {}
      invariant months <= obj.fields.Keys
      invariant next == map m | m in obj.fields.Keys - months && m != ProtoAccessor && IsPlainObject(obj.fields[m]) ::
                         CleanLimits(obj.fields[m].fields)
      decreases months
    {
      var m :| m in months;
      var cats := obj.fields[m];
      if IsPlainObject(cats) {
        var clean := SanitizeLimits(cats.fields);
        next := AssignKey(next, m, clean);
      }
      months := months - {m};
    }
  }

  /** The sanitised budgets as the JSON object they are stored as. */
  function BudgetsToJs(b: map<string, map<string, real>>): JsVal {
    Obj(map m | m in b :: Obj(map c | c in b[m] :: Num(Finite(b[m][c]))))
  }

  /** Non-objects give {}; a month other than `__proto__` survives iff its
      value is a plain object (even when none of its limits survive); every
      surviving limit is finite and positive; every finite positive limit
      survives under its key, except under the key `__proto__`, which never
      appears in the result. */
  lemma SanitizedBudgetsMeaning(obj: JsVal)
    ensures !obj.Obj? ==> SanitizedBudgets(obj) == map[]
    ensures obj.Obj? ==> forall m :: m in SanitizedBudgets(obj) <==>
              m in obj.fields && m != ProtoAccessor && obj.fields[m].Obj?
    ensures ProtoAccessor !in SanitizedBudgets(obj)
    ensures forall m :: m in SanitizedBudgets(obj) ==> ProtoAccessor !in SanitizedBudgets(obj)[m]
    ensures forall m, c :: m in SanitizedBudgets(obj) && c in SanitizedBudgets(obj)[m] ==>
              SanitizedBudgets(obj)[m][c] > 0.0
    ensures obj.Obj? ==> forall m, c ::
              (m in obj.fields && m != ProtoAccessor && obj.fields[m].Obj? && c in obj.fields[m].fields &&
               c != ProtoAccessor && IsPositiveLimit(obj.fields[m].fields[c])) ==>
              c in SanitizedBudgets(obj)[m] && SanitizedBudgets(obj)[m][c] == ToNumber(obj.fields[m].fields[c]).r
  {
  }

  /** What the sanitiser returns passes through it again unchanged, so a
      restored budget map survives the next export and restore. */
  lemma SanitizeBudgetsIdempotent(obj: JsVal)
    ensures SanitizedBudgets(BudgetsToJs(SanitizedBudgets(obj))) == SanitizedBudgets(obj)
  {
    SanitizedBudgetsMeaning(obj);
    BudgetsRoundTrip(SanitizedBudgets(obj));
  }

  /** A budget map of positive limits is read back from its JSON form as it
      was written, as long as it uses no `__proto__` key (which the
      sanitiser never produces). */
  lemma BudgetsRoundTrip(b: map<string, map<string, real>>)
    requires forall m, c :: m in b && c in b[m] ==> b[m][c] > 0.0
    requires ProtoAccessor !in b && forall m :: m in b ==> ProtoAccessor !in b[m]
    ensures SanitizedBudgets(BudgetsToJs(b)) == b
  {
    var j := BudgetsToJs(b);
    forall m | m in b ensures CleanLimits(j.fields[m].fields) == b[m] {
      LimitsRoundTrip(b[m]);
    }
  }

  lemma LimitsRoundTrip(l: map<string, real>)
    requires forall c :: c in l ==> l[c] > 0.0
    requires ProtoAccessor !in l
    ensures CleanLimits(map c | c in l :: Num(Finite(l[c]))) == l
  {
  }

  /** A month or a category keyed `__proto__`, as `JSON.parse` can produce,
      does not survive the sanitiser, so such a budget is lost on restore. */
  lemma ProtoKeysDropped(limit: real)
    requires limit > 0.0
    ensures SanitizedBudgets(Obj(map[ProtoAccessor := Obj(map["Food" := Num(Finite(limit))])])) == map[]
    ensures SanitizedBudgets(Obj(map["2025-01" := Obj(map[ProtoAccessor := Num(Finite(limit))])])) ==
            map["2025-01" := map[]]
  {
    assert CleanLimits(map[ProtoAccessor := Num(Finite(limit))]) == map[];
  }

  // ---------------------------------------------------------------------
  // migrateToV2Data

  /** The v2 data shape, before transactions and budgets are sanitised. */
  datatype MigratedData = MigratedData(
    transactions: seq<JsVal>,
    budgets: map<string, JsVal>,
    currency: string,
    presets: seq<JsVal>,
    theme: Option<string>,
    lastTxType: Option<string>,
    lastTxCategory: Option<string>,
    privacyPreferences: Option<map<string, JsVal>>)

  /** `typeof v === 'string' ? v : null`. */
  function StringOrNull(v: JsVal): (r: Option<string>)
    ensures r.Some? <==> v.Str?
    ensures r.Some? ==> r.value == v.s
  {
    if v.Str? then Some(v.s) else None
  }

  /** Where the data sits: under `data` when that is a plain object (the v1
      and v2 wrappers), else at the top level (the legacy layout). */
  function MigrationSource(parsed: JsVal): JsVal {
    if IsPlainObject(Get(parsed, "data")) then Get(parsed, "data") else parsed
  }

  /** `migrateToV2Data(parsed)`. */
  function MigrateToV2Data(parsed: JsVal): (r: Option<MigratedData>)
    ensures r.Some? <==> Truthy(parsed) && IsTypeofObject(parsed) && IsPlainObject(MigrationSource(parsed))
  {
    if !Truthy(parsed) || !IsTypeofObject(parsed) then None
    else
      var data := MigrationSource(parsed);
      if !IsPlainObject(data) then None
      else
        var pp := Get(data, "privacyPreferences");
        Some(MigratedData(
          if Get(data, "transactions").Arr? then Get(data, "transactions").items else [],
          if IsPlainObject(Get(data, "budgets")) then Get(data, "budgets").fields else map[],
          if Get(data, "currency").Str? then Get(data, "currency").s else "USD",
          if Get(data, "presets").Arr? then Get(data, "presets").items else [],
          StringOrNull(Get(data, "theme")),
          StringOrNull(Get(data, "lastTxType")),
          StringOrNull(Get(data, "lastTxCategory")),
          if IsPlainObject(pp) then Some(pp.fields) else None))
  }

  /** Arrays, null and primitives are not backups; a missing or mistyped
      field takes its default. */
  lemma MigrateDefaults(parsed: JsVal)
    ensures parsed.Arr? || !parsed.Obj? ==> MigrateToV2Data(parsed).None?
    ensures parsed.Obj? ==> MigrateToV2Data(parsed).Some?
    ensures MigrateToV2Data(parsed).Some? ==>
      var data := MigrationSource(parsed);
      var m := MigrateToV2Data(parsed).value;
      data.Obj? &&
      (!Get(data, "transactions").Arr? ==> m.transactions == []) &&
      (!Get(data, "budgets").Obj? ==> m.budgets == map[]) &&
      (!Get(data, "currency").Str? ==> m.currency == "USD") &&
      (!Get(data, "presets").Arr? ==> m.presets == []) &&
      (!Get(data, "theme").Str? ==> m.theme.None?) &&
      (!Get(data, "lastTxType").Str? ==> m.lastTxType.None?) &&
      (!Get(data, "lastTxCategory").Str? ==> m.lastTxCategory.None?) &&
      (!Get(data, "privacyPreferences").Obj? ==> m.privacyPreferences.None?)
  {
  }

  function OptionalString(s: Option<string>): JsVal {
    if s.Some? then Str(s.value) else Null
  }

  /** The v2 `data` object as an export writes it. */
  function DataToJs(m: MigratedData): JsVal {
    Obj(map[
      "transactions" := Arr(m.transactions),
      "budgets" := Obj(m.budgets),
      "currency" := Str(m.currency),
      "presets" := Arr(m.presets),
      "theme" := OptionalString(m.theme),
      "lastTxType" := OptionalString(m.lastTxType),
      "lastTxCategory" := OptionalString(m.lastTxCategory),
      "privacyPreferences" := if m.privacyPreferences.Some? then Obj(m.privacyPreferences.value) else Null])
  }

  /** Migration reads back the data an export wrote, both in the legacy
      layout and wrapped as `{ schemaVersion, exportedAt, data }`. */
  lemma MigrateExported(m: MigratedData, version: JsVal, exportedAt: JsVal)
    ensures MigrateToV2Data(DataToJs(m)) == Some(m)
    ensures MigrateToV2Data(Obj(map["schemaVersion" := version, "exportedAt" := exportedAt,
                                    "data" := DataToJs(m)])) == Some(m)
  {
    var d := DataToJs(m);
    assert Get(d, "data") == Undefined;
  }

  // ---------------------------------------------------------------------
  // parseBackupText

  datatype RestoredData = RestoredData(
    transactions: seq<JsVal>,
    budgets: map<string, map<string, real>>,
    currency: string,
    presets: seq<JsVal>,
    theme: Option<string>,
    lastTxType: Option<string>,
    lastTxCategory: Option<string>,
    privacyPreferences: Option<map<string, JsVal>>)

  datatype RestoreSummary = RestoreSummary(transactionCount: nat, budgetMonths: nat, presetCount: nat)

  datatype BackupResult =
    | Failed(error: string)
    | Parsed(schemaVersion: JsNum, exportedAt: Option<string>, data: RestoredData,
             warnings: seq<string>, summary: RestoreSummary)

  /** `Number(parsed.schemaVersion || 1)`. */
  function SchemaVersion(parsed: JsVal): JsNum {
    var v := Get(parsed, "schemaVersion");
    ToNumber(if Truthy(v) then v else Num(Finite(1.0)))
  }

  function IgnoredWarning(count: int): string {
    IntToString(count) + " invalid transaction(s) were ignored for safety."
  }

  /** `parseBackupText(text)`, given what `JSON.parse(text)` produced. */
  method ParseBackupText(json: Option<JsVal>) returns (r: BackupResult)
    ensures json.None? || !Truthy(json.value) ==> r == Failed("Invalid JSON")
    ensures json.Some? && Truthy(json.value) && MigrateToV2Data(json.value).None? ==>
              r == Failed("Unrecognized backup format")
    ensures json.Some? && Truthy(json.value) && MigrateToV2Data(json.value).Some? ==>
      var m := MigrateToV2Data(json.value).value;
      var dropped := DroppedCount(m.transactions);
      r.Parsed? &&
      r.schemaVersion == SchemaVersion(json.value) &&
      r.exportedAt == StringOrNull(Get(json.value, "exportedAt")) &&
      r.data == RestoredData(NormalizedList(m.transactions), SanitizedBudgets(Obj(m.budgets)), m.currency,
                             m.presets, m.theme, m.lastTxType, m.lastTxCategory, m.privacyPreferences) &&
      (dropped > 0 ==> r.warnings == [IgnoredWarning(dropped)]) &&
      (dropped == 0 ==> r.warnings == []) &&
      r.summary == RestoreSummary(|r.data.transactions|, |r.data.budgets.Keys|, |m.presets|)
  {
    if json.None? || !Truthy(json.value) {
      return Failed("Invalid JSON");
    }
    var parsed := json.value;
    var schemaVersion := SchemaVersion(parsed);
    var exportedAt := StringOrNull(Get(parsed, "exportedAt"));
    var dataV2 := MigrateToV2Data(parsed);
    if dataV2.None? {
      return Failed("Unrecognized backup format");
    }
    var m := dataV2.value;
    var normalizedTx := NormalizeTransactions(Arr(m.transactions));
    var invalidTxCount := |m.transactions| - |normalizedTx|;
    NormalizedListProperties(m.transactions);
    assert invalidTxCount == DroppedCount(m.transactions);
    var budgets := SanitizeBudgets(Obj(m.budgets));
    var warnings: seq<string> := [];
    if invalidTxCount > 0 {
      warnings := warnings + [IgnoredWarning(invalidTxCount)];
    }
    var data := RestoredData(normalizedTx, budgets, m.currency, m.presets, m.theme, m.lastTxType,
                             m.lastTxCategory, m.privacyPreferences);
    r := Parsed(schemaVersion, exportedAt, data, warnings,
                RestoreSummary(|normalizedTx|, |budgets.Keys|, |m.presets|));
  }

  /** `schemaVersion` is 1 when absent or falsy. */
  lemma SchemaVersionDefault(parsed: JsVal)
    ensures !Truthy(Get(parsed, "schemaVersion")) ==> SchemaVersion(parsed) == Finite(1.0)
    ensures Get(parsed, "schemaVersion") == Num(Finite(2.0)) ==> SchemaVersion(parsed) == Finite(2.0)
  {
  }

  /** The restore preview never counts more transactions than the file
      held, and every counted one is canonical. */
  lemma RestoredTransactionsBound(m: MigratedData)
    ensures |NormalizedList(m.transactions)| <= |m.transactions|
    ensures forall j :: 0 <= j < |NormalizedList(m.transactions)| ==>
              IsNormalizedRecord(NormalizedList(m.transactions)[j])
  {
    NormalizedListProperties(m.transactions);
  }
}
