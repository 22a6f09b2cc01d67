/** The transaction entry form: its `YYYY-MM-DD` reader, the calendar steps
    and the generator of recurring dates, the derived totals, the validator,
    the split lines, and the transactions a submit emits. The local time zone
    is UTC here, so the recurring path (local noon) and the single path
    (`new Date('YYYY-MM-DD')`, UTC midnight) differ by exactly twelve hours. */
module TransactionForm {
  import opened JsText
  import opened JsValues
  import opened Calendar
  import opened Ledger

  /** `CATEGORIES`. */
  const Categories: seq<string> := ["Bills", "Credit Card", "Entertainment", "Food", "Housing", "Health",
                                    "Loans", "Transportation", "Utilities", "Shopping", "Income", "Other"]

  /** 12:00:00.000 in milliseconds. */
  const Noon: int := 12 * 3600000

  // ---------------------------------------------------------------------
  // Dates

  /** `todayISO()` for the instant `now`. */
  function TodayIso(now: DateTime): string
    requires Valid(now)
  {
    IntToString(now.year) + ("-" + (PadDigits(now.month + 1, 2) + ("-" + PadDigits(now.day, 2))))
  }

  /** The text `YYYY-MM-DD` of a year, month and day. */
  function DateText(y: nat, mo: nat, da: nat): string {
    PadDigits(y, 4) + ("-" + (PadDigits(mo, 2) + ("-" + PadDigits(da, 2))))
  }

  /** In a four-digit year `todayISO()` is the `YYYY-MM-DD` text of today. */
  lemma TodayIsoText(now: DateTime)
    requires Valid(now) && 1000 <= now.year <= 9999
    ensures TodayIso(now) == DateText(now.year, now.month + 1, now.day)
  {
    FourDigitNatToString(now.year);
  }

  /** `/^(\d{4})-(\d{2})-(\d{2})$/`. */
  predicate IsoDateShape(s: string) {
    |s| == 10 && AllDigits(s[..4]) && s[4] == '-' && AllDigits(s[5..7]) && s[7] == '-' && AllDigits(s[8..])
  }

  /** `parseISODateLocal(iso)`: null for a non-string or a string of another
      shape; otherwise `new Date(y, mo - 1, da, 12, 0, 0, 0)`, which rolls an
      overflowing month or day over, when that is a valid instant. */
  function ParseIsoDateLocal(iso: JsVal): (r: Option<DateTime>)
    ensures r.Some? ==> iso.Str? && IsoDateShape(iso.s)
    ensures r.Some? ==> Valid(r.value) && InTimeRange(r.value) && r.value.ms == Noon
  {
    if !iso.Str? || !IsoDateShape(iso.s) then None
    else
      var s := iso.s;
      match NewDate(DigitsValue(s[..4]), DigitsValue(s[5..7]) - 1, DigitsValue(s[8..]), Noon)
      case InvalidDate => None
      case ValidDate(d) => Some(d)
  }

  /** Where the three fields of a `YYYY-MM-DD` text lie. */
  lemma DateTextFields(y: nat, mo: nat, da: nat)
    requires y < 10000 && mo < 100 && da < 100
    ensures var s := DateText(y, mo, da);
            IsoDateShape(s) && DigitsValue(s[..4]) == y && DigitsValue(s[5..7]) == mo && DigitsValue(s[8..]) == da
  {
    var s := DateText(y, mo, da);
    var a, b, c := PadDigits(y, 4), PadDigits(mo, 2), PadDigits(da, 2);
    assert s[..4] == a;
    assert s[5..7] == b;
    assert s[8..] == c;
    assert Pow10(4) == 10000 && Pow10(2) == 100;
    PadDigitsRoundTrip(y, 4);
    PadDigitsRoundTrip(mo, 2);
    PadDigitsRoundTrip(da, 2);
  }

  /** Noon of a day of a year from 100 on is a valid instant. */
  lemma NoonOf(y: int, m: int, d: int)
    requires 100 <= y <= 9999 && 0 <= m < 12 && 1 <= d <= DaysInMonth(y, m)
    ensures NewDate(y, m, d, Noon) == ValidDate(DateTime(y, m, d, Noon))
  {
    assert MakeDateTime(y, m, d, Noon) == DateTime(y, m, d, Noon);
  }

  /** A well-formed date of a year from 100 on is read as that day at noon. */
  lemma ParseIsoDateLocalOf(y: nat, mo: nat, da: nat)
    requires 100 <= y <= 9999 && 1 <= mo <= 12 && 1 <= da <= DaysInMonth(y, mo - 1)
    ensures ParseIsoDateLocal(Str(DateText(y, mo, da))) == Some(DateTime(y, mo - 1, da, Noon))
  {
    DateTextFields(y, mo, da);
    NoonOf(y, mo - 1, da);
  }

  /** The form's default date reads back as today at noon on the recurring
      path. */
  lemma TodayIsoLocal(now: DateTime)
    requires Valid(now) && 1000 <= now.year <= 9999
    ensures ParseIsoDateLocal(Str(TodayIso(now))) == Some(DateTime(now.year, now.month, now.day, Noon))
  {
    TodayIsoText(now);
    ParseIsoDateLocalOf(now.year, now.month + 1, now.day);
  }

  /** A date-only text is read at 00:00 UTC. */
  lemma DateOnlyForm(s: string, y: int, md: string, mo: nat, d: nat)
    requires ParseYear(s) == Some((y, md)) && ParseMonthDay(md) == Some((mo, d, ""))
    ensures DateFromValue(Str(s)) == FromFields(y, mo, d, TimeFields(0, 0, 0, 0), 0)
  {
  }

  /** Midnight of a day of a four-digit year is a valid instant. */
  lemma MidnightFields(y: int, m: int, d: int)
    requires 1000 <= y <= 9999 && 0 <= m < 12 && 1 <= d <= DaysInMonth(y, m)
    ensures FromFields(y, m + 1, d, TimeFields(0, 0, 0, 0), 0) == ValidDate(DateTime(y, m, d, 0))
  {
    var t := DateTime(y, m, d, 0);
    assert MakeDateTime(y, m, d, 0) == t;
    assert InTimeRange(t);
  }

  /** `Date.parse` reads a date-only `YYYY-MM-DD` text as UTC midnight. */
  lemma DateOnlyUtc(y: int, m: int, d: int)
    requires 1000 <= y <= 9999 && 0 <= m < 12 && 1 <= d <= DaysInMonth(y, m)
    ensures DateFromValue(Str(DateText(y, m + 1, d))) == ValidDate(DateTime(y, m, d, 0))
  {
    MidnightFields(y, m, d);
    DateOnlyParse(y, m, d);
  }

  lemma DateOnlyParse(y: int, m: int, d: int)
    requires 1000 <= y <= 9999 && 0 <= m < 12 && 1 <= d <= DaysInMonth(y, m)
    ensures DateFromValue(Str(DateText(y, m + 1, d))) == FromFields(y, m + 1, d, TimeFields(0, 0, 0, 0), 0)
  {
    var p := PadDigits(d, 2);
    var md := "-" + (PadDigits(m + 1, 2) + ("-" + (p + "")));
    assert p + "" == p;
    assert DateText(y, m + 1, d) == YearString(y) + md;
    ParseYearString(y, md);
    ParseMonthDayFields(m + 1, d, "");
    DateOnlyForm(DateText(y, m + 1, d), y, md, m + 1, d);
  }

  /** On the single path `new Date(date)` reads the same text as today at
      UTC midnight, twelve hours before the recurring path's reading. */
  lemma TodayIsoUtc(now: DateTime)
    requires Valid(now) && 1000 <= now.year <= 9999
    ensures DateFromValue(Str(TodayIso(now))) == ValidDate(DateTime(now.year, now.month, now.day, 0))
  {
    DateOnlyUtc(now.year, now.month, now.day);
    TodayIsoText(now);
    TextValue(TodayIso(now), DateText(now.year, now.month + 1, now.day));
  }

  /** The same text gives the same `Date`. */
  lemma TextValue(s: string, t: string)
    requires s == t
    ensures DateFromValue(Str(s)) == DateFromValue(Str(t))
  {
  }

  /** `addDays(date, days)`: `setDate(getDate() + days)`. */
  function AddDays(d: DateTime, days: int): (r: JsDate)
    requires Valid(d)
    ensures WellFormed(r)
  {
    SetDate(ValidDate(d), d.day + days)
  }

  /** The result lies exactly `days` calendar days away, at the same time of
      day. */
  lemma AddDaysMeaning(d: DateTime, days: int)
    requires Valid(d)
    ensures AddDays(d, days).ValidDate? ==>
              DayNumber(AddDays(d, days).dt) == DayNumber(d) + days && AddDays(d, days).dt.ms == d.ms
  {
    assert MakeDateTime(d.year, d.month, d.day + days, d.ms) == NormalizeDay(d.year, d.month, d.day + days, d.ms);
    NormalizeDayNumber(d.year, d.month, d.day + days, d.ms);
  }

  /** `%` of JavaScript on integers: the remainder takes the sign of the
      dividend. */
  function TruncRem(a: int, b: int): int
    requires b > 0
  {
    if a >= 0 then a % b else -((-a) % b)
  }

  /** JavaScript's `((t % 12) + 12) % 12` is the Euclidean remainder. */
  lemma MonthIndex(t: int)
    ensures TruncRem(TruncRem(t, 12) + 12, 12) == t % 12
  {
  }

  function Min(a: int, b: int): int {
    if a < b then a else b
  }

  /** `new Date(y, m, day, t)` for a day and time inside month m. */
  lemma NewDateInMonth(y: int, m: int, day: int, t: int)
    requires 0 <= m < 12 && 0 <= t < MsPerDay
    requires 1 <= day <= DaysInMonth(ConstructorYear(y), m)
    ensures NewDate(y, m, day, t) == Clip(DateTime(ConstructorYear(y), m, day, t))
  {
  }

  /** `new Date(y, m + 1, 0)` is the last day of month m. */
  lemma LastDayOf(y: int, m: int)
    requires 0 <= m < 12
    ensures MakeDateTime(y, m + 1, 0, 0) == DateTime(y, m, DaysInMonth(y, m), 0)
  {
    var n := NextMonth(y, m);
    if m == 11 {
      assert MakeDateTime(y, 12, 0, 0) == NormalizeDay(y + 1, 0, 0, 0);
    } else {
      assert MakeDateTime(y, m + 1, 0, 0) == NormalizeDay(y, m + 1, 0, 0);
    }
    assert PrevMonth(n.0, n.1) == (y, m);
  }

  lemma NewDateLastDay(y: int, m: int)
    requires 0 <= m < 12
    ensures var cy := ConstructorYear(y);
            NewDate(y, m + 1, 0, 0) == Clip(DateTime(cy, m, DaysInMonth(cy, m), 0))
  {
    LastDayOf(ConstructorYear(y), m);
  }

  /** `addMonthsKeepDay(date, months)`: the month index is (m + k) mod 12,
      the year advances by floor((m + k) / 12) (then read as `new Date` reads
      a year), the day is clamped to the target month's length and the time of
      day is kept. When the last day of the target month is not a valid
      instant, `getDate()` is NaN and so is the result (lemma KeepDayMeaning).
      JavaScript's `((t % 12) + 12) % 12` is the Euclidean `t % 12` (lemma
      MonthIndex). */
  function AddMonthsKeepDay(d: DateTime, months: int): (r: JsDate)
    requires Valid(d)
    ensures WellFormed(r)
  {
    var target := d.month + months;
    KeepDay(d.year + target / 12, target % 12, d.day, d.ms)
  }

  /** `new Date(year, index, Math.min(day, new Date(year, index + 1, 0).getDate()))`
      with the time of day `ms`. */
  function KeepDay(year: int, index: int, day: int, ms: int): (r: JsDate)
    ensures WellFormed(r)
  {
    var last := NewDate(year, index + 1, 0, 0);
    if last.InvalidDate? then InvalidDate
    else NewDate(year, index, Min(day, last.dt.day), ms)
  }

  /** Day `min(day, last day of the month)` of month `m` of year `y` at time
      `ms`, or Invalid Date when the last day of that month is outside the
      time-value range. */
  function InMonth(y: int, m: int, day: int, ms: int): JsDate
    requires 0 <= m < 12 && 1 <= day && 0 <= ms < MsPerDay
  {
    if InTimeRange(DateTime(y, m, DaysInMonth(y, m), 0))
    then Clip(DateTime(y, m, Min(day, DaysInMonth(y, m)), ms))
    else InvalidDate
  }

  /** The constructor calls land on the clamped day of the target month, or
      on Invalid Date when that month's last day is out of range. */
  lemma KeepDayMeaning(year: int, m: int, day: int, ms: int)
    requires 0 <= m < 12 && 1 <= day && 0 <= ms < MsPerDay
    ensures KeepDay(year, m, day, ms) == InMonth(ConstructorYear(year), m, day, ms)
  {
    var y := ConstructorYear(year);
    NewDateLastDay(year, m);
    if InTimeRange(DateTime(y, m, DaysInMonth(y, m), 0)) {
      NewDateInMonth(year, m, Min(day, DaysInMonth(y, m)), ms);
    }
  }

  // ---------------------------------------------------------------------
  // Recurring occurrences

  function Ceil(r: real): int {
    if r.Floor as real == r then r.Floor else r.Floor + 1
  }

  lemma CeilMeaning(r: real)
    ensures Ceil(r) as real >= r && (Ceil(r) - 1) as real < r
  {
  }

  /** `Math.max(1, Math.min(200, Number(count) || 1))`. */
  function ClampedCount(count: JsVal): (r: real)
    ensures 1.0 <= r <= 200.0
  {
    var c := ToNumber(count);
    match (if NumTruthy(c) then c else Finite(1.0))
    case Finite(x) => if x > 200.0 then 200.0 else if x < 1.0 then 1.0 else x
    case PosInf => 200.0
    case _ => 1.0
  }

  /** The number of passes of `for (let i = 0; i < n; i++)`. */
  function OccurrenceCount(count: JsVal): (n: nat)
    ensures 1 <= n <= 200
  {
    Ceil(ClampedCount(count))
  }

  /** A whole count from 1 to 200 is taken as is. */
  lemma OccurrenceCountOf(count: JsVal, k: int)
    requires 1 <= k <= 200 && ToNumber(count) == Finite(k as real)
    ensures OccurrenceCount(count) == k
  {
  }

  /** A count that is 0, NaN or not a number gives one occurrence; larger
      counts than 200 are capped at 200. */
  lemma OccurrenceCountLimits(count: JsVal)
    ensures !NumTruthy(ToNumber(count)) ==> OccurrenceCount(count) == 1
    ensures ToNumber(count) == PosInf || (ToNumber(count).Finite? && ToNumber(count).r >= 200.0) ==>
              OccurrenceCount(count) == 200
  {
  }

  /** `parseISODateLocal(startDateISO) || new Date(startDateISO)`. */
  function BaseDate(startIso: JsVal): (r: JsDate)
    ensures WellFormed(r)
  {
    match ParseIsoDateLocal(startIso)
    case Some(d) => ValidDate(d)
    case None => DateFromValue(startIso)
  }

  /** Date number i of the series, always computed from the start. */
  function OccurrenceAt(base: DateTime, frequency: string, i: nat): (r: JsDate)
    requires Valid(base) && InTimeRange(base)
    ensures WellFormed(r)
  {
    if i == 0 then ValidDate(base)
    else if frequency == "weekly" then AddDays(base, i * 7)
    else if frequency == "biweekly" then AddDays(base, i * 14)
    else if frequency == "monthly" then AddMonthsKeepDay(base, i)
    else ValidDate(base)
  }

  /** The series of dates from `base`, indexed by pass number. */
  function Series(base: DateTime, frequency: string): nat -> JsDate
    requires Valid(base) && InTimeRange(base)
  {
    (i: nat) => OccurrenceAt(base, frequency, i)
  }

  /** `[f(0), ..., f(k - 1)]`, built the way the loop pushes. */
  function Prefix<T>(f: nat -> T, k: nat): (r: seq<T>)
    ensures |r| == k
  {
    if k == 0 then [] else Prefix(f, k - 1) + [f(k - 1)]
  }

  lemma {:induction false} PrefixAt<T>(f: nat -> T, k: nat, j: nat)
    requires j < k
    ensures Prefix(f, k)[j] == f(j)
  {
    if j < k - 1 {
      PrefixAt(f, k - 1, j);
    }
  }

  /** The dates `computeOccurrences` returns. */
  function Occurrences(startIso: JsVal, frequency: string, count: JsVal): seq<JsDate> {
    match BaseDate(startIso)
    case InvalidDate => []
    case ValidDate(b) => Prefix(Series(b, frequency), OccurrenceCount(count))
  }

  /** One pass of the loop of `computeOccurrences`: the date of pass `i`. */
  method OccurrenceStep(base: DateTime, frequency: string, i: nat) returns (d: JsDate)
    requires Valid(base) && InTimeRange(base)
    ensures d == OccurrenceAt(base, frequency, i)
  {
    d := ValidDate(base);
    if i == 0 {
      d := ValidDate(base);
    } else {
      if frequency == "weekly" {
        d := AddDays(base, i * 7);
      }
      if frequency == "biweekly" {
        d := AddDays(base, i * 14);
      }
      if frequency == "monthly" {
        d := AddMonthsKeepDay(base, i);
      }
    }
  }

  /** `computeOccurrences(startDateISO, frequency, count)`. */
  method ComputeOccurrences(startIso: JsVal, frequency: string, count: JsVal) returns (out: seq<JsDate>)
    ensures out == Occurrences(startIso, frequency, count)
  {
    var base := BaseDate(startIso);
    if base.InvalidDate? {
      return [];
    }
    var n := ClampedCount(count);
    out := [];
    var i: nat := 0;
    CeilMeaning(n);
    while (i as real) < n
      invariant i <= Ceil(n)
      invariant out == Prefix(Series(base.dt, frequency), i)
      decreases Ceil(n) - i
    {
      var d := OccurrenceStep(base.dt, frequency, i);
      assert d == Series(base.dt, frequency)(i);
      out := out + [d];
      i := i + 1;
    }
    assert i == Ceil(n) == OccurrenceCount(count);
  }

  /** [] for an invalid start; otherwise the count's number of dates, date
      i being pass i of the series and the first being the start. */
  lemma OccurrencesMeaning(startIso: JsVal, frequency: string, count: JsVal)
    ensures BaseDate(startIso).InvalidDate? <==> Occurrences(startIso, frequency, count) == []
    ensures BaseDate(startIso).ValidDate? ==>
              |Occurrences(startIso, frequency, count)| == OccurrenceCount(count) &&
              Occurrences(startIso, frequency, count)[0] == BaseDate(startIso) &&
              forall i :: 0 <= i < |Occurrences(startIso, frequency, count)| ==>
                Occurrences(startIso, frequency, count)[i] == OccurrenceAt(BaseDate(startIso).dt, frequency, i)
  {
    if BaseDate(startIso).ValidDate? {
      var b := BaseDate(startIso).dt;
      var k := OccurrenceCount(count);
      forall i | 0 <= i < k
        ensures Occurrences(startIso, frequency, count)[i] == OccurrenceAt(b, frequency, i)
      {
        PrefixAt(Series(b, frequency), k, i);
      }
      assert Occurrences(startIso, frequency, count)[0] == OccurrenceAt(b, frequency, 0);
    }
  }

  /** For a frequency other than the three known ones every date is the
      start itself. */
  lemma UnknownFrequencyRepeats(startIso: JsVal, frequency: string, count: JsVal)
    requires frequency != "weekly" && frequency != "biweekly" && frequency != "monthly"
    ensures forall i :: 0 <= i < |Occurrences(startIso, frequency, count)| ==>
              Occurrences(startIso, frequency, count)[i] == BaseDate(startIso)
  {
    OccurrencesMeaning(startIso, frequency, count);
  }

  /** Weekly and biweekly dates lie 7i and 14i days after the start at the
      start's time of day; monthly dates are the start moved by i months. */
  lemma OccurrenceSpacing(base: DateTime, frequency: string, i: nat)
    requires Valid(base) && InTimeRange(base)
    ensures frequency == "weekly" && OccurrenceAt(base, frequency, i).ValidDate? ==>
              DayNumber(OccurrenceAt(base, frequency, i).dt) == DayNumber(base) + 7 * i &&
              OccurrenceAt(base, frequency, i).dt.ms == base.ms
    ensures frequency == "biweekly" && OccurrenceAt(base, frequency, i).ValidDate? ==>
              DayNumber(OccurrenceAt(base, frequency, i).dt) == DayNumber(base) + 14 * i &&
              OccurrenceAt(base, frequency, i).dt.ms == base.ms
    ensures frequency == "monthly" && i > 0 ==> OccurrenceAt(base, frequency, i) == AddMonthsKeepDay(base, i)
  {
    AddDaysMeaning(base, i * 7);
    AddDaysMeaning(base, i * 14);
  }

  // ---------------------------------------------------------------------
  // Amounts

  /** `safeNumber(v)`: `Number(v)` when that is finite, NaN otherwise. */
  function SafeNumber(v: JsVal): (n: JsNum)
    ensures n.Finite? <==> ToNumber(v).Finite?
    ensures n.Finite? ==> n == ToNumber(v)
    ensures !n.Finite? ==> n == NaN
  {
    var n := ToNumber(v);
    if n.Finite? then n else NaN
  }

  /** `Number.isFinite(n) && n > 0`, what an amount must be. */
  predicate Positive(n: JsNum) {
    n.Finite? && n.r > 0.0
  }

  /** `Math.round(x)`: the nearest integer, halves rounded up. */
  function Round(x: real): int {
    (x + 0.5).Floor
  }

  /** `clampCents(n)` in real arithmetic. */
  function ClampCents(x: real): real {
    Round(x * 100.0) as real / 100.0
  }

  /** A whole number of cents. */
  predicate IsCents(x: real) {
    (x * 100.0).Floor as real == x * 100.0
  }

  /** `clampCents` moves a value by at most half a cent, to a whole number of
      cents, and a second application changes nothing. */
  lemma ClampCentsMeaning(x: real)
    ensures x - 0.005 < ClampCents(x) <= x + 0.005
    ensures IsCents(ClampCents(x))
    ensures ClampCents(ClampCents(x)) == ClampCents(x)
  {
    var k := Round(x * 100.0);
    assert ClampCents(x) * 100.0 == k as real;
    assert (k as real + 0.5).Floor == k;
  }

  /** A whole number of cents is left as it is. */
  lemma ClampCentsOfCents(x: real)
    requires IsCents(x)
    ensures ClampCents(x) == x
  {
    var k := (x * 100.0).Floor;
    assert (k as real + 0.5).Floor == k;
  }

  // ---------------------------------------------------------------------
  // Split lines

  /** One row of the split editor; `amount` is the text of its input. */
  datatype SplitLine = SplitLine(id: string, category: string, amount: string)

  /** `parsedSplits[i].parsed`. */
  function Parsed(s: SplitLine): JsNum {
    SafeNumber(Str(s.amount))
  }

  /** What a line adds to `splitsSum`: its parsed amount when finite. */
  function LineValue(s: SplitLine): real {
    var n := Parsed(s);
    if n.Finite? then n.r else 0.0
  }

  /** `splitsSum`. */
  function SplitsSum(lines: seq<SplitLine>): real {
    ClampCents(Sum(lines, LineValue))
  }

  /** A line without a category or without a positive finite amount. */
  predicate InvalidLine(s: SplitLine) {
    s.category == "" || !Positive(Parsed(s))
  }

  /** `splitHasInvalid`. */
  predicate SplitHasInvalid(lines: seq<SplitLine>) {
    exists i :: 0 <= i < |lines| && InvalidLine(lines[i])
  }

  /** `splitMatchesTotal`: a positive amount whose cents equal the cents of
      the lines' sum. */
  predicate SplitMatchesTotal(amount: JsNum, lines: seq<SplitLine>) {
    Positive(amount) && ClampCents(amount.r) == ClampCents(SplitsSum(lines))
  }

  /** When every line holds a whole number of cents and the lines match the
      total, the line amounts add up to the total's cents exactly. */
  lemma SplitCentsAddUp(amount: JsNum, lines: seq<SplitLine>)
    requires SplitMatchesTotal(amount, lines)
    requires forall i :: 0 <= i < |lines| ==> IsCents(LineValue(lines[i]))
    ensures Sum(lines, LineValue) == ClampCents(amount.r)
  {
    CentsSum(lines, LineValue);
    ClampCentsOfCents(Sum(lines, LineValue));
    ClampCentsOfCents(SplitsSum(lines));
  }

  lemma {:induction false} CentsSum<T>(xs: seq<T>, f: T -> real)
    requires forall i :: 0 <= i < |xs| ==> IsCents(f(xs[i]))
    ensures IsCents(Sum(xs, f))
  {
    if xs != [] {
      var init := xs[..|xs| - 1];
      CentsSum(init, f);
      CentsAdd(Sum(init, f), f(xs[|xs| - 1]));
    }
  }

  /** Whole numbers of cents add up to a whole number of cents. */
  lemma CentsAdd(a: real, b: real)
    requires IsCents(a) && IsCents(b)
    ensures IsCents(a + b)
  {
    var ka, kb := (a * 100.0).Floor, (b * 100.0).Floor;
    assert a * 100.0 == ka as real && b * 100.0 == kb as real;
    assert (a + b) * 100.0 == (ka + kb) as real;
    assert ((ka + kb) as real).Floor == ka + kb;
  }

  /** `{ ...s, ...patch }` for a patch of the category or the amount. */
  datatype Patch = Patch(category: Option<string>, amount: Option<string>)

  function Apply(s: SplitLine, patch: Patch): SplitLine {
    SplitLine(s.id,
              if patch.category.Some? then patch.category.value else s.category,
              if patch.amount.Some? then patch.amount.value else s.amount)
  }

  /** `setSplitLine(id, patch)`: only lines with that id are patched, the
      order and the ids are kept. */
  function PatchLines(lines: seq<SplitLine>, id: string, patch: Patch): (r: seq<SplitLine>)
    ensures |r| == |lines|
    ensures forall i :: 0 <= i < |lines| ==> r[i].id == lines[i].id
    ensures forall i :: 0 <= i < |lines| && lines[i].id != id ==> r[i] == lines[i]
    ensures forall i :: 0 <= i < |lines| && lines[i].id == id ==>
              r[i].category == (if patch.category.Some? then patch.category.value else lines[i].category) &&
              r[i].amount == (if patch.amount.Some? then patch.amount.value else lines[i].amount)
  {
    seq(|lines|, i requires 0 <= i < |lines| => if lines[i].id == id then Apply(lines[i], patch) else lines[i])
  }

  /** `removeSplitLine(id)`: `filter(s => s.id !== id)`. */
  function RemoveLine(lines: seq<SplitLine>, id: string): seq<SplitLine> {
    if lines == [] then []
    else (if lines[0].id == id then [] else [lines[0]]) + RemoveLine(lines[1..], id)
  }

  /** Exactly the lines with another id remain, in their order; removing an
      id no line has changes nothing. */
  lemma {:induction false} RemoveLineMeaning(lines: seq<SplitLine>, id: string)
    ensures forall s :: s in RemoveLine(lines, id) <==> s in lines && s.id != id
    ensures |RemoveLine(lines, id)| <= |lines|
    ensures (forall i :: 0 <= i < |lines| ==> lines[i].id != id) ==> RemoveLine(lines, id) == lines
  {
    if lines != [] {
      RemoveLineMeaning(lines[1..], id);
      assert lines == [lines[0]] + lines[1..];
      if forall i :: 0 <= i < |lines| ==> lines[i].id != id {
        assert forall i :: 0 <= i < |lines[1..]| ==> lines[1..][i].id != id by {
          forall i | 0 <= i < |lines[1..]| ensures lines[1..][i].id != id {
            assert lines[1..][i] == lines[i + 1];
          }
        }
      }
    }
  }

  /** The category a new line starts with. */
  function NewLineCategory(txType: string): string {
    if txType == "income" then "Income" else "Other"
  }

  /** `enableSplit(true)`'s update: an empty list gets a line, then a list
      of one line gets a second. */
  function EnsureTwoLines(lines: seq<SplitLine>, txType: string, id1: string, id2: string): (r: seq<SplitLine>)
    ensures |r| >= 2
    ensures |lines| >= 2 ==> r == lines
    ensures r[..|lines|] == lines
    ensures forall i :: |lines| <= i < |r| ==> r[i].category == NewLineCategory(txType) && r[i].amount == ""
  {
    var normalized := if |lines| > 0 then lines else [SplitLine(id1, NewLineCategory(txType), "")];
    if |normalized| >= 2 then normalized
    else normalized + [SplitLine(id2, NewLineCategory(txType), "")]
  }

  // ---------------------------------------------------------------------
  // The type effect

  /** The effect on `[type]`: the category follows the type, and switching
      to income with split mode on moves every line to 'Income'. Both tests
      read the category from before the effect. */
  function TypeEffect(txType: string, category: string, splitEnabled: bool, splits: seq<SplitLine>): (string, seq<SplitLine>) {
    var c1 := if txType == "income" && category != "Income" then "Income" else category;
    var c2 := if txType == "expense" && category == "Income" then "Other" else c1;
    var lines := if txType == "income" && splitEnabled
                 then seq(|splits|, i requires 0 <= i < |splits| => SplitLine(splits[i].id, "Income", splits[i].amount))
                 else splits;
    (c2, lines)
  }

  /** Income forces the 'Income' category (and, in split mode, on every line
      with ids and amounts kept); expense replaces 'Income' by 'Other' and
      keeps any other category; any other type changes nothing. */
  lemma TypeEffectMeaning(txType: string, category: string, splitEnabled: bool, splits: seq<SplitLine>)
    ensures var (c, lines) := TypeEffect(txType, category, splitEnabled, splits);
            (txType == "income" ==> c == "Income") &&
            (txType == "income" && splitEnabled ==>
               |lines| == |splits| &&
               forall i :: 0 <= i < |splits| ==>
                 lines[i].category == "Income" && lines[i].id == splits[i].id && lines[i].amount == splits[i].amount) &&
            (txType == "expense" ==> c != "Income" && (category != "Income" ==> c == category)) &&
            (!(txType == "income" && splitEnabled) ==> lines == splits) &&
            (txType != "income" && txType != "expense" ==> c == category)
  {
  }

  /** `enableRecurring(true)`'s updates of the frequency and the count. */
  function RecurringDefaults(frequency: string, count: JsVal): (r: (string, JsVal))
    ensures r.0 != "" && Positive(ToNumber(r.1))
    ensures frequency != "" ==> r.0 == frequency
    ensures Positive(ToNumber(count)) ==> r.1 == count
  {
    var n := ToNumber(count);
    (if frequency != "" then frequency else "monthly",
     if n.Finite? && n.r > 0.0 then count else Num(Finite(3.0)))
  }

  // ---------------------------------------------------------------------
  // Derived values

  /** The form's fields as `submit` and the memos read them. */
  datatype Entry = Entry(txType: string, category: string, date: string, description: string,
                         amount: string, notes: string, receipt: JsVal,
                         splitEnabled: bool, splits: seq<SplitLine>,
                         recurringEnabled: bool, frequency: string, count: JsVal)

  /** `parsedAmount`. */
  function ParsedAmount(e: Entry): JsNum {
    SafeNumber(Str(e.amount))
  }

  predicate KnownFrequency(f: string) {
    f == "weekly" || f == "biweekly" || f == "monthly"
  }

  /** `occurrences`: the single `new Date(date)` unless recurring with a known
      frequency. */
  function FormOccurrences(e: Entry): (occs: seq<JsDate>)
    ensures forall i :: 0 <= i < |occs| ==> WellFormed(occs[i])
  {
    OccurrencesMeaning(Str(e.date), e.frequency, e.count);
    if e.recurringEnabled && KnownFrequency(e.frequency) then Occurrences(Str(e.date), e.frequency, e.count)
    else [DateFromValue(Str(e.date))]
  }

  /** Transactions per occurrence. */
  function PerOccurrence(e: Entry): nat {
    if e.splitEnabled then |e.splits| else 1
  }

  /** `totalTransactionsToCreate`. */
  function TotalToCreate(e: Entry): nat {
    Product(|FormOccurrences(e)|, PerOccurrence(e))
  }

  function Product(a: nat, b: nat): nat {
    MulNonNegative(a, b);
    a * b
  }

  lemma MulNonNegative(a: nat, b: nat)
    ensures a * b >= 0
  {
  }

  /** `projectedTotalAmount`, over the memos it reads: `parsedAmount`,
      `splitEnabled` and `occurrences.length`. */
  function ProjectedTotalOf(parsed: JsNum, splitEnabled: bool, occurrences: nat): real {
    if !Positive(parsed) then 0.0
    else if !splitEnabled then ClampCents(parsed.r * occurrences as real)
    else ClampCents(parsed.r * occurrences as real)
  }

  function ProjectedTotal(e: Entry): real {
    ProjectedTotalOf(ParsedAmount(e), e.splitEnabled, |FormOccurrences(e)|)
  }

  /** The projected total does not depend on split mode; it is 0 without a
      positive amount and otherwise the amount times the number of
      occurrences, to the nearest cent. */
  lemma ProjectedTotalMeaning(parsed: JsNum, splitEnabled: bool, occurrences: nat)
    ensures ProjectedTotalOf(parsed, !splitEnabled, occurrences) == ProjectedTotalOf(parsed, splitEnabled, occurrences)
    ensures !Positive(parsed) ==> ProjectedTotalOf(parsed, splitEnabled, occurrences) == 0.0
    ensures Positive(parsed) ==>
              var x := parsed.r * occurrences as real;
              var t := ProjectedTotalOf(parsed, splitEnabled, occurrences);
              x - 0.005 < t <= x + 0.005 && IsCents(t)
  {
    if Positive(parsed) {
      ClampCentsMeaning(parsed.r * occurrences as real);
    }
  }

  // ---------------------------------------------------------------------
  // Validation

  /** The checks of `errors`, in the order they push their messages. */
  datatype FormError = BadDate | NoDescription | BadAmount | NoCategory | TooFewLines | BadLine
                     | SplitMismatch | CountTooLow | CountTooHigh | BadFrequency | TooMany

  const AllErrors: seq<FormError> := [BadDate, NoDescription, BadAmount, NoCategory, TooFewLines, BadLine,
                                      SplitMismatch, CountTooLow, CountTooHigh, BadFrequency, TooMany]

  function Rank(err: FormError): (k: nat)
    ensures k < |AllErrors| && AllErrors[k] == err
  {
    match err
    case BadDate => 0
    case NoDescription => 1
    case BadAmount => 2
    case NoCategory => 3
    case TooFewLines => 4
    case BadLine => 5
    case SplitMismatch => 6
    case CountTooLow => 7
    case CountTooHigh => 8
    case BadFrequency => 9
    case TooMany => 10
  }

  /** The text each check pushes. */
  function Message(err: FormError): string {
    match err
    case BadDate => "Choose a valid date."
    case NoDescription => "Enter a description."
    case BadAmount => "Enter a valid amount greater than zero."
    case NoCategory => "Choose a category."
    case TooFewLines => "Add at least two split lines or disable split mode."
    case BadLine => "Each split line needs a category and a valid amount greater than zero."
    case SplitMismatch => "Split amounts must match the total amount exactly."
    case CountTooLow => "Recurring count must be at least 1."
    case CountTooHigh => "Recurring count is capped at 200 for safety."
    case BadFrequency => "Choose a valid recurring frequency."
    case TooMany => "Too many transactions would be created. Reduce recurring count or split lines."
  }

  /** The memos `errors` reads. */
  datatype Memos = Memos(parsedAmount: JsNum, splitHasInvalid: bool, splitMatchesTotal: bool, total: nat)

  function MemosOf(e: Entry): Memos {
    Memos(ParsedAmount(e), SplitHasInvalid(e.splits), SplitMatchesTotal(ParsedAmount(e), e.splits), TotalToCreate(e))
  }

  /** The three conversions `errors` applies to the fields itself:
      `new Date(date)`, `description.trim()` and `Number(recurringCount)`. */
  datatype Readings = Readings(date: JsDate, description: string, count: JsNum)

  function ReadingsOf(e: Entry): Readings {
    Readings(DateFromValue(Str(e.date)), Trim(e.description), ToNumber(e.count))
  }

  /** When each check fires, given the memos and the readings. */
  predicate RaisedWith(e: Entry, m: Memos, r: Readings, err: FormError) {
    match err
    case BadDate => e.date == "" || r.date.InvalidDate?
    case NoDescription => r.description == ""
    case BadAmount => !Positive(m.parsedAmount)
    case NoCategory => !e.splitEnabled && e.category == ""
    case TooFewLines => e.splitEnabled && |e.splits| < 2
    case BadLine => e.splitEnabled && m.splitHasInvalid
    case SplitMismatch => e.splitEnabled && !m.splitMatchesTotal
    case CountTooLow => e.recurringEnabled && (!r.count.Finite? || r.count.r < 1.0)
    case CountTooHigh => e.recurringEnabled && (r.count == PosInf || (r.count.Finite? && r.count.r > 200.0))
    case BadFrequency => e.recurringEnabled && !KnownFrequency(e.frequency)
    case TooMany => m.total > 200
  }

  predicate CanSubmitWith(e: Entry, m: Memos, r: Readings) {
    forall i :: 0 <= i < |AllErrors| ==> !RaisedWith(e, m, r, AllErrors[i])
  }

  /** When each check fires. */
  predicate Raised(e: Entry, err: FormError) {
    RaisedWith(e, MemosOf(e), ReadingsOf(e), err)
  }

  /** `canSubmit`: no check fires. */
  predicate CanSubmit(e: Entry) {
    CanSubmitWith(e, MemosOf(e), ReadingsOf(e))
  }

  /** The check of each error as a predicate on errors. */
  function Fires(e: Entry, m: Memos, r: Readings): FormError -> bool {
    err => RaisedWith(e, m, r, err)
  }

  /** The errors that fire, in the order the checks run: each once, in rank
      order, and none exactly when the form can be submitted. */
  function ErrorList(e: Entry, m: Memos, r: Readings): (list: seq<FormError>)
    ensures forall err :: err in list <==> RaisedWith(e, m, r, err)
    ensures forall i, j :: 0 <= i < j < |list| ==> Rank(list[i]) < Rank(list[j])
    ensures list == [] <==> CanSubmitWith(e, m, r)
  {
    SelectMeaning(AllErrors, Fires(e, m, r));
    SelectRanked(|AllErrors|, Fires(e, m, r));
    assert AllErrors[..|AllErrors|] == AllErrors;
    EveryErrorListed(e, m, r);
    Select(AllErrors, Fires(e, m, r))
  }

  lemma EveryErrorListed(e: Entry, m: Memos, r: Readings)
    ensures forall err :: err in AllErrors
  {
    forall err ensures err in AllErrors {
      assert AllErrors[Rank(err)] == err;
    }
  }

  /** Selecting from the first k errors keeps rank order and ranks below k. */
  lemma {:induction false} SelectRanked(k: nat, p: FormError -> bool)
    requires k <= |AllErrors|
    ensures forall i :: 0 <= i < |Select(AllErrors[..k], p)| ==> Rank(Select(AllErrors[..k], p)[i]) < k
    ensures forall i, j :: 0 <= i < j < |Select(AllErrors[..k], p)| ==>
              Rank(Select(AllErrors[..k], p)[i]) < Rank(Select(AllErrors[..k], p)[j])
  {
    if k > 0 {
      SelectRanked(k - 1, p);
      SelectStep(k - 1, p);
      RankOf(k - 1);
    }
  }

  lemma SelectStep(k: nat, p: FormError -> bool)
    requires k < |AllErrors|
    ensures Select(AllErrors[..k + 1], p) ==
            Select(AllErrors[..k], p) + (if p(AllErrors[k]) then [AllErrors[k]] else [])
  {
    assert AllErrors[..k + 1][..k] == AllErrors[..k];
  }

  lemma RankOf(k: nat)
    requires k < |AllErrors|
    ensures Rank(AllErrors[k]) == k
  {
  }

  /** `errors`, over the memos and readings it reads: the list the checks
      build is `ErrorList`. */
  method Errors(e: Entry, m: Memos, r: Readings) returns (list: seq<FormError>)
    ensures list == ErrorList(e, m, r)
  {
    list := FieldChecks(e, m, r);
    list := SplitChecks(e, m, r, list);
    list := RecurringChecks(e, m, r, list);
    var fires := m.total > 200;
    list := Check(e, m, r, list, TooMany, fires);
    AllChecked(e, m, r, list);
  }

  /** The date, description and amount checks. */
  method FieldChecks(e: Entry, m: Memos, r: Readings) returns (list: seq<FormError>)
    ensures list == Select(AllErrors[..Rank(BadAmount) + 1], Fires(e, m, r))
  {
    list := [];
    assert AllErrors[..Rank(BadDate)] == [];
    var fires := e.date == "" || r.date.InvalidDate?;
    list := Check(e, m, r, list, BadDate, fires);
    fires := r.description == "";
    list := Check(e, m, r, list, NoDescription, fires);
    fires := !m.parsedAmount.Finite? || m.parsedAmount.r <= 0.0;
    list := Check(e, m, r, list, BadAmount, fires);
  }

  /** The category check outside split mode, the line checks inside it. */
  method SplitChecks(e: Entry, m: Memos, r: Readings, list: seq<FormError>) returns (next: seq<FormError>)
    requires list == Select(AllErrors[..Rank(NoCategory)], Fires(e, m, r))
    ensures next == Select(AllErrors[..Rank(SplitMismatch) + 1], Fires(e, m, r))
  {
    next := list;
    if !e.splitEnabled {
      var fires := e.category == "";
      next := Check(e, m, r, next, NoCategory, fires);
      next := Check(e, m, r, next, TooFewLines, false);
      next := Check(e, m, r, next, BadLine, false);
      next := Check(e, m, r, next, SplitMismatch, false);
    } else {
      next := LineChecks(e, m, r, next);
    }
  }

  /** The line checks of split mode. */
  method LineChecks(e: Entry, m: Memos, r: Readings, list: seq<FormError>) returns (next: seq<FormError>)
    requires e.splitEnabled
    requires list == Select(AllErrors[..Rank(NoCategory)], Fires(e, m, r))
    ensures next == Select(AllErrors[..Rank(SplitMismatch) + 1], Fires(e, m, r))
  {
    next := Check(e, m, r, list, NoCategory, false);
    var fires := |e.splits| < 2;
    next := Check(e, m, r, next, TooFewLines, fires);
    fires := m.splitHasInvalid;
    next := Check(e, m, r, next, BadLine, fires);
    fires := !m.splitMatchesTotal;
    next := Check(e, m, r, next, SplitMismatch, fires);
  }

  /** The count and frequency checks of a recurring form. */
  method RecurringChecks(e: Entry, m: Memos, r: Readings, list: seq<FormError>) returns (next: seq<FormError>)
    requires list == Select(AllErrors[..Rank(CountTooLow)], Fires(e, m, r))
    ensures next == Select(AllErrors[..Rank(BadFrequency) + 1], Fires(e, m, r))
  {
    next := list;
    if e.recurringEnabled {
      var n := r.count;
      var fires := !n.Finite? || n.r < 1.0;
      next := Check(e, m, r, next, CountTooLow, fires);
      fires := n == PosInf || (n.Finite? && n.r > 200.0);
      next := Check(e, m, r, next, CountTooHigh, fires);
      fires := !KnownFrequency(e.frequency);
      next := Check(e, m, r, next, BadFrequency, fires);
    } else {
      next := Check(e, m, r, next, CountTooLow, false);
      next := Check(e, m, r, next, CountTooHigh, false);
      next := Check(e, m, r, next, BadFrequency, false);
    }
  }

  lemma AllChecked(e: Entry, m: Memos, r: Readings, list: seq<FormError>)
    requires list == Select(AllErrors[..Rank(TooMany) + 1], Fires(e, m, r))
    ensures list == ErrorList(e, m, r)
  {
    assert AllErrors[..Rank(TooMany) + 1] == AllErrors;
  }

  /** One `if (...) list.push(...)` of `errors`: after the checks ranked
      below `err`, `err` is pushed exactly when its check fires. */
  method Check(e: Entry, m: Memos, r: Readings, list: seq<FormError>, err: FormError, fires: bool)
    returns (next: seq<FormError>)
    requires fires == RaisedWith(e, m, r, err)
    requires list == Select(AllErrors[..Rank(err)], Fires(e, m, r))
    ensures next == Select(AllErrors[..Rank(err) + 1], Fires(e, m, r))
  {
    next := list;
    if fires {
      next := next + [err];
    }
    SelectStep(Rank(err), Fires(e, m, r));
  }

  /** No check fires. */
  lemma NoneFires(e: Entry, m: Memos, r: Readings)
    requires CanSubmitWith(e, m, r)
    ensures forall err :: !RaisedWith(e, m, r, err)
  {
    forall err ensures !RaisedWith(e, m, r, err) {
      assert AllErrors[Rank(err)] == err;
    }
  }

  /** Checks that pass, read back as facts about the form, its memos and its
      readings. */
  lemma PassedChecks(e: Entry, m: Memos, r: Readings)
    requires CanSubmitWith(e, m, r)
    ensures r.date.ValidDate? && r.description != "" && Positive(m.parsedAmount)
    ensures e.splitEnabled ==> |e.splits| >= 2 && !m.splitHasInvalid && m.splitMatchesTotal
    ensures !e.splitEnabled ==> e.category != ""
    ensures e.recurringEnabled ==> (KnownFrequency(e.frequency) && r.count.Finite? && 1.0 <= r.count.r <= 200.0)
    ensures m.total <= 200
  {
    NoneFires(e, m, r);
    assert !RaisedWith(e, m, r, BadDate) && !RaisedWith(e, m, r, NoDescription) && !RaisedWith(e, m, r, BadAmount);
    assert !RaisedWith(e, m, r, NoCategory) && !RaisedWith(e, m, r, TooFewLines) && !RaisedWith(e, m, r, BadLine);
    assert !RaisedWith(e, m, r, SplitMismatch) && !RaisedWith(e, m, r, CountTooLow);
    assert !RaisedWith(e, m, r, CountTooHigh) && !RaisedWith(e, m, r, BadFrequency) && !RaisedWith(e, m, r, TooMany);
  }

  /** A form with a valid date has at least one occurrence. */
  lemma SomeOccurrence(e: Entry)
    requires DateFromValue(Str(e.date)).ValidDate?
    ensures 1 <= |FormOccurrences(e)|
  {
    OccurrencesMeaning(Str(e.date), e.frequency, e.count);
    assert BaseDate(Str(e.date)).ValidDate?;
  }

  /** What a form that can be submitted satisfies: a valid date, a description,
      a positive amount, at least two valid lines matching the total in split
      mode (a category otherwise), a count from 1 to 200 and a known
      frequency when recurring, at least one and at most 200 transactions. */
  lemma CanSubmitMeaning(e: Entry)
    requires CanSubmit(e)
    ensures DateFromValue(Str(e.date)).ValidDate? && Trim(e.description) != "" && Positive(ParsedAmount(e))
    ensures e.splitEnabled ==>
              |e.splits| >= 2 && (forall i :: 0 <= i < |e.splits| ==> !InvalidLine(e.splits[i])) &&
              ClampCents(ParsedAmount(e).r) == ClampCents(SplitsSum(e.splits))
    ensures !e.splitEnabled ==> e.category != ""
    ensures e.recurringEnabled ==>
              (KnownFrequency(e.frequency) && ToNumber(e.count).Finite? && 1.0 <= ToNumber(e.count).r <= 200.0)
    ensures 1 <= |FormOccurrences(e)| && TotalToCreate(e) <= 200
  {
    PassedChecks(e, MemosOf(e), ReadingsOf(e));
    SomeOccurrence(e);
  }

  /** A recurring form that can be submitted with a whole count k creates k
      occurrences. */
  lemma RecurringCount(e: Entry, k: int)
    requires CanSubmit(e) && e.recurringEnabled && ToNumber(e.count) == Finite(k as real)
    ensures |FormOccurrences(e)| == k
  {
    CanSubmitMeaning(e);
    OccurrencesMeaning(Str(e.date), e.frequency, e.count);
    assert BaseDate(Str(e.date)).ValidDate?;
    OccurrenceCountOf(e.count, k);
  }

  // ---------------------------------------------------------------------
  // The records `submit` creates

  /** What `submit` computes once for all its records: the trimmed
      description, the type, `notes.trim() || undefined`, `receiptMeta ||
      undefined` and `groupId || undefined`. */
  datatype Shared = Shared(description: string, txType: string, notes: JsVal, receipt: JsVal, groupId: JsVal)

  /** The shared values of a submission; `groupId` is the id drawn for a
      split submission. */
  function SharedOf(e: Entry, groupId: string): (c: Shared)
    ensures c.groupId == (if e.splitEnabled && groupId != "" then Str(groupId) else Undefined)
    ensures c.notes == Undefined || (c.notes.Str? && c.notes.s != "")
  {
    var notes := Trim(e.notes);
    Shared(Trim(e.description), e.txType,
           if notes != "" then Str(notes) else Undefined,
           if Truthy(e.receipt) then e.receipt else Undefined,
           if e.splitEnabled && groupId != "" then Str(groupId) else Undefined)
  }

  /** The arguments of one `createOne` call besides the date. */
  datatype Line = Line(category: string, amount: real, splitLabel: Option<string>)

  /** `baseAmount`: `clampCents(Number(parsedAmount.toFixed(2)))`, with
      `toFixed(2)` read as rounding to cents. */
  function BaseAmount(e: Entry): real {
    var p := ParsedAmount(e);
    ClampCents(ClampCents(if p.Finite? then p.r else 0.0))
  }

  /** A split line's record line: its category, `clampCents(s.parsed)`, and
      the label `s.category || 'Split'`. */
  function SplitRecordLine(s: SplitLine): Line {
    Line(s.category, LineCents(s), Some(if s.category != "" then s.category else "Split"))
  }

  function LineCents(s: SplitLine): real {
    ClampCents(LineValue(s))
  }

  function SplitRecordLines(splits: seq<SplitLine>): (ls: seq<Line>)
    ensures |ls| == |splits|
  {
    Map(splits, SplitRecordLine)
  }

  /** `xs.map(g)`. */
  function Map<T, U>(xs: seq<T>, g: T -> U): (r: seq<U>)
    ensures |r| == |xs|
    ensures forall i :: 0 <= i < |xs| ==> r[i] == g(xs[i])
  {
    if xs == [] then [] else Map(xs[..|xs| - 1], g) + [g(xs[|xs| - 1])]
  }

  /** Summing over a mapped list sums the composition. */
  lemma {:induction false} SumMap<T, U>(xs: seq<T>, g: T -> U, f: U -> real, h: T -> real)
    requires forall x :: h(x) == f(g(x))
    ensures Sum(Map(xs, g), f) == Sum(xs, h)
  {
    if xs != [] {
      SumMap(xs[..|xs| - 1], g, f, h);
      assert Map(xs, g)[..|xs| - 1] == Map(xs[..|xs| - 1], g);
    }
  }

  /** The record lines of one occurrence: the category and the base amount,
      or one per split line. */
  function Lines(e: Entry): (ls: seq<Line>)
    ensures |ls| == PerOccurrence(e)
  {
    if e.splitEnabled then SplitRecordLines(e.splits) else [Line(e.category, BaseAmount(e), None)]
  }

  function LineAmount(l: Line): real {
    l.amount
  }

  /** One `createOne` call: the id it draws, its date, its line and the
      shared values. */
  datatype Tx = Tx(id: string, date: DateTime, line: Line, shared: Shared)

  /** `splitLabel ? `${desc} (${splitLabel})` : desc`. */
  function Description(t: Tx): string {
    if t.line.splitLabel.Some? && t.line.splitLabel.value != "" then
      t.shared.description + " (" + t.line.splitLabel.value + ")"
    else t.shared.description
  }

  /** The object `createOne` passes to `onAddTransaction`. */
  function TxObject(t: Tx): JsVal
    requires Valid(t.date)
  {
    Obj(map["id" := Str(t.id), "date" := Str(ToIsoString(t.date)), "description" := Str(Description(t)),
            "category" := Str(t.line.category), "type" := Str(t.shared.txType),
            "amount" := Num(Finite(ClampCents(ClampCents(t.line.amount)))),
            "notes" := t.shared.notes, "receipt" := t.shared.receipt, "groupId" := t.shared.groupId])
  }

  /** The object's date reads back as the occurrence it was made for. */
  lemma TxObjectDate(t: Tx)
    requires Valid(t.date) && InTimeRange(t.date)
    ensures DateFromValue(Get(TxObject(t), "date")) == ValidDate(t.date)
  {
    TxObjectFields(t);
    IsoRoundTrip(t.date);
    ReadBack(TxObject(t), ToIsoString(t.date), t.date);
  }

  lemma ReadBack(o: JsVal, s: string, d: DateTime)
    requires Get(o, "date") == Str(s) && ParseDateString(s) == ValidDate(d)
    ensures DateFromValue(Get(o, "date")) == ValidDate(d)
  {
  }

  /** The object's amount is the line's amount rounded to whole cents; its
      other fields are the line's and the submission's. */
  lemma TxObjectFields(t: Tx)
    requires Valid(t.date)
    ensures Get(TxObject(t), "amount") == Num(Finite(ClampCents(t.line.amount))) && IsCents(ClampCents(t.line.amount))
    ensures Get(TxObject(t), "date") == Str(ToIsoString(t.date))
    ensures Get(TxObject(t), "id") == Str(t.id) && Get(TxObject(t), "category") == Str(t.line.category)
    ensures Get(TxObject(t), "type") == Str(t.shared.txType) && Get(TxObject(t), "groupId") == t.shared.groupId
    ensures Get(TxObject(t), "notes") == t.shared.notes && Get(TxObject(t), "receipt") == t.shared.receipt
    ensures Get(TxObject(t), "description") ==
            Str(if t.line.splitLabel.Some? && t.line.splitLabel.value != "" then
                  t.shared.description + " (" + t.line.splitLabel.value + ")" else t.shared.description)
  {
    ClampCentsMeaning(t.line.amount);
  }

  /** The records of the first n lines of one occurrence; the i-th record
      drawn gets id `ids(i)`. */
  function LineRecords(c: Shared, d: DateTime, lines: seq<Line>, n: nat, ids: nat -> string, base: nat): (r: seq<Tx>)
    requires n <= |lines|
    ensures |r| == n
  {
    if n == 0 then [] else LineRecords(c, d, lines, n - 1, ids, base) + [Tx(ids(base + n - 1), d, lines[n - 1], c)]
  }

  /** The index of the first Invalid Date, where `toISOString` throws. */
  function FirstInvalid(occs: seq<JsDate>): (k: nat)
    ensures k <= |occs|
    ensures forall i :: 0 <= i < k ==> occs[i].ValidDate?
    ensures k < |occs| ==> occs[k].InvalidDate?
  {
    if occs == [] || occs[0].InvalidDate? then 0 else 1 + FirstInvalid(occs[1..])
  }

  /** The records of the first k occurrences, line by line. */
  function RecordsOf(c: Shared, occs: seq<JsDate>, k: nat, lines: seq<Line>, ids: nat -> string): seq<Tx>
    requires k <= FirstInvalid(occs)
  {
    if k == 0 then []
    else
      var prev := RecordsOf(c, occs, k - 1, lines, ids);
      prev + LineRecords(c, occs[k - 1].dt, lines, |lines|, ids, |prev|)
  }

  /** The start of row i of rows of width w, counted without multiplying. */
  function Row(i: nat, w: nat): nat {
    if i == 0 then 0 else Row(i - 1, w) + w
  }

  lemma {:induction false} RowIsProduct(i: nat, w: nat)
    ensures Row(i, w) == i * w
  {
    if i > 0 {
      RowIsProduct(i - 1, w);
      assert (i - 1) * w + w == i * w;
    }
  }

  lemma {:induction false} RecordsRows(c: Shared, occs: seq<JsDate>, k: nat, lines: seq<Line>, ids: nat -> string)
    requires k <= FirstInvalid(occs)
    ensures |RecordsOf(c, occs, k, lines, ids)| == Row(k, |lines|)
  {
    if k > 0 {
      RecordsRows(c, occs, k - 1, lines, ids);
    }
  }

  /** k occurrences of |lines| lines make k * |lines| records. */
  lemma RecordsCount(c: Shared, occs: seq<JsDate>, k: nat, lines: seq<Line>, ids: nat -> string)
    requires k <= FirstInvalid(occs)
    ensures |RecordsOf(c, occs, k, lines, ids)| == k * |lines|
  {
    RecordsRows(c, occs, k, lines, ids);
    RowIsProduct(k, |lines|);
  }

  /** One more occurrence appends its line records. */
  lemma RecordsStep(c: Shared, occs: seq<JsDate>, k: nat, lines: seq<Line>, ids: nat -> string)
    requires k < FirstInvalid(occs)
    ensures RecordsOf(c, occs, k + 1, lines, ids) ==
            RecordsOf(c, occs, k, lines, ids) +
            LineRecords(c, occs[k].dt, lines, |lines|, ids, |RecordsOf(c, occs, k, lines, ids)|)
  {
  }

  /** Record number i * |lines| + j is line j of occurrence i, with the id
      drawn in that position. */
  lemma RecordAt(c: Shared, occs: seq<JsDate>, k: nat, lines: seq<Line>, ids: nat -> string, i: nat, j: nat)
    requires k <= FirstInvalid(occs)
    requires i < k && j < |lines|
    ensures i * |lines| + j < |RecordsOf(c, occs, k, lines, ids)|
    ensures RecordsOf(c, occs, k, lines, ids)[i * |lines| + j] == Tx(ids(i * |lines| + j), occs[i].dt, lines[j], c)
  {
    RecordsAsFlat(c, occs, k, lines, ids);
    RowWidths(c, occs, k, lines, ids);
    FlatAt(RowsOf(c, occs, lines, ids), k, |lines|, i, j);
    LineRecordAt(c, occs[i].dt, lines, |lines|, ids, Row(i, |lines|), j);
    RowIsProduct(i, |lines|);
  }

  /** Rows laid end to end. */
  function Flat<T>(rows: nat -> seq<T>, k: nat): seq<T> {
    if k == 0 then [] else Flat(rows, k - 1) + rows(k - 1)
  }

  lemma {:induction false} FlatLength<T>(rows: nat -> seq<T>, k: nat, w: nat)
    requires forall m :: 0 <= m < k ==> |rows(m)| == w
    ensures |Flat(rows, k)| == Row(k, w)
  {
    if k > 0 {
      FlatLength(rows, k - 1, w);
    }
  }

  /** In k rows of width w, position Row(i, w) + j is element j of row i. */
  lemma {:induction false} FlatAt<T>(rows: nat -> seq<T>, k: nat, w: nat, i: nat, j: nat)
    requires forall m :: 0 <= m < k ==> |rows(m)| == w
    requires i < k && j < w
    ensures Row(i, w) + j < |Flat(rows, k)|
    ensures Flat(rows, k)[Row(i, w) + j] == rows(i)[j]
  {
    FlatLength(rows, k - 1, w);
    if i < k - 1 {
      FlatAt(rows, k - 1, w, i, j);
    }
  }

  /** Row m of the records: the lines of occurrence m, ids drawn from m * |lines|. */
  function RowsOf(c: Shared, occs: seq<JsDate>, lines: seq<Line>, ids: nat -> string): nat -> seq<Tx> {
    (m: nat) => if m < |occs| && occs[m].ValidDate? then LineRecords(c, occs[m].dt, lines, |lines|, ids, Row(m, |lines|)) else []
  }

  lemma RowWidths(c: Shared, occs: seq<JsDate>, k: nat, lines: seq<Line>, ids: nat -> string)
    requires k <= FirstInvalid(occs)
    ensures forall m :: 0 <= m < k ==> |RowsOf(c, occs, lines, ids)(m)| == |lines|
  {
  }

  lemma {:induction false} RecordsAsFlat(c: Shared, occs: seq<JsDate>, k: nat, lines: seq<Line>, ids: nat -> string)
    requires k <= FirstInvalid(occs)
    ensures RecordsOf(c, occs, k, lines, ids) == Flat(RowsOf(c, occs, lines, ids), k)
  {
    if k > 0 {
      RecordsAsFlat(c, occs, k - 1, lines, ids);
      RecordsRows(c, occs, k - 1, lines, ids);
    }
  }

  lemma {:induction false} LineRecordAt(c: Shared, d: DateTime, lines: seq<Line>, n: nat, ids: nat -> string, base: nat, j: nat)
    requires n <= |lines| && j < n
    ensures LineRecords(c, d, lines, n, ids, base)[j] == Tx(ids(base + j), d, lines[j], c)
  {
    if j < n - 1 {
      LineRecordAt(c, d, lines, n - 1, ids, base, j);
    }
  }

  /** `occurrences.forEach(...)` with `createOne` inside: the records are
      emitted occurrence by occurrence, line by line, until an Invalid Date
      makes `toISOString` throw. Every form that passes validation has at
      least one line. */
  method Emit(c: Shared, occs: seq<JsDate>, lines: seq<Line>, ids: nat -> string)
    returns (emitted: seq<Tx>, completed: bool)
    requires |lines| > 0
    ensures completed <==> FirstInvalid(occs) == |occs|
    ensures emitted == RecordsOf(c, occs, FirstInvalid(occs), lines, ids)
  {
    emitted := [];
    completed := true;
    var i := 0;
    while i < |occs|
      invariant i <= FirstInvalid(occs)
      invariant completed
      invariant emitted == RecordsOf(c, occs, i, lines, ids)
    {
      if occs[i].InvalidDate? {
        completed := false;
        break;
      }
      assert i < FirstInvalid(occs);
      RecordsStep(c, occs, i, lines, ids);
      var d := occs[i].dt;
      var before := emitted;
      var j := 0;
      while j < |lines|
        invariant j <= |lines|
        invariant emitted == before + LineRecords(c, d, lines, j, ids, |before|)
      {
        emitted := emitted + [Tx(ids(|emitted|), d, lines[j], c)];
        j := j + 1;
      }
      i := i + 1;
    }
    assert i == FirstInvalid(occs);
  }

  /** The records made for the first k occurrences share the submission's
      values, use the given lines, and carry one of those occurrences. */
  lemma {:induction false} RecordsShare(c: Shared, occs: seq<JsDate>, k: nat, lines: seq<Line>, ids: nat -> string)
    requires k <= FirstInvalid(occs)
    ensures forall n :: 0 <= n < |RecordsOf(c, occs, k, lines, ids)| ==>
              RecordsOf(c, occs, k, lines, ids)[n].shared == c && RecordsOf(c, occs, k, lines, ids)[n].line in lines &&
              exists i :: 0 <= i < k && occs[i] == ValidDate(RecordsOf(c, occs, k, lines, ids)[n].date)
  {
    if k > 0 {
      RecordsShare(c, occs, k - 1, lines, ids);
      var prev := RecordsOf(c, occs, k - 1, lines, ids);
      var more := LineRecords(c, occs[k - 1].dt, lines, |lines|, ids, |prev|);
      forall n | 0 <= n < |more|
        ensures more[n].shared == c && more[n].line in lines && more[n].date == occs[k - 1].dt
      {
        LineRecordAt(c, occs[k - 1].dt, lines, |lines|, ids, |prev|, n);
      }
    }
  }

  // ---------------------------------------------------------------------
  // Submitting

  /** `reset`: a fresh date, empty description, amount and notes, no
      receipt; the type, category, split and recurring settings stay. */
  function ResetEntry(e: Entry, today: DateTime): Entry
    requires Valid(today)
  {
    e.(date := TodayIso(today), description := "", amount := "", notes := "", receipt := Null)
  }

  /** What `submit` does with a form: nothing when a check fires; otherwise
      the records of every occurrence up to the first Invalid Date, and
      whether it got through all of them (and so resets the form). */
  function Submission(e: Entry, ids: nat -> string, groupId: string): (r: (seq<Tx>, bool))
    ensures !CanSubmit(e) ==> r == ([], false)
  {
    if !CanSubmit(e) then ([], false)
    else
      var occs := FormOccurrences(e);
      var k := FirstInvalid(occs);
      (RecordsOf(SharedOf(e, groupId), occs, k, Lines(e), ids), k == |occs|)
  }

  /** A completed submission creates exactly `totalTransactionsToCreate`
      records, at most 200. */
  lemma SubmitCount(e: Entry, ids: nat -> string, groupId: string)
    requires CanSubmit(e) && Submission(e, ids, groupId).1
    ensures |Submission(e, ids, groupId).0| == TotalToCreate(e) <= 200
  {
    CanSubmitMeaning(e);
    var occs := FormOccurrences(e);
    RecordsCount(SharedOf(e, groupId), occs, FirstInvalid(occs), Lines(e), ids);
  }

  /** Every record carries the submission's shared values (one group id for
      all the records of a split submission, none otherwise) and the date of
      a valid occurrence, which its object writes in a form that reads back. */
  lemma SubmitShared(e: Entry, ids: nat -> string, groupId: string)
    ensures forall t :: t in Submission(e, ids, groupId).0 ==>
              t.shared == SharedOf(e, groupId) &&
              t.shared.groupId == (if e.splitEnabled && groupId != "" then Str(groupId) else Undefined) &&
              Valid(t.date) && InTimeRange(t.date)
  {
    if CanSubmit(e) {
      var occs := FormOccurrences(e);
      var c := SharedOf(e, groupId);
      RecordsShare(c, occs, FirstInvalid(occs), Lines(e), ids);
      forall t | t in Submission(e, ids, groupId).0
        ensures t.shared == c && Valid(t.date) && InTimeRange(t.date)
      {
        var n :| 0 <= n < |RecordsOf(c, occs, FirstInvalid(occs), Lines(e), ids)| &&
                 RecordsOf(c, occs, FirstInvalid(occs), Lines(e), ids)[n] == t;
        var i :| 0 <= i < FirstInvalid(occs) && occs[i] == ValidDate(t.date);
        assert WellFormed(occs[i]);
      }
    }
  }

  /** A form that is not recurring and passes the checks is always submitted
      in full, with one record per line. */
  lemma NonRecurringCompletes(e: Entry, ids: nat -> string, groupId: string)
    requires CanSubmit(e) && !e.recurringEnabled
    ensures Submission(e, ids, groupId).1
    ensures |Submission(e, ids, groupId).0| == PerOccurrence(e)
  {
    CanSubmitMeaning(e);
    var occs := FormOccurrences(e);
    assert occs == [DateFromValue(Str(e.date))];
    assert FirstInvalid(occs) == 1 by {
      assert FirstInvalid(occs[1..]) == 0;
    }
    SubmitCount(e, ids, groupId);
  }

  /** When every split line holds whole cents, the amounts of one
      occurrence's records add up to the submitted amount. */
  lemma SplitRecordsAddUp(e: Entry)
    requires CanSubmit(e) && e.splitEnabled
    requires forall i :: 0 <= i < |e.splits| ==> IsCents(LineValue(e.splits[i]))
    ensures Sum(Lines(e), LineAmount) == BaseAmount(e)
  {
    CanSubmitMeaning(e);
    var p := ParsedAmount(e);
    SumMap(e.splits, SplitRecordLine, LineAmount, LineCents);
    forall x | x in e.splits ensures LineCents(x) == LineValue(x) {
      ClampCentsOfCents(LineValue(x));
    }
    SumCongruent(e.splits, LineCents, LineValue);
    SplitCentsAddUp(p, e.splits);
    ClampCentsMeaning(p.r);
  }

  // ---------------------------------------------------------------------
  // The component's state

  /** The state of `TransactionForm`: one field per `useState`. */
  class Form {
    var txType: string
    var category: string
    var date: string
    var description: string
    var amount: string
    var notes: string
    var receipt: JsVal
    var splitEnabled: bool
    var splits: seq<SplitLine>
    var recurringEnabled: bool
    var frequency: string
    var count: JsVal
    var touched: bool

    /** The fields the memos and `submit` read. */
    function Snapshot(): Entry
      reads this
    {
      Entry(txType, category, date, description, amount, notes, receipt,
            splitEnabled, splits, recurringEnabled, frequency, count)
    }

    /** The first render: the saved type (or 'expense'), the saved category
        (or the type's default), today's date, one empty 'Other' line, a
        monthly series of 3 switched off; then the effect on `[type]` runs
        once. */
    constructor(savedType: Option<string>, savedCategory: Option<string>, today: DateTime, lineId: string)
      requires Valid(today)
      ensures txType == (if savedType.Some? && savedType.value != "" then savedType.value else "expense")
      ensures var initial := if savedCategory.Some? && savedCategory.value != "" then savedCategory.value
                             else NewLineCategory(txType);
              category == TypeEffect(txType, initial, false, [SplitLine(lineId, "Other", "")]).0
      ensures date == TodayIso(today) && description == "" && amount == "" && notes == "" && receipt == Null
      ensures !splitEnabled && splits == [SplitLine(lineId, "Other", "")]
      ensures !recurringEnabled && frequency == "monthly" && count == Num(Finite(3.0)) && !touched
    {
      var t := if savedType.Some? && savedType.value != "" then savedType.value else "expense";
      var initial := if savedCategory.Some? && savedCategory.value != "" then savedCategory.value
                     else NewLineCategory(t);
      var lines := [SplitLine(lineId, "Other", "")];
      var (c, ls) := TypeEffect(t, initial, false, lines);
      txType := t;
      category := c;
      date := TodayIso(today);
      description := "";
      amount := "";
      notes := "";
      receipt := Null;
      splitEnabled := false;
      splits := ls;
      recurringEnabled := false;
      frequency := "monthly";
      count := Num(Finite(3.0));
      touched := false;
    }

    /** `setType(next)`, and the effect on `[type]` when the type changes. */
    method SetType(next: string)
      modifies this
      ensures txType == next
      ensures next != old(txType) ==>
                (category, splits) == TypeEffect(next, old(category), old(splitEnabled), old(splits))
      ensures next == old(txType) ==> category == old(category) && splits == old(splits)
      ensures date == old(date) && description == old(description) && amount == old(amount)
      ensures notes == old(notes) && receipt == old(receipt) && touched == old(touched)
      ensures splitEnabled == old(splitEnabled) && recurringEnabled == old(recurringEnabled)
      ensures frequency == old(frequency) && count == old(count)
    {
      if next != txType {
        var (c, ls) := TypeEffect(next, category, splitEnabled, splits);
        category := c;
        splits := ls;
      }
      txType := next;
    }

    /** `addSplitLine`: a new empty line with the type's default category. */
    method AddSplitLine(newId: string)
      modifies this
      ensures splits == old(splits) + [SplitLine(newId, NewLineCategory(txType), "")]
      ensures Snapshot() == old(Snapshot()).(splits := splits) && touched == old(touched)
    {
      splits := splits + [SplitLine(newId, NewLineCategory(txType), "")];
    }

    /** `removeSplitLine(id)`. */
    method RemoveSplitLine(id: string)
      modifies this
      ensures splits == RemoveLine(old(splits), id)
      ensures Snapshot() == old(Snapshot()).(splits := splits) && touched == old(touched)
    {
      splits := RemoveLine(splits, id);
    }

    /** `setSplitLine(id, patch)`. */
    method SetSplitLine(id: string, patch: Patch)
      modifies this
      ensures splits == PatchLines(old(splits), id, patch)
      ensures Snapshot() == old(Snapshot()).(splits := splits) && touched == old(touched)
    {
      splits := PatchLines(splits, id, patch);
    }

    /** `enableSplit(next)`: switching on makes sure there are two lines,
        `id1` and `id2` being the ids a new line would get. */
    method EnableSplit(next: bool, id1: string, id2: string)
      modifies this
      ensures splitEnabled == next
      ensures splits == if next then EnsureTwoLines(old(splits), txType, id1, id2) else old(splits)
      ensures Snapshot() == old(Snapshot()).(splitEnabled := next, splits := splits) && touched == old(touched)
    {
      splitEnabled := next;
      if next {
        splits := EnsureTwoLines(splits, txType, id1, id2);
      }
    }

    /** `enableRecurring(next)`: switching on fills in a missing frequency
        and replaces a count that is not a positive number. */
    method EnableRecurring(next: bool)
      modifies this
      ensures recurringEnabled == next
      ensures next ==> (frequency, count) == RecurringDefaults(old(frequency), old(count))
      ensures !next ==> frequency == old(frequency) && count == old(count)
      ensures Snapshot() == old(Snapshot()).(recurringEnabled := next, frequency := frequency, count := count)
      ensures touched == old(touched)
    {
      recurringEnabled := next;
      if next {
        var (f, c) := RecurringDefaults(frequency, count);
        frequency := f;
        count := c;
      }
    }

    /** `reset`. */
    method Reset(today: DateTime)
      requires Valid(today)
      modifies this
      ensures Snapshot() == ResetEntry(old(Snapshot()), today) && !touched
    {
      var iso := TodayIso(today);
      assert Snapshot().(date := iso, description := "", amount := "", notes := "", receipt := Null) ==
             ResetEntry(Snapshot(), today);
      date := iso;
      description := "";
      amount := "";
      notes := "";
      receipt := Null;
      touched := false;
    }

    /** `submit`: marks the form touched; when no check fires, emits the
        records of `Submission` in order and resets the form if every
        occurrence had a valid date. `ids(n)` is the id the n-th record
        draws, `groupId` the id drawn for a split submission. */
    method Submit(ids: nat -> string, groupId: string, today: DateTime) returns (emitted: seq<Tx>)
      requires Valid(today)
      modifies this
      ensures emitted == Submission(old(Snapshot()), ids, groupId).0
      ensures Submission(old(Snapshot()), ids, groupId).1 ==> Snapshot() == ResetEntry(old(Snapshot()), today) && !touched
      ensures !Submission(old(Snapshot()), ids, groupId).1 ==> Snapshot() == old(Snapshot()) && touched
    {
      touched := true;
      var e := Snapshot();
      var m := MemosOf(e);
      var r := ReadingsOf(e);
      var list := Errors(e, m, r);
      if list != [] {
        emitted := [];
        return;
      }
      PassedChecks(e, m, r);
      var occs := FormOccurrences(e);
      var completed;
      emitted, completed := Emit(SharedOf(e, groupId), occs, Lines(e), ids);
      if completed {
        Reset(today);
      }
    }
  }
}
