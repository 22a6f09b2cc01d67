/** The JavaScript `Date` behaviour the dashboard depends on, over calendar
    fields rather than millisecond counts. The local time zone is taken to be
    UTC, so local and UTC getters agree. A date is a year, a month index
    0..11, a day of the month and the milliseconds into that day; out-of-range
    fields given to the constructor or to a setter roll over into the
    neighbouring months exactly as `MakeDay`/`MakeDate` do. */
module Calendar {
  import opened JsText
  import opened JsValues

  const MsPerDay: int := 86400000

  datatype DateTime = DateTime(year: int, month: int, day: int, ms: int)

  /** A `Date` object: an instant, or Invalid Date (time value NaN). */
  datatype JsDate = InvalidDate | ValidDate(dt: DateTime)

  predicate IsLeapYear(y: int) {
    y % 4 == 0 && (y % 100 != 0 || y % 400 == 0)
  }

  /** Days in month `m` (0 = January) of the proleptic Gregorian year `y`. */
  function DaysInMonth(y: int, m: int): (n: int)
    requires 0 <= m < 12
    ensures 28 <= n <= 31
    ensures n == 29 <==> m == 1 && IsLeapYear(y)
  {
    if m == 1 then (if IsLeapYear(y) then 29 else 28)
    else if m == 3 || m == 5 || m == 8 || m == 10 then 30
    else 31
  }

  predicate Valid(d: DateTime) {
    0 <= d.month < 12 && 1 <= d.day <= DaysInMonth(d.year, d.month) && 0 <= d.ms < MsPerDay
  }

  /** Chronological order of instants (the order of their time values). */
  predicate Lt(a: DateTime, b: DateTime) {
    a.year < b.year ||
    (a.year == b.year && (a.month < b.month ||
    (a.month == b.month && (a.day < b.day ||
    (a.day == b.day && a.ms < b.ms)))))
  }

  predicate Le(a: DateTime, b: DateTime) {
    Lt(a, b) || a == b
  }

  lemma LtTrichotomy(a: DateTime, b: DateTime)
    ensures Lt(a, b) || a == b || Lt(b, a)
    ensures !(Lt(a, b) && Lt(b, a))
  {
  }

  lemma LeTrans(a: DateTime, b: DateTime, c: DateTime)
    requires Le(a, b) && Le(b, c)
    ensures Le(a, c)
  {
  }

  /** The earliest and latest instants a `Date` can hold: 10^8 days either
      side of 1970-01-01T00:00:00Z. */
  const MinInstant := DateTime(-271821, 3, 20, 0)
  const MaxInstant := DateTime(275760, 8, 13, 0)

  predicate InTimeRange(d: DateTime) {
    Le(MinInstant, d) && Le(d, MaxInstant)
  }

  /** Every `Date` the model produces is Invalid Date or a valid instant
      within the time-value range. */
  predicate WellFormed(jd: JsDate) {
    jd.ValidDate? ==> Valid(jd.dt) && InTimeRange(jd.dt)
  }

  /** TimeClip on an instant: out-of-range instants become Invalid Date. */
  function Clip(d: DateTime): (jd: JsDate)
    requires Valid(d)
    ensures WellFormed(jd)
    ensures jd.ValidDate? <==> InTimeRange(d)
    ensures jd.ValidDate? ==> jd.dt == d
  {
    if InTimeRange(d) then ValidDate(d) else InvalidDate
  }

  // ---------------------------------------------------------------------
  // Normalisation of overflowing fields

  function PrevMonth(y: int, m: int): (r: (int, int))
    requires 0 <= m < 12
    ensures 0 <= r.1 < 12
  {
    if m == 0 then (y - 1, 11) else (y, m - 1)
  }

  function NextMonth(y: int, m: int): (r: (int, int))
    requires 0 <= m < 12
    ensures 0 <= r.1 < 12
  {
    if m == 11 then (y + 1, 0) else (y, m + 1)
  }

  /** Day `d` of month `m` of year `y`, where `d` may lie before the first or
      after the last day of that month: the surplus moves the date into the
      preceding or following months. */
  function NormalizeDay(y: int, m: int, d: int, ms: int): (r: DateTime)
    requires 0 <= m < 12 && 0 <= ms < MsPerDay
    ensures Valid(r) && r.ms == ms
    ensures 1 <= d <= DaysInMonth(y, m) ==> r == DateTime(y, m, d, ms)
    decreases if d < 1 then 1 else 0, if d < 1 then -d else d
  {
    if d < 1 then
      var p := PrevMonth(y, m);
      NormalizeDay(p.0, p.1, d + DaysInMonth(p.0, p.1), ms)
    else if d > DaysInMonth(y, m) then
      var n := NextMonth(y, m);
      NormalizeDay(n.0, n.1, d - DaysInMonth(y, m), ms)
    else DateTime(y, m, d, ms)
  }

  /** MakeDate(MakeDay(y, mo, d), t) for integral arguments: `mo` may be any
      month count and `t` any number of milliseconds, negative included. */
  function MakeDateTime(y: int, mo: int, d: int, t: int): (r: DateTime)
    ensures Valid(r)
    ensures 0 <= mo < 12 && 1 <= d <= DaysInMonth(y, mo) && 0 <= t < MsPerDay ==>
              r == DateTime(y, mo, d, t)
  {
    NormalizeDay(y + mo / 12, mo % 12, d + t / MsPerDay, t % MsPerDay)
  }

  /** `new Date(y, mo, d, h, mi, s, ms)` with `t` = the time of day in
      milliseconds; a year 0..99 means 1900..1999. */
  function NewDate(y: int, mo: int, d: int, t: int): (jd: JsDate)
    ensures WellFormed(jd)
  {
    Clip(MakeDateTime(ConstructorYear(y), mo, d, t))
  }

  /** The year `new Date(y, ...)` uses: 0..99 mean 1900..1999. */
  function ConstructorYear(y: int): int {
    if 0 <= y <= 99 then 1900 + y else y
  }

  /** `date.setDate(day)`. */
  function SetDate(jd: JsDate, day: int): (r: JsDate)
    ensures WellFormed(r)
    ensures jd.InvalidDate? ==> r.InvalidDate?
  {
    match jd
    case InvalidDate => InvalidDate
    case ValidDate(d) => Clip(MakeDateTime(d.year, d.month, day, d.ms))
  }

  /** `date.setMonth(month)`: the day of the month is kept, so the 29th-31st
      roll into the following month when the target month is shorter. */
  function SetMonth(jd: JsDate, month: int): (r: JsDate)
    ensures WellFormed(r)
    ensures jd.InvalidDate? ==> r.InvalidDate?
  {
    match jd
    case InvalidDate => InvalidDate
    case ValidDate(d) => Clip(MakeDateTime(d.year, month, d.day, d.ms))
  }

  /** `date.setFullYear(year)`; an Invalid Date is first reset to the epoch. */
  function SetFullYear(jd: JsDate, year: int): (r: JsDate)
    ensures WellFormed(r)
  {
    match jd
    case InvalidDate => Clip(MakeDateTime(year, 0, 1, 0))
    case ValidDate(d) => Clip(MakeDateTime(year, d.month, d.day, d.ms))
  }

  /** `date.setHours(0, 0, 0, 0)`. */
  function StartOfDay(jd: JsDate): (r: JsDate)
    ensures WellFormed(r)
  {
    match jd
    case InvalidDate => InvalidDate
    case ValidDate(d) => Clip(MakeDateTime(d.year, d.month, d.day, 0))
  }

  /** `date.setMilliseconds(v)`: hours, minutes and seconds are kept. */
  function SetMilliseconds(jd: JsDate, v: int): (r: JsDate)
    ensures WellFormed(r)
  {
    match jd
    case InvalidDate => InvalidDate
    case ValidDate(d) => Clip(MakeDateTime(d.year, d.month, d.day, d.ms - d.ms % 1000 + v))
  }

  /** `a >= b` and `a <= b` on two `Date` objects compare time values; any
      comparison with an Invalid Date is false. */
  predicate DateLe(a: JsDate, b: JsDate) {
    a.ValidDate? && b.ValidDate? && Le(a.dt, b.dt)
  }

  // ---------------------------------------------------------------------
  // new Date(value)

  /** The instant `tv` milliseconds after 1970-01-01T00:00:00Z. */
  function FromTimeValue(tv: int): (r: DateTime)
    ensures Valid(r)
  {
    NormalizeDay(1970, 0, 1 + tv / MsPerDay, tv % MsPerDay)
  }

  const MaxTimeValue: real := 8640000000000000.0

  /** TimeClip of a finite number: integral part, then the range check. */
  function TimeClip(r: real): (jd: JsDate)
    ensures WellFormed(jd)
  {
    if -MaxTimeValue <= r <= MaxTimeValue then
      Clip(FromTimeValue(if r >= 0.0 then r.Floor else -((-r).Floor)))
    else InvalidDate
  }

  /** `new Date(v)` for a value read from JSON: strings are parsed, numbers
      are time values, `null` is 0 and booleans are 0 or 1; arrays and
      objects are converted to strings first. */
  function DateFromValue(v: JsVal): (jd: JsDate)
    ensures WellFormed(jd)
  {
    match v
    case Undefined => InvalidDate
    case Null => TimeClip(0.0)
    case Bool(b) => TimeClip(if b then 1.0 else 0.0)
    case Num(n) => if n.Finite? then TimeClip(n.r) else InvalidDate
    case Str(s) => ParseDateString(s)
    case Arr(_) => ParseDateString(ToStr(v))
    case Obj(_) => ParseDateString(ToStr(v))
  }

  // ---------------------------------------------------------------------
  // toISOString

  function Hours(t: int): int { t / 3600000 }
  function Minutes(t: int): int { t / 60000 % 60 }
  function Seconds(t: int): int { t / 1000 % 60 }
  function Millis(t: int): int { t % 1000 }

  /** Four digits for years 0..9999, a sign and six digits otherwise. */
  function YearString(y: int): string {
    if 0 <= y <= 9999 then PadDigits(y, 4)
    else (if y < 0 then "-" else "+") + PadDigits(if y < 0 then -y else y, 6)
  }

  datatype TimeFields = TimeFields(hour: nat, minute: nat, second: nat, milli: nat)

  /** The clock fields of a time of day. */
  function SplitTime(t: int): (f: TimeFields)
    requires 0 <= t < MsPerDay
    ensures f.hour <= 23 && f.minute <= 59 && f.second <= 59 && f.milli <= 999
    ensures TimeOfDay(f) == t
  {
    var f := TimeFields(Hours(t), Minutes(t), Seconds(t), Millis(t));
    assert t / 1000 == (t / 60000) * 60 + Seconds(t);
    assert t / 60000 == Hours(t) * 60 + Minutes(t);
    f
  }

  /** HH:mm:ss.sss. */
  function FormatTime(f: TimeFields): string {
    PadDigits(f.hour, 2) + (":" + (PadDigits(f.minute, 2) + (":" +
    (PadDigits(f.second, 2) + ("." + PadDigits(f.milli, 3))))))
  }

  /** `date.toISOString()`: YYYY-MM-DDTHH:mm:ss.sssZ (with an expanded year
      outside 0..9999). */
  function ToIsoString(d: DateTime): string
    requires Valid(d)
  {
    IsoText(d.year, d.month + 1, d.day, SplitTime(d.ms))
  }

  // ---------------------------------------------------------------------
  // Date.parse, for the ECMAScript Date Time String Format

  /** Exactly `w` decimal digits at the front of `s`, and what follows. */
  function Digits(s: string, w: nat): Option<(nat, string)> {
    if |s| >= w && AllDigits(s[..w]) then Some((DigitsValue(s[..w]), s[w..])) else None
  }

  /** YYYY, or a sign and YYYYYY (minus zero is not a year). */
  function ParseYear(s: string): Option<(int, string)> {
    if |s| > 0 && (s[0] == '+' || s[0] == '-') then
      match Digits(s[1..], 6)
      case None => None
      case Some((v, rest)) =>
        if s[0] == '-' && v == 0 then None
        else
          var y: int := if s[0] == '-' then -(v as int) else v as int;
          Some((y, rest))
    else
      match Digits(s, 4)
      case None => None
      case Some((v, rest)) => Some((v, rest))
  }

  /** [-MM[-DD]], the month and day counted from 1 and defaulting to 1. */
  function ParseMonthDay(s: string): Option<(nat, nat, string)> {
    if |s| > 0 && s[0] == '-' then
      match Digits(s[1..], 2)
      case None => None
      case Some((mo, r)) =>
        if |r| > 0 && r[0] == '-' then
          match Digits(r[1..], 2)
          case None => None
          case Some((d, r2)) => Some((mo, d, r2))
        else Some((mo, 1, r))
    else Some((1, 1, s))
  }

  /** HH:mm[:ss[.sss]], after the `T`. */
  function ParseTime(s: string): Option<(TimeFields, string)> {
    match Digits(s, 2)
    case None => None
    case Some((h, r1)) =>
      if !(|r1| > 0 && r1[0] == ':') then None
      else
        match Digits(r1[1..], 2)
        case None => None
        case Some((mi, r2)) =>
          if |r2| > 0 && r2[0] == ':' then
            match Digits(r2[1..], 2)
            case None => None
            case Some((sec, r3)) =>
              if |r3| > 0 && r3[0] == '.' then
                match Digits(r3[1..], 3)
                case None => None
                case Some((ms, r4)) => Some((TimeFields(h, mi, sec, ms), r4))
              else Some((TimeFields(h, mi, sec, 0), r3))
          else Some((TimeFields(h, mi, 0, 0), r2))
  }

  /** The offset ending a date-time form, in minutes east of UTC: `Z`,
      `+HH:mm` or `-HH:mm`. No offset means local time, which is UTC here. */
  function ParseOffset(s: string): Option<int> {
    if s == "" || s == "Z" then Some(0)
    else if |s| == 6 && (s[0] == '+' || s[0] == '-') && s[3] == ':' &&
            AllDigits(s[1..3]) && AllDigits(s[4..6]) then
      var hh := DigitsValue(s[1..3]);
      var mm := DigitsValue(s[4..6]);
      if hh <= 23 && mm <= 59 then Some((if s[0] == '-' then -1 else 1) * (hh * 60 + mm)) else None
    else None
  }

  function TimeOfDay(t: TimeFields): int {
    ((t.hour * 60 + t.minute) * 60 + t.second) * 1000 + t.milli
  }

  /** Range checks on the fields read, then the instant they name. 24:00 is
      allowed only as 24:00:00.000 (the start of the next day). */
  function FromFields(y: int, mo: nat, d: nat, t: TimeFields, offset: int): (jd: JsDate)
    ensures WellFormed(jd)
  {
    if 1 <= mo <= 12 && 1 <= d <= DaysInMonth(y, mo - 1) &&
       t.hour <= 24 && t.minute <= 59 && t.second <= 59 &&
       (t.hour == 24 ==> t.minute == 0 && t.second == 0 && t.milli == 0)
    then Clip(MakeDateTime(y, mo - 1, d, TimeOfDay(t) - offset * 60000))
    else InvalidDate
  }

  /** `Date.parse(s)` for the date-only forms (read as UTC) and the date-time
      forms of the ECMAScript Date Time String Format; every other string is
      Invalid Date. */
  function ParseDateString(s: string): (jd: JsDate)
    ensures WellFormed(jd)
  {
    match ParseYear(s)
    case None => InvalidDate
    case Some((y, r1)) =>
      match ParseMonthDay(r1)
      case None => InvalidDate
      case Some((mo, d, r2)) =>
        if r2 == "" then FromFields(y, mo, d, TimeFields(0, 0, 0, 0), 0)
        else if r2[0] == 'T' then
          match ParseTime(r2[1..])
          case None => InvalidDate
          case Some((t, r3)) =>
            match ParseOffset(r3)
            case None => InvalidDate
            case Some(off) => FromFields(y, mo, d, t, off)
        else InvalidDate
  }

  // ---------------------------------------------------------------------
  // Round trip of toISOString through Date.parse

  lemma DigitsOfPad(n: nat, w: nat, rest: string)
    requires n < Pow10(w)
    ensures Digits(PadDigits(n, w) + rest, w) == Some((n, rest))
  {
    var s := PadDigits(n, w) + rest;
    assert s[..w] == PadDigits(n, w);
    assert s[w..] == rest;
    PadDigitsRoundTrip(n, w);
  }

  lemma ParseYearString(y: int, rest: string)
    requires -1000000 < y < 1000000
    ensures ParseYear(YearString(y) + rest) == Some((y, rest))
  {
    if 0 <= y <= 9999 {
      ParseShortYear(y, rest);
    } else {
      ParseLongYear(y, rest);
    }
  }

  lemma ParseShortYear(y: nat, rest: string)
    requires y <= 9999
    ensures ParseYear(PadDigits(y, 4) + rest) == Some((y, rest))
  {
    assert Pow10(4) == 10000;
    var p := PadDigits(y, 4);
    assert (p + rest)[0] == p[0] && IsDigit(p[0]);
    DigitsOfPad(y, 4, rest);
  }

  lemma ParseLongYear(y: int, rest: string)
    requires -1000000 < y < 1000000 && !(0 <= y <= 9999)
    ensures ParseYear(YearString(y) + rest) == Some((y, rest))
  {
    assert Pow10(6) == 1000000;
    var a := if y < 0 then -y else y;
    var sign := if y < 0 then "-" else "+";
    var tail := PadDigits(a, 6) + rest;
    var s := sign + tail;
    assert YearString(y) + rest == s;
    assert s[1..] == tail;
    DigitsOfPad(a, 6, rest);
    ParseSignedYear(s, a, rest);
  }

  /** How a signed six-digit year is read. */
  lemma ParseSignedYear(s: string, v: nat, rest: string)
    requires |s| > 0 && (s[0] == '+' || s[0] == '-') && Digits(s[1..], 6) == Some((v, rest))
    requires s[0] == '-' ==> v != 0
    ensures ParseYear(s) == Some((if s[0] == '-' then -(v as int) else v as int, rest))
  {
  }

  lemma ParseTimeFields(f: TimeFields, rest: string)
    requires f.hour <= 99 && f.minute <= 99 && f.second <= 99 && f.milli <= 999
    ensures ParseTime(FormatTime(f) + rest) == Some((f, rest))
  {
    assert Pow10(2) == 100 && Pow10(3) == 1000;
    var p3 := PadDigits(f.milli, 3) + rest;
    var p2 := PadDigits(f.second, 2) + ("." + p3);
    var p1 := PadDigits(f.minute, 2) + (":" + p2);
    var s := PadDigits(f.hour, 2) + (":" + p1);
    FormatTimeThen(f, rest);
    FieldThenSep(f.hour, 2, ':', p1);
    FieldThenSep(f.minute, 2, ':', p2);
    FieldThenSep(f.second, 2, '.', p3);
    DigitsOfPad(f.milli, 3, rest);
    ParseTimeForm(s, f.hour, ":" + p1, f.minute, ":" + p2, f.second, "." + p3, f.milli, rest);
  }

  lemma FormatTimeThen(f: TimeFields, rest: string)
    ensures FormatTime(f) + rest ==
            PadDigits(f.hour, 2) + (":" + (PadDigits(f.minute, 2) + (":" +
            (PadDigits(f.second, 2) + ("." + (PadDigits(f.milli, 3) + rest))))))
  {
  }

  /** A padded field followed by a separator is read as the field, leaving
      the separator. */
  lemma FieldThenSep(n: nat, w: nat, sep: char, rest: string)
    requires n < Pow10(w)
    ensures Digits(PadDigits(n, w) + ([sep] + rest), w) == Some((n, [sep] + rest))
    ensures ([sep] + rest)[0] == sep && ([sep] + rest)[1..] == rest
  {
    DigitsOfPad(n, w, [sep] + rest);
    assert ([sep] + rest)[1..] == rest;
  }

  /** How HH:mm:ss.sss is read, step by step. */
  lemma ParseTimeForm(s: string, h: nat, r1: string, mi: nat, r2: string, sec: nat, r3: string,
                      ms: nat, r4: string)
    requires Digits(s, 2) == Some((h, r1)) && |r1| > 0 && r1[0] == ':'
    requires Digits(r1[1..], 2) == Some((mi, r2)) && |r2| > 0 && r2[0] == ':'
    requires Digits(r2[1..], 2) == Some((sec, r3)) && |r3| > 0 && r3[0] == '.'
    requires Digits(r3[1..], 3) == Some((ms, r4))
    ensures ParseTime(s) == Some((TimeFields(h, mi, sec, ms), r4))
  {
  }

  lemma ParseMonthDayFields(mo: nat, d: nat, rest: string)
    requires mo <= 99 && d <= 99
    ensures ParseMonthDay("-" + (PadDigits(mo, 2) + ("-" + (PadDigits(d, 2) + rest))))
            == Some((mo, d, rest))
  {
    assert Pow10(2) == 100;
    var r1 := "-" + (PadDigits(d, 2) + rest);
    var md := "-" + (PadDigits(mo, 2) + r1);
    assert md[1..] == PadDigits(mo, 2) + r1;
    DigitsOfPad(mo, 2, r1);
    assert r1[1..] == PadDigits(d, 2) + rest;
    DigitsOfPad(d, 2, rest);
  }

  /** The fields of a valid instant pass the range checks of the parser. */
  lemma FromFieldsOfInstant(d: DateTime)
    requires Valid(d) && InTimeRange(d)
    ensures FromFields(d.year, d.month + 1, d.day, SplitTime(d.ms), 0) == ValidDate(d)
  {
  }

  /** How a date-time form is read: year, month and day, the time, then the
      offset. */
  lemma ParseDateTimeForm(s: string, y: int, r1: string, mo: nat, d: nat, r2: string,
                          t: TimeFields, r3: string, off: int)
    requires ParseYear(s) == Some((y, r1)) && ParseMonthDay(r1) == Some((mo, d, r2))
    requires |r2| > 0 && r2[0] == 'T' && ParseTime(r2[1..]) == Some((t, r3))
    requires ParseOffset(r3) == Some(off)
    ensures ParseDateString(s) == FromFields(y, mo, d, t, off)
  {
  }

  /** The shape `toISOString` produces is read back field by field. */
  /** The text `toISOString` prints for the given fields. */
  function IsoText(y: int, mo: nat, dd: nat, t: TimeFields): string {
    YearString(y) + ("-" + (PadDigits(mo, 2) + ("-" + (PadDigits(dd, 2) + ("T" + (FormatTime(t) + "Z"))))))
  }

  lemma ParseIsoShape(s: string, y: int, mo: nat, dd: nat, t: TimeFields)
    requires -1000000 < y < 1000000 && mo <= 99 && dd <= 99
    requires t.hour <= 99 && t.minute <= 99 && t.second <= 99 && t.milli <= 999
    requires s == IsoText(y, mo, dd, t)
    ensures ParseDateString(s) == FromFields(y, mo, dd, t, 0)
  {
    var r3 := "Z";
    var r2 := "T" + (FormatTime(t) + r3);
    var md := "-" + (PadDigits(mo, 2) + ("-" + (PadDigits(dd, 2) + r2)));
    ParseYearString(y, md);
    ParseMonthDayFields(mo, dd, r2);
    assert r2[1..] == FormatTime(t) + r3;
    ParseTimeFields(t, r3);
    assert ParseOffset(r3) == Some(0);
    ParseDateTimeForm(s, y, md, mo, dd, r2, t, r3, 0);
  }

  /** `Date.parse` reads back what `toISOString` writes. */
  lemma IsoRoundTrip(d: DateTime)
    requires Valid(d) && InTimeRange(d)
    ensures ParseDateString(ToIsoString(d)) == ValidDate(d)
  {
    IsoParsesToFields(d);
    FromFieldsOfInstant(d);
  }

  /** `Date.parse` reads the printed fields of an instant back. */
  lemma IsoParsesToFields(d: DateTime)
    requires Valid(d) && InTimeRange(d)
    ensures ParseDateString(ToIsoString(d)) == FromFields(d.year, d.month + 1, d.day, SplitTime(d.ms), 0)
  {
    InstantBounds(d);
    IsoParsesBounded(d);
  }

  lemma IsoParsesBounded(d: DateTime)
    requires Valid(d) && -1000000 < d.year < 1000000
    ensures ParseDateString(ToIsoString(d)) == FromFields(d.year, d.month + 1, d.day, SplitTime(d.ms), 0)
  {
    var t := SplitTime(d.ms);
    var s := ToIsoString(d);
    assert s == IsoText(d.year, d.month + 1, d.day, t);
    assert d.month + 1 <= 12 && d.day <= 31 && t.hour <= 23 && t.minute <= 59 && t.second <= 59 && t.milli <= 999;
    ParseIsoShape(s, d.year, d.month + 1, d.day, t);
  }

  /** The fields of a valid instant fit the widths `toISOString` prints. */
  lemma InstantBounds(d: DateTime)
    requires Valid(d) && InTimeRange(d)
    ensures -1000000 < d.year < 1000000
  {
  }
  // ---------------------------------------------------------------------
  // Day numbers

  /** Days from 1 January of year 0 to 1 January of year `y` in the
      proleptic Gregorian calendar. */
  function DaysBeforeYear(y: int): int {
    365 * y + (y + 3) / 4 - (y + 99) / 100 + (y + 399) / 400
  }

  function DaysBeforeMonth(y: int, m: int): int
    requires 0 <= m < 12
  {
    if m == 0 then 0 else DaysBeforeMonth(y, m - 1) + DaysInMonth(y, m - 1)
  }

  /** The consecutive number of day `d` of month `m` of year `y`, for any
      day count `d`, overflowing ones included. */
  function DayIndex(y: int, m: int, d: int): int
    requires 0 <= m < 12
  {
    DaysBeforeYear(y) + DaysBeforeMonth(y, m) + d
  }

  function DayNumber(d: DateTime): int
    requires 0 <= d.month < 12
  {
    DayIndex(d.year, d.month, d.day)
  }

  /** The months of a year add up to 365 days, 366 in a leap year. */
  lemma MonthsOfYear(y: int)
    ensures DaysBeforeMonth(y, 11) + DaysInMonth(y, 11) == if IsLeapYear(y) then 366 else 365
  {
    var feb := DaysInMonth(y, 1);
    assert DaysBeforeMonth(y, 1) == 31;
    assert DaysBeforeMonth(y, 2) == 31 + feb;
    assert DaysBeforeMonth(y, 3) == 62 + feb;
    assert DaysBeforeMonth(y, 4) == 92 + feb;
    assert DaysBeforeMonth(y, 5) == 123 + feb;
    assert DaysBeforeMonth(y, 6) == 153 + feb;
    assert DaysBeforeMonth(y, 7) == 184 + feb;
    assert DaysBeforeMonth(y, 8) == 215 + feb;
    assert DaysBeforeMonth(y, 9) == 245 + feb;
    assert DaysBeforeMonth(y, 10) == 276 + feb;
  }

  /** Each step of the leap-year count adds one exactly for a leap year. */
  lemma LeapStep(y: int)
    ensures DaysBeforeYear(y + 1) == DaysBeforeYear(y) + if IsLeapYear(y) then 366 else 365
  {
    assert (y + 4) / 4 - (y + 3) / 4 == if y % 4 == 0 then 1 else 0;
    assert (y + 100) / 100 - (y + 99) / 100 == if y % 100 == 0 then 1 else 0;
    assert (y + 400) / 400 - (y + 399) / 400 == if y % 400 == 0 then 1 else 0;
  }

  /** A year has 365 days, 366 when it is a leap year. */
  lemma YearLength(y: int)
    ensures DaysBeforeYear(y + 1) == DaysBeforeYear(y) + DaysBeforeMonth(y, 11) + DaysInMonth(y, 11)
  {
    MonthsOfYear(y);
    LeapStep(y);
  }

  /** The first day of a month follows the last day of the month before. */
  lemma MonthStep(y: int, m: int)
    requires 0 <= m < 12
    ensures var p := PrevMonth(y, m);
            DayIndex(y, m, 0) == DayIndex(p.0, p.1, DaysInMonth(p.0, p.1))
  {
    if m == 0 {
      YearLength(y - 1);
    }
  }

  /** Rolling an overflowing day into the neighbouring months keeps its day
      number: normalisation moves along the calendar and never skips. */
  lemma {:induction false} NormalizeDayNumber(y: int, m: int, d: int, ms: int)
    requires 0 <= m < 12 && 0 <= ms < MsPerDay
    ensures DayNumber(NormalizeDay(y, m, d, ms)) == DayIndex(y, m, d)
    decreases if d < 1 then 1 else 0, if d < 1 then -d else d
  {
    if d < 1 {
      var p := PrevMonth(y, m);
      MonthStep(y, m);
      NormalizeDayNumber(p.0, p.1, d + DaysInMonth(p.0, p.1), ms);
    } else if d > DaysInMonth(y, m) {
      var n := NextMonth(y, m);
      MonthStep(n.0, n.1);
      assert PrevMonth(n.0, n.1) == (y, m);
      NormalizeDayNumber(n.0, n.1, d - DaysInMonth(y, m), ms);
    }
  }
}
