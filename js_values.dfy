/** JavaScript values as they come out of `JSON.parse` (plus `undefined`), and
    the coercions the dashboard applies to them: truthiness, `typeof`,
    `Number(v)`, `String(v)`, property lookup and object spread. Numbers are
    exact reals with the three non-finite values kept apart; IEEE rounding and
    negative zero are not modelled. */
module JsValues {
  import opened JsText

  datatype Option<T> = None | Some(value: T)

  datatype JsNum = Finite(r: real) | NaN | PosInf | NegInf

  datatype JsVal =
    | Undefined
    | Null
    | Bool(b: bool)
    | Num(n: JsNum)
    | Str(s: string)
    | Arr(items: seq<JsVal>)
    | Obj(fields: map<string, JsVal>)

  /** `Number.isFinite(n)`. */
  predicate IsFinite(n: JsNum) {
    n.Finite?
  }

  predicate NumTruthy(n: JsNum) {
    match n
    case Finite(r) => r != 0.0
    case NaN => false
    case _ => true
  }

  /** `Boolean(v)`: the falsy values are undefined, null, false, 0, NaN and "". */
  predicate Truthy(v: JsVal) {
    match v
    case Undefined => false
    case Null => false
    case Bool(b) => b
    case Num(n) => NumTruthy(n)
    case Str(s) => s != ""
    case _ => true
  }

  /** `typeof v === 'object'` (true for null and arrays). */
  predicate IsTypeofObject(v: JsVal) {
    v.Null? || v.Arr? || v.Obj?
  }

  /** `v == null`, the test behind `??`. */
  predicate IsNullish(v: JsVal) {
    v.Null? || v.Undefined?
  }

  /** The key whose plain assignment `o[k] = v` adds no own property to an
      ordinary object: it reaches the `__proto__` accessor inherited from
      `Object.prototype`, which replaces the prototype when `v` is an object
      and otherwise ignores `v`. */
  const ProtoAccessor: string := "__proto__"

  /** The own properties of an ordinary object after `o[k] = v`. */
  function AssignKey<V>(fields: map<string, V>, k: string, v: V): (r: map<string, V>)
    ensures k in r <==> k in fields || k != ProtoAccessor
    ensures k != ProtoAccessor ==> r[k] == v
    ensures k == ProtoAccessor ==> r == fields
    ensures forall j :: j != k ==> (j in r <==> j in fields)
    ensures forall j :: j != k && j in fields ==> r[j] == fields[j]
  {
    if k == ProtoAccessor then fields else fields[k := v]
  }

  /** `a ?? b`. */
  function Coalesce(a: JsVal, b: JsVal): (r: JsVal)
    ensures !IsNullish(a) ==> r == a
    ensures IsNullish(a) ==> r == b
  {
    if IsNullish(a) then b else a
  }

  /** `v[key]` for a named (non-index) key: own fields of an object, `length`
      of arrays and strings, and `undefined` otherwise. */
  function Get(v: JsVal, key: string): JsVal {
    match v
    case Obj(fields) => if key in fields then fields[key] else Undefined
    case Arr(items) => if key == "length" then Num(Finite(|items| as real)) else Undefined
    case Str(s) => if key == "length" then Num(Finite(Utf16Length(s) as real)) else Undefined
    case _ => Undefined
  }

  /** The own enumerable properties `{...v}` copies: an object's fields, an
      array's or a string's elements under their index keys, nothing for the
      other values. */
  function Spread(v: JsVal): map<string, JsVal> {
    match v
    case Obj(fields) => fields
    case Arr(items) => IndexMap(items)
    case Str(s) => IndexMap(seq(|s|, i requires 0 <= i < |s| => Str([s[i]])))
    case _ => map[]
  }

  function IndexMap(items: seq<JsVal>): map<string, JsVal> {
    if items == [] then map[]
    else IndexMap(items[..|items| - 1])[NatToString(|items| - 1) := items[|items| - 1]]
  }

  // ---------------------------------------------------------------------
  // Number(v)

  /** `Number(v)` (ToNumber after ToPrimitive). An array converts through its
      `String` form; a plain object's `String` form is "[object Object]". */
  function ToNumber(v: JsVal): JsNum {
    match v
    case Undefined => NaN
    case Null => Finite(0.0)
    case Bool(b) => Finite(if b then 1.0 else 0.0)
    case Num(n) => n
    case Str(s) => StringToNumber(s)
    case Arr(_) => StringToNumber(ToStr(v))
    case Obj(_) => NaN
  }

  /** `Number(s)` for a string: surrounding whitespace is ignored, the empty
      string is 0, then a decimal literal with optional sign, fraction and
      exponent, `Infinity` with optional sign, or an unsigned `0x`/`0o`/`0b`
      integer; anything else is NaN. */
  function StringToNumber(s: string): JsNum {
    var t := Trim(s);
    if t == "" then Finite(0.0)
    else if t == "Infinity" || t == "+Infinity" then PosInf
    else if t == "-Infinity" then NegInf
    else if |t| > 2 && t[0] == '0' && (t[1] == 'x' || t[1] == 'X') then RadixNumber(t[2..], 16)
    else if |t| > 2 && t[0] == '0' && (t[1] == 'o' || t[1] == 'O') then RadixNumber(t[2..], 8)
    else if |t| > 2 && t[0] == '0' && (t[1] == 'b' || t[1] == 'B') then RadixNumber(t[2..], 2)
    else
      match ParseSignedDecimal(t)
      case Some(r) => Finite(r)
      case None => NaN
  }

  function RadixDigit(c: char): (d: nat)
    ensures d <= 36
  {
    if '0' <= c <= '9' then c as int - '0' as int
    else if 'a' <= c <= 'f' then c as int - 'a' as int + 10
    else if 'A' <= c <= 'F' then c as int - 'A' as int + 10
    else 36
  }

  function RadixNumber(s: string, radix: nat): JsNum
    requires radix == 2 || radix == 8 || radix == 16
  {
    if forall i :: 0 <= i < |s| ==> RadixDigit(s[i]) < radix
    then Finite(RadixValue(s, radix) as real)
    else NaN
  }

  function RadixValue(s: string, radix: nat): nat
    requires forall i :: 0 <= i < |s| ==> RadixDigit(s[i]) < radix
  {
    if s == [] then 0 else radix * RadixValue(s[..|s| - 1], radix) + RadixDigit(s[|s| - 1])
  }

  /** The first index of `c` in `s`, or `|s|`. */
  function IndexOf(s: string, c: char): (i: nat)
    ensures i <= |s|
    ensures i < |s| ==> s[i] == c
    ensures forall j :: 0 <= j < i ==> s[j] != c
  {
    if s == [] then 0 else if s[0] == c then 0 else 1 + IndexOf(s[1..], c)
  }

  function ParseSignedDecimal(t: string): Option<real> {
    if |t| > 0 && t[0] == '-' then
      match ParseUnsignedDecimal(t[1..])
      case Some(r) => Some(-r)
      case None => None
    else if |t| > 0 && t[0] == '+' then ParseUnsignedDecimal(t[1..])
    else ParseUnsignedDecimal(t)
  }

  function Scale10(r: real, e: int): real {
    if e >= 0 then r * (Pow10(e) as real) else r / (Pow10(-e) as real)
  }

  /** digits [ "." digits ] [ ("e" | "E") [sign] digits ], with at least one
      mantissa digit on either side of the point. */
  function ParseUnsignedDecimal(u: string): Option<real> {
    var ie := IndexOf(u, 'e');
    var iE := IndexOf(u, 'E');
    var cut := if ie < iE then ie else iE;
    var mantissa := u[..cut];
    var exponent := if cut < |u| then Some(u[cut + 1..]) else None;
    var dot := IndexOf(mantissa, '.');
    var intPart := mantissa[..dot];
    var fracPart := if dot < |mantissa| then mantissa[dot + 1..] else "";
    if !AllDigits(intPart) || !AllDigits(fracPart) || |intPart| + |fracPart| == 0 then None
    else
      var m := DigitsValue(intPart) as real + (DigitsValue(fracPart) as real) / (Pow10(|fracPart|) as real);
      match exponent
      case None => Some(m)
      case Some(e) =>
        match ParseExponent(e)
        case Some(k) => Some(Scale10(m, k))
        case None => None
  }

  function ParseExponent(e: string): Option<int> {
    var neg := |e| > 0 && e[0] == '-';
    var digits := if |e| > 0 && (e[0] == '-' || e[0] == '+') then e[1..] else e;
    if |digits| == 0 || !AllDigits(digits) then None
    else Some(if neg then -(DigitsValue(digits) as int) else DigitsValue(digits) as int)
  }

  // ---------------------------------------------------------------------
  // String(v)

  /** `String(r)` for a finite number, in the plain decimal form JavaScript
      uses for magnitudes in [1e-6, 1e21): integer digits, then the
      fractional digits (at most 20 of them). Outside that range JavaScript
      writes an exponent ("1e+21", "1e-7"), which this function does not. */
  function NumberToString(r: real): string {
    if r < 0.0 then "-" + NonNegativeToString(-r) else NonNegativeToString(r)
  }

  function NonNegativeToString(r: real): string
    requires r >= 0.0
  {
    var ip := r.Floor;
    var frac := r - ip as real;
    if frac == 0.0 then NatToString(ip) else NatToString(ip) + "." + FractionDigits(frac, 20)
  }

  function FractionDigits(f: real, fuel: nat): string
    requires 0.0 <= f < 1.0
    decreases fuel
  {
    if fuel == 0 || f == 0.0 then ""
    else
      var x := f * 10.0;
      var d := x.Floor;
      [DigitChar(d)] + FractionDigits(x - d as real, fuel - 1)
  }

  function NumToStr(n: JsNum): string {
    match n
    case Finite(r) => NumberToString(r)
    case NaN => "NaN"
    case PosInf => "Infinity"
    case NegInf => "-Infinity"
  }

  /** `String(v)`: arrays join their elements with "," (null and undefined
      elements print as ""), plain objects print as "[object Object]". */
  function ToStr(v: JsVal): string
    decreases v
  {
    match v
    case Undefined => "undefined"
    case Null => "null"
    case Bool(b) => if b then "true" else "false"
    case Num(n) => NumToStr(n)
    case Str(s) => s
    case Arr(items) =>
      Join(seq(|items|, i requires 0 <= i < |items| =>
        if IsNullish(items[i]) then "" else ToStr(items[i])))
    case Obj(_) => "[object Object]"
  }

  function Join(parts: seq<string>): string {
    if parts == [] then ""
    else if |parts| == 1 then parts[0]
    else Join(parts[..|parts| - 1]) + "," + parts[|parts| - 1]
  }

  // ---------------------------------------------------------------------
  // Arithmetic and comparison on numbers

  /** `a / b`. */
  function NumDiv(a: JsNum, b: JsNum): JsNum {
    match (a, b)
    case (NaN, _) => NaN
    case (_, NaN) => NaN
    case (Finite(x), Finite(y)) =>
      if y != 0.0 then Finite(x / y)
      else if x > 0.0 then PosInf else if x < 0.0 then NegInf else NaN
    case (Finite(_), _) => Finite(0.0)
    case (PosInf, Finite(y)) => if y < 0.0 then NegInf else PosInf
    case (NegInf, Finite(y)) => if y < 0.0 then PosInf else NegInf
    case (_, _) => NaN
  }

  /** `a * k` for a positive finite constant `k`. */
  function NumScale(a: JsNum, k: real): JsNum
    requires k > 0.0
  {
    match a
    case Finite(x) => Finite(x * k)
    case _ => a
  }

  /** `Math.min(a, b)`. */
  function NumMin(a: JsNum, b: JsNum): JsNum {
    if a.NaN? || b.NaN? then NaN
    else if NumLt(a, b) then a else b
  }

  function NumOrder(n: JsNum): int
    requires !n.NaN?
  {
    match n
    case NegInf => -1
    case Finite(_) => 0
    case PosInf => 1
  }

  /** `a < b` (false whenever NaN takes part). */
  predicate NumLt(a: JsNum, b: JsNum) {
    !a.NaN? && !b.NaN? &&
    (if a.Finite? && b.Finite? then a.r < b.r else NumOrder(a) < NumOrder(b))
  }

  /** `a >= b` (false whenever NaN takes part). */
  predicate NumGe(a: JsNum, b: JsNum) {
    !a.NaN? && !b.NaN? && !NumLt(a, b)
  }
}
