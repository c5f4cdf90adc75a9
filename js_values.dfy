/** The JavaScript values that reach the services (parsed JSON bodies, parsed
  * files and database columns), with the coercions the code applies to them:
  * truthiness, `Number(v)`, `String(v)`, `Math.trunc`, `Math.round`,
  * `Math.ceil` and strict equality with a number.
  *
  * A finite number is an exact rational; IEEE rounding, overflow to infinity
  * and negative zero are not modelled. */
module JsValues {
  import opened Wrappers
  import opened JsText

  datatype Num = Finite(r: real) | NaN | PosInf | NegInf

  /** Object keys are kept as a map: no operation modelled here depends on the
    * order of an object's own keys. */
  datatype JsValue =
    | Undefined
    | Null
    | Bool(b: bool)
    | Number(n: Num)
    | Str(s: string)
    | Arr(items: seq<JsValue>)
    | Obj(fields: map<string, JsValue>)

  /** `Boolean(v)`. */
  predicate Truthy(v: JsValue)
  {
    match v
    case Undefined => false
    case Null => false
    case Bool(b) => b
    case Number(n) => n.PosInf? || n.NegInf? || (n.Finite? && n.r != 0.0)
    case Str(s) => s != []
    case Arr(_) => true
    case Obj(_) => true
  }

  predicate IsNullish(v: JsValue) { v.Undefined? || v.Null? }

  /** `v?.[key]`: a plain object's own property, `undefined` for anything else. */
  function Get(v: JsValue, key: string): (r: JsValue)
    ensures !v.Obj? ==> r == Undefined
    ensures v.Obj? && key in v.fields ==> r == v.fields[key]
  {
    if v.Obj? && key in v.fields then v.fields[key] else Undefined
  }

  /** `a || b` on values. */
  function Or(a: JsValue, b: JsValue): (r: JsValue)
    ensures Truthy(a) ==> r == a
    ensures !Truthy(a) ==> r == b
  {
    if Truthy(a) then a else b
  }

  /** `a ?? b` on values. */
  function Coalesce(a: JsValue, b: JsValue): (r: JsValue)
    ensures IsNullish(a) ==> r == b
    ensures !IsNullish(a) ==> r == a
  {
    if IsNullish(a) then b else a
  }

  /** `v === x` for a finite number `x`. */
  predicate IsNumber(v: JsValue, x: real) { v == Number(Finite(x)) }

  /** `typeof v === 'string' && v.trim()`: a string that is not blank. */
  predicate IsNonBlankString(v: JsValue) { v.Str? && !IsBlank(v.s) }

  // ---------------------------------------------------------------- numbers

  function Trunc(r: real): (i: int)
    ensures r >= 0.0 ==> i as real <= r < i as real + 1.0
    ensures r < 0.0 ==> i as real - 1.0 < r <= i as real
  {
    if r >= 0.0 then r.Floor else -((-r).Floor)
  }

  /** `Math.round`: the nearest integer, halves rounded towards +infinity. */
  function Round(r: real): (i: int)
    ensures r - 0.5 < i as real <= r + 0.5
  {
    (r + 0.5).Floor
  }

  function Ceil(r: real): (i: int)
    ensures r <= i as real < r + 1.0
  {
    -((-r).Floor)
  }

  /** `Math.trunc(n)`. */
  function TruncNum(n: Num): (t: Num)
    ensures n.Finite? ==> t == Finite(Trunc(n.r) as real)
    ensures !n.Finite? ==> t == n
  {
    if n.Finite? then Finite(Trunc(n.r) as real) else n
  }

  /** `a > b` for a finite `b` (`NaN` compares false). */
  predicate Greater(a: Num, b: real)
  {
    a.PosInf? || (a.Finite? && a.r > b)
  }

  /** `a < b` for a finite `b`. */
  predicate Less(a: Num, b: real)
  {
    a.NegInf? || (a.Finite? && a.r < b)
  }

  function Pow10(n: nat): (p: nat)
    ensures p >= 1
  {
    if n == 0 then 1 else 10 * Pow10(n - 1)
  }

  function LeadingDigits(s: string): (n: nat)
    ensures n <= |s| && AllDigits(s[..n])
    ensures n < |s| ==> !IsDigit(s[n])
  {
    if s == [] || !IsDigit(s[0]) then 0
    else
      var k := LeadingDigits(s[1..]);
      assert s[..k + 1] == [s[0]] + s[1..][..k];
      k + 1
  }

  function HexValue(c: char): (d: int)
    ensures -1 <= d < 16
  {
    if '0' <= c <= '9' then c as int - '0' as int
    else if 'a' <= c <= 'f' then c as int - 'a' as int + 10
    else if 'A' <= c <= 'F' then c as int - 'A' as int + 10
    else -1
  }

  predicate AllInBase(s: string, base: nat)
  {
    forall i :: 0 <= i < |s| ==> 0 <= HexValue(s[i]) < base
  }

  function BaseValue(s: string, base: nat): nat
    requires AllInBase(s, base)
  {
    if s == [] then 0 else BaseValue(s[..|s| - 1], base) * base + HexValue(s[|s| - 1])
  }

  /** `0x…`, `0o…` and `0b…` literals (no sign allowed). */
  function NonDecimalLiteral(t: string): Option<nat>
  {
    if |t| < 3 || t[0] != '0' then None
    else
      var base := if t[1] in "xX" then 16 else if t[1] in "oO" then 8 else if t[1] in "bB" then 2 else 0;
      if base != 0 && AllInBase(t[2..], base) then Some(BaseValue(t[2..], base)) else None
  }

  /** The optional exponent part `e[+-]digits` after a decimal mantissa. */
  function ExponentPart(x: string): Option<int>
  {
    if x == [] then Some(0)
    else if x[0] != 'e' && x[0] != 'E' then None
    else
      var neg := |x| > 1 && x[1] == '-';
      var ds := if |x| > 1 && (x[1] == '-' || x[1] == '+') then x[2..] else x[1..];
      if ds != [] && AllDigits(ds) then
        var v: int := DigitsValue(ds);
        Some(if neg then -v else v)
      else None
  }

  function Scale(m: real, e: int): real
  {
    if e >= 0 then m * Pow10(e) as real else m / Pow10(-e) as real
  }

  /** `StrUnsignedDecimalLiteral`: `digits[.digits][exp]` or `.digits[exp]`. */
  function UnsignedDecimal(u: string): Option<real>
  {
    var n := LeadingDigits(u);
    var ip := u[..n];
    var rest := u[n..];
    var hasDot := rest != [] && rest[0] == '.';
    var afterDot := if hasDot then rest[1..] else rest;
    var m := LeadingDigits(afterDot);
    var fp := if hasDot then afterDot[..m] else [];
    var tail := if hasDot then afterDot[m..] else rest;
    if ip == [] && fp == [] then None
    else
      match ExponentPart(tail)
      case None => None
      case Some(e) =>
        assert AllDigits(ip + fp) by { DigitsJoin(ip, fp); }
        Some(Scale(DigitsValue(ip + fp) as real / Pow10(|fp|) as real, e))
  }

  function DecimalLiteral(t: string): Option<real>
  {
    if t != [] && (t[0] == '+' || t[0] == '-') then
      match UnsignedDecimal(t[1..])
      case None => None
      case Some(r) => Some(if t[0] == '-' then -r else r)
    else UnsignedDecimal(t)
  }

  /** `Number(s)` for a string. */
  function StringToNumber(s: string): (n: Num)
    ensures IsBlank(s) ==> n == Finite(0.0)
  {
    var t := Trim(s);
    if t == [] then Finite(0.0)
    else if t == "Infinity" || t == "+Infinity" then PosInf
    else if t == "-Infinity" then NegInf
    else match NonDecimalLiteral(t)
      case Some(v) => Finite(v as real)
      case None =>
        match DecimalLiteral(t)
        case Some(r) => Finite(r)
        case None => NaN
  }

  /** `Number(v)`. */
  function NumberOf(v: JsValue): (n: Num)
    ensures v.Number? ==> n == v.n
    ensures v.Null? ==> n == Finite(0.0)
    ensures v.Undefined? || v.Obj? ==> n == NaN
  {
    match v
    case Undefined => NaN
    case Null => Finite(0.0)
    case Bool(b) => Finite(if b then 1.0 else 0.0)
    case Number(n) => n
    case Str(s) => StringToNumber(s)
    case Arr(_) => StringToNumber(ToStr(v))
    case Obj(_) => NaN
  }

  /** A numeral written without leading zeros reads as its value. */
  lemma NumeralReads(n: nat, s: string)
    requires s == NatToDecimal(n)
    ensures NumberOf(Str(s)) == Finite(n as real)
  {
    DigitsRoundTrip(n);
  }

  /** A string of decimal digits reads back as the number it writes. */
  lemma {:induction false} DigitsRoundTrip(n: nat)
    ensures StringToNumber(NatToDecimal(n)) == Finite(n as real)
  {
    var t := NatToDecimal(n);
    assert NoSpace(t) by {
      forall i | 0 <= i < |t| ensures !IsSpace(t[i]) { assert IsDigit(t[i]); }
    }
    TrimOfNoSpace(t);
    assert t != "Infinity" && t != "+Infinity" && t != "-Infinity" by { assert IsDigit(t[0]); }
    assert NonDecimalLiteral(t) == None by { assert |t| >= 3 ==> t[0] != '0'; }
    UnsignedOfDigits(t);
    assert DecimalLiteral(t) == Some(n as real) by { assert IsDigit(t[0]); }
  }

  /** A plain run of digits reads as the number it writes. */
  lemma UnsignedOfDigits(t: string)
    requires t != [] && AllDigits(t)
    ensures UnsignedDecimal(t) == Some(DigitsValue(t) as real)
  {
    LeadingDigitsOfDigits(t);
    assert t[..|t|] == t && t[|t|..] == [];
    assert t + [] == t;
    assert LeadingDigits([]) == 0 && ExponentPart([]) == Some(0);
    var v := DigitsValue(t) as real;
    assert Pow10(0) == 1 && Scale(v / 1.0, 0) == v;
  }

  /** Two runs of digits, one after the other, are a run of digits. */
  lemma DigitsJoin(a: string, b: string)
    requires AllDigits(a) && AllDigits(b)
    ensures AllDigits(a + b)
  {
    forall i | 0 <= i < |a + b| ensures IsDigit((a + b)[i]) {
      if i < |a| { assert (a + b)[i] == a[i]; } else { assert (a + b)[i] == b[i - |a|]; }
    }
  }

  lemma {:induction false} LeadingDigitsOfDigits(s: string)
    requires AllDigits(s)
    ensures LeadingDigits(s) == |s|
  {
    if s != [] { LeadingDigitsOfDigits(s[1..]); }
  }

  // ---------------------------------------------------------------- strings

  /** First fraction digits of `f` in base 10, at most `fuel` of them. */
  function FractionDigits(f: real, fuel: nat): (r: string)
    requires 0.0 < f < 1.0
    ensures AllDigits(r)
    decreases fuel
  {
    var d := (f * 10.0).Floor;
    var rest := f * 10.0 - d as real;
    if fuel <= 1 || rest == 0.0 then [DigitChar(d)]
    else [DigitChar(d)] + FractionDigits(rest, fuel - 1)
  }

  function NonNegativeToStr(r: real): string
    requires r >= 0.0
  {
    var ip := r.Floor;
    var f := r - ip as real;
    NatToDecimal(ip) + (if f == 0.0 then "" else "." + FractionDigits(f, 20))
  }

  /** `String(i)` for an integer. */
  function IntToStr(i: int): string
  {
    if i < 0 then "-" + NatToDecimal(-i) else NatToDecimal(i)
  }

  /** `String(n)` for a number. Integers are written exactly; other finite
    * numbers with at most 20 fraction digits and never in exponent form. */
  function NumToStr(n: Num): (s: string)
    ensures n.Finite? && n.r == n.r.Floor as real ==> s == IntToStr(n.r.Floor)
  {
    match n
    case NaN => "NaN"
    case PosInf => "Infinity"
    case NegInf => "-Infinity"
    case Finite(r) =>
      if r < 0.0 then
        assert r == r.Floor as real ==> (-r).Floor == -(r.Floor);
        "-" + NonNegativeToStr(-r)
      else NonNegativeToStr(r)
  }

  /** `String(v)`; an array joins its elements with commas, writing `null`
    * and `undefined` elements as the empty string. */
  function ToStr(v: JsValue): string
  {
    match v
    case Undefined => "undefined"
    case Null => "null"
    case Bool(b) => if b then "true" else "false"
    case Number(n) => NumToStr(n)
    case Str(s) => s
    case Arr(items) => Join(v, items)
    case Obj(_) => "[object Object]"
  }

  function Join(ghost parent: JsValue, items: seq<JsValue>): string
    requires forall i :: 0 <= i < |items| ==> items[i] < parent
    decreases parent, |items|
  {
    if items == [] then ""
    else
      var last := items[|items| - 1];
      var head := Join(parent, items[..|items| - 1]);
      var cell := if IsNullish(last) then "" else ToStr(last);
      if |items| == 1 then cell else head + "," + cell
  }
}
