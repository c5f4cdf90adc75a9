/** The string operations of the ECMAScript runtime that the services rely on:
  * `trim`, the `\s` class of regular expressions, ASCII case mapping, digit
  * filtering, `padStart` and decimal rendering of non-negative integers. */
module JsText {

  /** ECMAScript WhiteSpace and LineTerminator code points: the set removed by
    * `String.prototype.trim` and matched by `\s`. */
  predicate IsSpace(c: char)
  {
    c == '\t' || c == '\n' || c == '\U{000B}' || c == '\U{000C}' || c == '\r' || c == ' '
    || c == '\U{00A0}' || c == '\U{1680}' || ('\U{2000}' <= c <= '\U{200A}')
    || c == '\U{2028}' || c == '\U{2029}' || c == '\U{202F}' || c == '\U{205F}'
    || c == '\U{3000}' || c == '\U{FEFF}'
  }

  predicate IsDigit(c: char) { '0' <= c <= '9' }

  predicate IsUpperAscii(c: char) { 'A' <= c <= 'Z' }

  predicate IsLowerAscii(c: char) { 'a' <= c <= 'z' }

  predicate AllDigits(s: string) { forall i :: 0 <= i < |s| ==> IsDigit(s[i]) }

  predicate NoSpace(s: string) { forall i :: 0 <= i < |s| ==> !IsSpace(s[i]) }

  predicate AllSpace(s: string) { forall i :: 0 <= i < |s| ==> IsSpace(s[i]) }

  /** The number of white-space characters `s` starts with. */
  function LeadingSpaces(s: string): (n: nat)
    ensures n <= |s|
  {
    if s == [] || !IsSpace(s[0]) then 0 else 1 + LeadingSpaces(s[1..])
  }

  /** The number of white-space characters `s` ends with. */
  function TrailingSpaces(s: string): (n: nat)
    ensures n <= |s|
  {
    if s == [] || !IsSpace(s[|s| - 1]) then 0 else 1 + TrailingSpaces(s[..|s| - 1])
  }

  lemma {:induction false} LeadingSpacesFacts(s: string)
    ensures AllSpace(s[..LeadingSpaces(s)])
    ensures LeadingSpaces(s) < |s| ==> !IsSpace(s[LeadingSpaces(s)])
  {
    if s != [] && IsSpace(s[0]) {
      LeadingSpacesFacts(s[1..]);
      var n := LeadingSpaces(s[1..]);
      var p, q := s[..n + 1], s[1..][..n];
      assert forall i :: 1 <= i < n + 1 ==> p[i] == q[i - 1];
    }
  }

  lemma {:induction false} TrailingSpacesFacts(s: string)
    ensures AllSpace(s[|s| - TrailingSpaces(s)..])
    ensures TrailingSpaces(s) < |s| ==> !IsSpace(s[|s| - 1 - TrailingSpaces(s)])
  {
    if s != [] && IsSpace(s[|s| - 1]) {
      var t := s[..|s| - 1];
      TrailingSpacesFacts(t);
      var n := TrailingSpaces(t);
      var p, q := s[|s| - (n + 1)..], t[|t| - n..];
      assert forall i :: 0 <= i < n ==> p[i] == q[i];
    }
  }

  /** `s.trimStart()`. */
  function TrimStart(s: string): (r: string)
    ensures |r| <= |s|
  {
    s[LeadingSpaces(s)..]
  }

  /** `s.trimEnd()`. */
  function TrimEnd(s: string): (r: string)
    ensures |r| <= |s|
  {
    s[..|s| - TrailingSpaces(s)]
  }

  /** `s.trim()`. */
  function Trim(s: string): (r: string)
    ensures |r| <= |s|
  {
    TrimEnd(TrimStart(s))
  }

  /** The trimmed string neither starts nor ends with white space, and it is
    * `s` less white space at its start and at its end. */
  lemma TrimShape(s: string)
    ensures var r := Trim(s); r == [] || (!IsSpace(r[0]) && !IsSpace(r[|r| - 1]))
    ensures exists i, j :: 0 <= i <= j <= |s| && Trim(s) == s[i..j] && AllSpace(s[..i]) && AllSpace(s[j..])
  {
    var a := TrimStart(s);
    LeadingSpacesFacts(s);
    TrailingSpacesFacts(a);
    var i := LeadingSpaces(s);
    var j := i + (|a| - TrailingSpaces(a));
    assert Trim(s) == s[i..j];
    assert s[j..] == a[|a| - TrailingSpaces(a)..];
    var r := Trim(s);
    if r != [] {
      assert r[0] == a[0];
      assert r[|r| - 1] == a[|a| - 1 - TrailingSpaces(a)];
    }
  }

  /** Whether a string is empty once trimmed, i.e. `!s.trim()`. */
  predicate IsBlank(s: string) { Trim(s) == [] }

  lemma BlankIffAllSpace(s: string)
    ensures IsBlank(s) <==> AllSpace(s)
  {
    LeadingSpacesFacts(s);
    var a := TrimStart(s);
    if a != [] {
      assert !IsSpace(a[0]);
      TrailingSpacesOfNonSpaceStart(a);
    } else {
      assert s[..LeadingSpaces(s)] == s;
    }
  }

  lemma {:induction false} TrailingSpacesOfNonSpaceStart(a: string)
    requires a != [] && !IsSpace(a[0])
    ensures TrailingSpaces(a) < |a|
  {
    if IsSpace(a[|a| - 1]) {
      assert |a| > 1;
      TrailingSpacesOfNonSpaceStart(a[..|a| - 1]);
    }
  }

  /** A string that neither starts nor ends with white space is its own trim. */
  lemma TrimOfTrimmed(s: string)
    requires s == [] || (!IsSpace(s[0]) && !IsSpace(s[|s| - 1]))
    ensures Trim(s) == s
  {
    assert LeadingSpaces(s) == 0;
    assert TrimStart(s) == s;
    assert TrailingSpaces(s) == 0;
  }

  /** Trimming twice is trimming once. */
  lemma TrimIdempotent(s: string)
    ensures Trim(Trim(s)) == Trim(s)
  {
    TrimShape(s);
    TrimOfTrimmed(Trim(s));
  }

  lemma TrimOfNoSpace(s: string)
    requires NoSpace(s)
    ensures Trim(s) == s
  {
    if s != [] {
      assert !IsSpace(s[0]) && !IsSpace(s[|s| - 1]);
    }
    TrimOfTrimmed(s);
  }

  /** Upper-casing a string without white space after trimming it is
    * upper-casing it. */
  lemma UpperOfSpaceless(s: string)
    requires NoSpace(s)
    ensures ToUpper(Trim(s)) == ToUpper(s)
  {
    TrimOfNoSpace(s);
  }

  function UpperChar(c: char): (u: char)
    ensures IsLowerAscii(c) ==> IsUpperAscii(u)
    ensures !IsLowerAscii(c) ==> u == c
  {
    if IsLowerAscii(c) then (c as int - 32) as char else c
  }

  function LowerChar(c: char): (l: char)
    ensures IsUpperAscii(c) ==> IsLowerAscii(l)
    ensures !IsUpperAscii(c) ==> l == c
  {
    if IsUpperAscii(c) then (c as int + 32) as char else c
  }

  /** `s.toUpperCase()` restricted to the ASCII letters. */
  function ToUpper(s: string): (r: string)
    ensures |r| == |s|
    ensures forall i :: 0 <= i < |s| ==> r[i] == UpperChar(s[i])
  {
    if s == [] then [] else [UpperChar(s[0])] + ToUpper(s[1..])
  }

  /** `s.toLowerCase()` restricted to the ASCII letters. */
  function ToLower(s: string): (r: string)
    ensures |r| == |s|
    ensures forall i :: 0 <= i < |s| ==> r[i] == LowerChar(s[i])
  {
    if s == [] then [] else [LowerChar(s[0])] + ToLower(s[1..])
  }

  /** Lower-casing works character by character, so it distributes over
    * concatenation. */
  lemma {:induction false} ToLowerAppend(a: string, b: string)
    ensures ToLower(a + b) == ToLower(a) + ToLower(b)
    decreases |a|
  {
    if a != [] {
      assert (a + b)[1..] == a[1..] + b;
      ToLowerAppend(a[1..], b);
    }
  }

  predicate NoLower(s: string) { forall i :: 0 <= i < |s| ==> !IsLowerAscii(s[i]) }

  /** Whether `c` does not occur in `s`. */
  predicate Lacks(s: string, c: char) { forall i :: 0 <= i < |s| ==> s[i] != c }

  lemma ToUpperHasNoLower(s: string)
    ensures NoLower(ToUpper(s))
  {
  }

  lemma ToUpperOfNoLower(s: string)
    requires NoLower(s)
    ensures ToUpper(s) == s
  {
  }

  lemma ToUpperIdempotent(s: string)
    ensures ToUpper(ToUpper(s)) == ToUpper(s)
  {
    ToUpperHasNoLower(s);
    ToUpperOfNoLower(ToUpper(s));
  }

  /** Trimming and upper-casing a string already trimmed and upper-cased
    * changes nothing. */
  lemma UpperTrimIdempotent(s: string)
    ensures ToUpper(Trim(ToUpper(Trim(s)))) == ToUpper(Trim(s))
  {
    var t := Trim(s);
    var u := ToUpper(t);
    TrimShape(s);
    if u != [] {
      assert !IsSpace(u[0]) && !IsSpace(u[|u| - 1]) by {
        assert u[0] == UpperChar(t[0]) && u[|u| - 1] == UpperChar(t[|t| - 1]);
      }
    }
    TrimOfTrimmed(u);
    ToUpperIdempotent(t);
  }

  /** `s.replace(/\s+/g, '')`: every white-space character removed. */
  function StripSpaces(s: string): (r: string)
    ensures NoSpace(r)
    ensures |r| <= |s|
    ensures NoSpace(s) ==> r == s
  {
    if s == [] then []
    else if IsSpace(s[0]) then StripSpaces(s[1..])
    else [s[0]] + StripSpaces(s[1..])
  }

  lemma {:induction false} StripSpacesKeepsNoLower(s: string)
    requires NoLower(s)
    ensures NoLower(StripSpaces(s))
  {
    if s != [] { StripSpacesKeepsNoLower(s[1..]); }
  }

  /** `s.replace(/-/g, to)` for a single replacement character. */
  function ReplaceChar(s: string, from: char, to: char): (r: string)
    ensures |r| == |s|
    ensures forall i :: 0 <= i < |s| ==> r[i] == (if s[i] == from then to else s[i])
  {
    if s == [] then [] else [if s[0] == from then to else s[0]] + ReplaceChar(s[1..], from, to)
  }

  lemma ReplaceCharOfLacking(s: string, from: char, to: char)
    requires Lacks(s, from)
    ensures ReplaceChar(s, from, to) == s
  {
  }

  /** After replacing every `from` by another character, none is left; white
    * space and lower case letters are neither added nor removed when
    * neither character is one. */
  lemma ReplaceCharResult(s: string, from: char, to: char)
    requires from != to && !IsSpace(to) && !IsLowerAscii(to)
    requires NoSpace(s) && NoLower(s)
    ensures var r := ReplaceChar(s, from, to); Lacks(r, from) && NoSpace(r) && NoLower(r)
  {
  }

  /** `s.replace(/\D/g, '')`: the digits of `s`, in order. */
  function Digits(s: string): (r: string)
    ensures AllDigits(r)
    ensures |r| <= |s|
    ensures AllDigits(s) ==> r == s
  {
    if s == [] then []
    else if IsDigit(s[0]) then [s[0]] + Digits(s[1..])
    else Digits(s[1..])
  }

  function DigitChar(d: nat): (c: char)
    requires d < 10
    ensures IsDigit(c) && DigitValue(c) == d
  {
    ('0' as int + d) as char
  }

  function DigitValue(c: char): (d: nat)
    requires IsDigit(c)
    ensures d < 10
  {
    c as int - '0' as int
  }

  /** The number written by a string of decimal digits (most significant first). */
  function DigitsValue(s: string): nat
    requires AllDigits(s)
  {
    if s == [] then 0 else DigitsValue(s[..|s| - 1]) * 10 + DigitValue(s[|s| - 1])
  }

  /** Decimal rendering of a non-negative integer, as `String(n)` writes it. */
  function NatToDecimal(n: nat): (r: string)
    ensures r != [] && AllDigits(r) && DigitsValue(r) == n
    ensures |r| > 1 ==> r[0] != '0'
  {
    if n < 10 then [DigitChar(n)]
    else
      var p := NatToDecimal(n / 10);
      var r := p + [DigitChar(n % 10)];
      assert r[..|r| - 1] == p;
      r
  }

  function Repeat(c: char, n: nat): (r: string)
    ensures |r| == n && forall i :: 0 <= i < n ==> r[i] == c
  {
    seq(n, _ => c)
  }

  /** `s.padStart(width, c)` for a one-character pad string. */
  function PadStart(s: string, width: nat, c: char): (r: string)
    ensures |s| >= width ==> r == s
    ensures |s| < width ==> (|r| == width && r[width - |s|..] == s
      && forall i :: 0 <= i < width - |s| ==> r[i] == c)
  {
    if |s| >= width then s else Repeat(c, width - |s|) + s
  }

  /** Whether `part` occurs in `s` (`s.includes(part)`). */
  predicate Contains(s: string, part: string)
  {
    StartsWith(s, part) || (s != [] && Contains(s[1..], part))
  }

  predicate StartsWith(s: string, prefix: string)
  {
    |prefix| <= |s| && s[..|prefix|] == prefix
  }

  predicate EndsWith(s: string, suffix: string)
  {
    |suffix| <= |s| && s[|s| - |suffix|..] == suffix
  }
}
