/** The identifiers the access-control controllers accept: Brazilian CPF
  * numbers with their two mod-11 check digits, vehicle plates in the old
  * and the Mercosul format, 10-digit tags and 14-digit access ids
  * `898nnnnnnnn787`. The freedom, query and vehicle-v2 controllers carry
  * identical copies of the CPF check and of plate normalisation. */
module Identifiers {
  import opened Wrappers
  import opened JsText

  // ------------------------------------------------------------------- CPF

  /** `a % b` in JavaScript for a positive `b`: the remainder has the sign
    * of `a`. */
  function JsRemainder(a: int, b: int): (r: int)
    requires b > 0
    ensures a >= 0 ==> 0 <= r < b && r == a % b
    ensures a < 0 ==> -b < r <= 0
  {
    if a >= 0 then a % b else -((-a) % b)
  }

  /** Σ digit · (factor − index) over the digits of `base`. */
  function WeightedSum(base: string, factor: int): int
    requires AllDigits(base)
  {
    if base == [] then 0
    else WeightedSum(base[..|base| - 1], factor) + DigitValue(base[|base| - 1]) * (factor - (|base| - 1))
  }

  /** With weights that stay positive the sum is never negative. */
  lemma {:induction false} WeightedSumNonNegative(base: string, factor: int)
    requires AllDigits(base) && factor >= |base|
    ensures WeightedSum(base, factor) >= 0
  {
    if base != [] {
      WeightedSumNonNegative(base[..|base| - 1], factor);
    }
  }

  /** The check digit `calcDigit` computes: (sum · 10) mod 11, with 10
    * written as 0. */
  function CheckDigit(base: string, factor: int): int
    requires AllDigits(base)
  {
    var remainder := JsRemainder(WeightedSum(base, factor) * 10, 11);
    if remainder == 10 then 0 else remainder
  }

  /** For the weights the CPF uses the check digit is a decimal digit. */
  lemma CheckDigitIsDigit(base: string, factor: int)
    requires AllDigits(base) && factor >= |base|
    ensures 0 <= CheckDigit(base, factor) <= 9
  {
    WeightedSumNonNegative(base, factor);
  }

  /** `/^(\d)\1{10}$/` once the string is known to be 11 digits. */
  predicate AllSame(s: string)
  {
    forall i :: 0 <= i < |s| ==> s[i] == s[0]
  }

  /** `isValidCpf`: 11 digits, not all the same, and both check digits
    * right (weights 10..2 over the first nine digits, 11..2 over the
    * first ten). */
  predicate IsValidCpf(s: string)
  {
    && |s| == 11 && AllDigits(s) && !AllSame(s)
    && CheckDigit(s[..9], 10) == DigitValue(s[9])
    && CheckDigit(s[..10], 11) == DigitValue(s[10])
  }

  /** `calcDigit`: the weighted sum accumulated digit by digit. */
  method CalcDigit(base: string, factor: int) returns (d: int)
    requires AllDigits(base)
    ensures d == CheckDigit(base, factor)
  {
    var total := 0;
    for index := 0 to |base|
      invariant total == WeightedSum(base[..index], factor)
    {
      assert base[..index + 1][..index] == base[..index];
      total := total + DigitValue(base[index]) * (factor - index);
    }
    assert base[..|base|] == base;
    var remainder := JsRemainder(total * 10, 11);
    d := if remainder == 10 then 0 else remainder;
  }

  /** `isValidCpf` as the code runs it. */
  method ValidateCpf(cpf: string) returns (ok: bool)
    ensures ok == IsValidCpf(cpf)
  {
    if |cpf| != 11 || !AllDigits(cpf) || AllSame(cpf) {
      return false;
    }
    var first := CalcDigit(cpf[..9], 10);
    var second := CalcDigit(cpf[..10], 11);
    ok := first == DigitValue(cpf[9]) && second == DigitValue(cpf[10]);
  }

  /** The nine base digits of a CPF followed by the two check digits they
    * call for. */
  function CompleteCpf(base: string): (s: string)
    requires |base| == 9 && AllDigits(base)
    ensures |s| == 11 && AllDigits(s) && s[..9] == base
  {
    CheckDigitIsDigit(base, 10);
    var withFirst := base + [DigitChar(CheckDigit(base, 10))];
    CheckDigitIsDigit(withFirst, 11);
    withFirst + [DigitChar(CheckDigit(withFirst, 11))]
  }

  /** The check digits are determined by the first nine: an 11-digit string
    * that is not a repeated digit is a valid CPF exactly when it is the
    * completion of its own first nine digits. */
  lemma ValidIffComplete(s: string)
    requires |s| == 11 && AllDigits(s) && !AllSame(s)
    ensures IsValidCpf(s) <==> s == CompleteCpf(s[..9])
  {
    var base := s[..9];
    var c := CompleteCpf(base);
    CheckDigitIsDigit(base, 10);
    var withFirst := base + [DigitChar(CheckDigit(base, 10))];
    CheckDigitIsDigit(withFirst, 11);
    assert c[..10] == withFirst;
    if IsValidCpf(s) {
      assert s[..10] == withFirst by {
        assert s[..10] == base + [s[9]];
        assert DigitChar(DigitValue(s[9])) == s[9];
      }
      assert s == s[..10] + [s[10]];
      assert DigitChar(DigitValue(s[10])) == s[10];
    }
    if s == c {
      assert s[..10] == withFirst;
    }
  }

  /** Every completion that is not a repeated digit is valid. */
  lemma CompleteIsValid(base: string)
    requires |base| == 9 && AllDigits(base) && !AllSame(CompleteCpf(base))
    ensures IsValidCpf(CompleteCpf(base))
  {
    var s := CompleteCpf(base);
    ValidIffComplete(s);
  }

  /** `00000000000` carries the right check digits, and only the
    * repeated-digit rule refuses it. */
  lemma ZerosPassChecksumOnly()
    ensures CompleteCpf("000000000") == "00000000000"
    ensures !IsValidCpf("00000000000")
  {
    assert "000000000" == Repeat('0', 9);
    assert "0000000000" == Repeat('0', 10);
    ZeroSum(9, 10);
    ZeroSum(10, 11);
    assert "000000000" + "0" == "0000000000";
  }

  /** Zeros weigh nothing. */
  lemma {:induction false} ZeroSum(k: nat, factor: int)
    ensures AllDigits(Repeat('0', k)) && WeightedSum(Repeat('0', k), factor) == 0
  {
    if k > 0 {
      assert Repeat('0', k)[..k - 1] == Repeat('0', k - 1);
      ZeroSum(k - 1, factor);
    }
  }

  // ---------------------------------------------------------------- plates

  predicate IsPlateChar(c: char) { IsUpperAscii(c) || IsDigit(c) }

  /** `s.replace(/[^A-Z0-9]/g, '')`. */
  function KeepPlateChars(s: string): (r: string)
    ensures |r| <= |s|
    ensures forall i :: 0 <= i < |r| ==> IsPlateChar(r[i])
    ensures (forall i :: 0 <= i < |s| ==> IsPlateChar(s[i])) ==> r == s
  {
    if s == [] then []
    else if IsPlateChar(s[0]) then [s[0]] + KeepPlateChars(s[1..])
    else KeepPlateChars(s[1..])
  }

  /** `normalizePlate`: upper-case, then only letters and digits. */
  function NormalizePlate(s: string): (r: string)
    ensures |r| <= |s|
    ensures forall i :: 0 <= i < |r| ==> IsPlateChar(r[i])
  {
    KeepPlateChars(ToUpper(s))
  }

  /** Normalising a normalised plate changes nothing. */
  lemma NormalizePlateIdempotent(s: string)
    ensures NormalizePlate(NormalizePlate(s)) == NormalizePlate(s)
  {
    var r := NormalizePlate(s);
    assert NoLower(r) by {
      forall i | 0 <= i < |r| ensures !IsLowerAscii(r[i]) { assert IsPlateChar(r[i]); }
    }
    ToUpperOfNoLower(r);
  }

  /** `/^[A-Z]{3}[0-9]{4}$/`. */
  predicate LegacyPlate(p: string)
  {
    |p| == 7 && IsUpperAscii(p[0]) && IsUpperAscii(p[1]) && IsUpperAscii(p[2])
    && IsDigit(p[3]) && IsDigit(p[4]) && IsDigit(p[5]) && IsDigit(p[6])
  }

  /** `/^[A-Z]{3}[0-9][A-Z][0-9]{2}$/`. */
  predicate MercosulPlate(p: string)
  {
    |p| == 7 && IsUpperAscii(p[0]) && IsUpperAscii(p[1]) && IsUpperAscii(p[2])
    && IsDigit(p[3]) && IsUpperAscii(p[4]) && IsDigit(p[5]) && IsDigit(p[6])
  }

  /** `isPlateFormat`. */
  predicate IsPlateFormat(p: string)
  {
    |p| == 7 && (LegacyPlate(p) || MercosulPlate(p))
  }

  /** A plate in either format starts with three letters, so it is never
    * made of digits only. */
  lemma PlateIsNotNumeric(p: string)
    requires IsPlateFormat(p)
    ensures !AllDigits(p)
  {
    assert !IsDigit(p[0]);
  }

  // ----------------------------------------------------------- credentials

  /** The error a search id is refused with: a status and a message. */
  datatype Rejection = Rejection(status: nat, message: string)

  const TagMessage := "Tag inválida. Informe 10 dígitos."
  const ShortIdMessage := "ID numérico deve conter de 1 a 8 dígitos."

  /** `buildTagCredential`: `Y` followed by the 10 digits of the tag. */
  function BuildTagCredential(tag: string): (r: Result<string, Rejection>)
    ensures r.Ok? <==> |Digits(tag)| == 10
    ensures r.Ok? ==> r.value == "Y" + Digits(tag) && |r.value| == 11
    ensures r.Err? ==> r.error == Rejection(400, TagMessage)
  {
    var digits := Digits(tag);
    if |digits| == 10 then Ok("Y" + digits) else Err(Rejection(400, TagMessage))
  }

  /** `/^898[0-9]{8}787$/`. */
  predicate IsNormalizedAccessId(d: string)
  {
    |d| == 14 && AllDigits(d) && d[..3] == "898" && d[11..] == "787"
  }

  /** `898`, the number left-padded with zeros to 8 digits, `787`. */
  function AccessIdOf(digits: string): (r: string)
  {
    "898" + PadStart(digits, 8, '0') + "787"
  }

  /** For up to 8 digits the access id has the normalised form and its
    * middle part writes the same number. */
  lemma AccessIdShape(digits: string)
    requires AllDigits(digits) && |digits| <= 8
    ensures IsNormalizedAccessId(AccessIdOf(digits))
    ensures DigitsValue(AccessIdOf(digits)[3..11]) == DigitsValue(digits)
  {
    PaddedValue(digits);
    Framed(PadStart(digits, 8, '0'));
  }

  /** Eight digits between `898` and `787` make a normalised access id. */
  lemma Framed(p: string)
    requires |p| == 8 && AllDigits(p)
    ensures IsNormalizedAccessId("898" + p + "787") && ("898" + p + "787")[3..11] == p
  {
    var r := "898" + p + "787";
    assert r[..3] == "898" && r[11..] == "787" && r[3..11] == p;
    forall i | 0 <= i < 14 ensures IsDigit(r[i]) {
      if 3 <= i < 11 { assert r[i] == p[i - 3]; }
    }
  }

  /** Padding to 8 digits keeps the value. */
  lemma PaddedValue(digits: string)
    requires AllDigits(digits) && |digits| <= 8
    ensures var p := PadStart(digits, 8, '0');
      |p| == 8 && AllDigits(p) && DigitsValue(p) == DigitsValue(digits)
  {
    if |digits| < 8 {
      LeadingZeros(8 - |digits|, digits);
      assert PadStart(digits, 8, '0') == Repeat('0', 8 - |digits|) + digits;
    }
  }

  /** Zeros in front of a numeral do not change its value. */
  lemma {:induction false} LeadingZeros(k: nat, s: string)
    requires AllDigits(s)
    ensures AllDigits(Repeat('0', k) + s)
    ensures DigitsValue(Repeat('0', k) + s) == DigitsValue(s)
    decreases |s|, k
  {
    var z := Repeat('0', k);
    if s == [] {
      assert z + s == z;
      if k > 0 {
        assert z[..k - 1] == Repeat('0', k - 1);
        LeadingZeros(k - 1, []);
        assert Repeat('0', k - 1) + [] == Repeat('0', k - 1);
      }
    } else {
      var t := z + s;
      assert t[..|t| - 1] == z + s[..|s| - 1];
      LeadingZeros(k, s[..|s| - 1]);
    }
  }

  /** `buildAccessIdCredential`: the access id of 1 to 8 digits. */
  function BuildAccessIdCredential(id: string): (r: Result<string, Rejection>)
    ensures r.Ok? <==> 1 <= |Digits(id)| <= 8
    ensures r.Ok? ==> r.value == AccessIdOf(Digits(id)) && IsNormalizedAccessId(r.value)
    ensures r.Err? ==> r.error == Rejection(400, ShortIdMessage)
  {
    var digits := Digits(id);
    if 1 <= |digits| <= 8 then
      AccessIdShape(digits);
      Ok(AccessIdOf(digits))
    else Err(Rejection(400, ShortIdMessage))
  }
}
