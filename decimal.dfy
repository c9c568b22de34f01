/**
 * Base-10 digit strings and plain decimal amounts: the behaviour of Go's
 * strconv.ParseUint(s, 10, 64) and of big.Rat.SetString on decimal strings that the
 * wallet service relies on. Amounts are exact rationals (`real`), as big.Rat is.
 */
module Decimal {
  import opened Wrappers

  const U64_LIMIT: int := 0x1_0000_0000_0000_0000

  /** Go's uint64. */
  type uint64 = x: int | 0 <= x < U64_LIMIT

  predicate IsDigit(c: char) {
    '0' <= c <= '9'
  }

  predicate AllDigits(s: string) {
    forall i :: 0 <= i < |s| ==> IsDigit(s[i])
  }

  function DigitValue(c: char): nat
    requires IsDigit(c)
  {
    c as int - '0' as int
  }

  function DigitChar(d: nat): (c: char)
    requires d < 10
    ensures IsDigit(c) && DigitValue(c) == d
  {
    ('0' as int + d) as char
  }

  /** The value of a digit string, most significant digit first; the empty string is 0. */
  function DigitsValue(s: string): nat
    requires AllDigits(s)
  {
    if s == [] then 0 else DigitsValue(s[..|s| - 1]) * 10 + DigitValue(s[|s| - 1])
  }

  function Pow10(k: nat): (r: nat)
    ensures r >= 1
  {
    if k == 0 then 1 else 10 * Pow10(k - 1)
  }

  /** The canonical decimal spelling of n: no leading zero, except for "0" itself. */
  function FormatNat(n: nat): (s: string)
    ensures |s| >= 1 && AllDigits(s)
    ensures s[0] == '0' ==> n == 0
  {
    if n < 10 then [DigitChar(n)] else FormatNat(n / 10) + [DigitChar(n % 10)]
  }

  /** A digit string is canonical when it has no leading zero (the string "0" excepted). */
  predicate Canonical(s: string) {
    s != [] && AllDigits(s) && (s[0] == '0' ==> |s| == 1)
  }

  lemma {:induction false} FormatNatRoundTrip(n: nat)
    ensures DigitsValue(FormatNat(n)) == n
  {
    var s := FormatNat(n);
    if n < 10 {
      assert s[..|s| - 1] == [];
    } else {
      assert s[..|s| - 1] == FormatNat(n / 10);
      FormatNatRoundTrip(n / 10);
    }
  }

  lemma {:induction false} LeadingDigitPositive(s: string)
    requires s != [] && AllDigits(s) && s[0] != '0'
    ensures DigitsValue(s) >= 1
  {
    if |s| > 1 {
      LeadingDigitPositive(s[..|s| - 1]);
    }
  }

  /** FormatNat and DigitsValue are inverse on canonical digit strings. */
  lemma {:induction false} CanonicalRoundTrip(s: string)
    requires Canonical(s)
    ensures FormatNat(DigitsValue(s)) == s
  {
    if |s| > 1 {
      var p := s[..|s| - 1];
      LeadingDigitPositive(p);
      CanonicalRoundTrip(p);
      var n := DigitsValue(s);
      assert n / 10 == DigitsValue(p) && n % 10 == DigitValue(s[|s| - 1]);
      assert s == p + [s[|s| - 1]];
    }
  }

  /** A leading '0' does not change the value of a digit string. */
  lemma {:induction false} LeadingZero(s: string)
    requires AllDigits(s)
    ensures AllDigits("0" + s) && DigitsValue("0" + s) == DigitsValue(s)
  {
    var t := "0" + s;
    if s == [] {
      assert t[..|t| - 1] == [];
    } else {
      assert t[..|t| - 1] == "0" + s[..|s| - 1];
      LeadingZero(s[..|s| - 1]);
    }
  }

  /** strconv.ParseUint(s, 10, 64): no sign, no separators, at least one digit, below 2^64. */
  function ParseUint64(s: string): Option<uint64>
  {
    if s == [] || !AllDigits(s) then None
    else if DigitsValue(s) >= U64_LIMIT then None
    else Some(DigitsValue(s))
  }

  /** The index of the first c in s, or |s| when there is none. */
  function IndexOf(s: string, c: char): (k: nat)
    ensures k <= |s|
    ensures k < |s| ==> s[k] == c
    ensures forall i :: 0 <= i < k ==> s[i] != c
  {
    if s == [] || s[0] == c then 0 else 1 + IndexOf(s[1..], c)
  }

  /** The exact value of the decimal "whole.fraction". */
  function DecimalValue(whole: string, fraction: string): real
    requires AllDigits(whole) && AllDigits(fraction)
  {
    DigitsValue(whole) as real + DigitsValue(fraction) as real / Pow10(|fraction|) as real
  }

  /** An unsigned plain decimal: digits, optionally '.' and digits, with at least one digit in all. */
  function ParseUnsigned(u: string): Option<real>
  {
    var dot := IndexOf(u, '.');
    var whole := u[..dot];
    var fraction := if dot < |u| then u[dot + 1..] else [];
    if AllDigits(whole) && AllDigits(fraction) && |whole| + |fraction| > 0
    then Some(DecimalValue(whole, fraction))
    else None
  }

  /** big.Rat.SetString restricted to plain decimals with an optional sign. */
  function ParseAmount(s: string): (r: Option<real>)
  {
    if |s| > 0 && s[0] == '-' then
      match ParseUnsigned(s[1..])
      case Some(m) => Some(-m)
      case None => None
    else if |s| > 0 && s[0] == '+' then ParseUnsigned(s[1..])
    else ParseUnsigned(s)
  }

  /** A whole number of cents written with exactly two fraction digits, such as "125.50". */
  function FormatCents(cents: nat): (s: string)
    ensures |s| >= 4 && s[|s| - 3] == '.'
  {
    FormatNat(cents / 100) + "." + [DigitChar(cents / 10 % 10), DigitChar(cents % 10)]
  }

  /** An unsigned "whole.fraction" string parses to whole + fraction / 10^|fraction|. */
  lemma ParsePlainDecimal(whole: string, fraction: string)
    requires whole != [] && AllDigits(whole) && AllDigits(fraction)
    ensures ParseAmount(whole + "." + fraction) == Some(DecimalValue(whole, fraction))
  {
    var s := whole + "." + fraction;
    assert s[0] == whole[0];
    assert IndexOf(s, '.') == |whole| by {
      assert forall i :: 0 <= i < |whole| ==> s[i] == whole[i] && s[i] != '.';
      assert s[|whole|] == '.';
    }
    assert s[..|whole|] == whole;
    assert s[|whole| + 1..] == fraction;
  }

  lemma TwoDigitsValue(cents: nat)
    ensures AllDigits([DigitChar(cents / 10 % 10), DigitChar(cents % 10)])
    ensures DigitsValue([DigitChar(cents / 10 % 10), DigitChar(cents % 10)]) == cents % 100
  {
    var f := [DigitChar(cents / 10 % 10), DigitChar(cents % 10)];
    assert f[..1] == [f[0]] && [f[0]][..0] == [];
    assert DigitsValue([f[0]]) == cents / 10 % 10;
  }

  lemma {:induction false} ParseFormatCents(cents: nat)
    ensures ParseAmount(FormatCents(cents)) == Some(cents as real / 100.0)
  {
    var w := FormatNat(cents / 100);
    var f := [DigitChar(cents / 10 % 10), DigitChar(cents % 10)];
    assert FormatCents(cents) == w + "." + f;
    TwoDigitsValue(cents);
    ParsePlainDecimal(w, f);
    FormatNatRoundTrip(cents / 100);
    assert Pow10(|f|) == 100;
    var q, m := cents / 100, cents % 100;
    assert cents == 100 * q + m;
    assert (cents as real) == 100.0 * (q as real) + (m as real);
  }
}
