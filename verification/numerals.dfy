/**
 * Decimal numerals: the digits of a natural number, Python's `int(text)` and
 * `float(text)` on plain decimal text, and the facts about them that
 * the leaf reducers and the coordinate format rely on.
 */
module Numerals {
  import opened Wrappers
  import opened Text

  predicate IsDigit(c: char) {
    '0' <= c <= '9'
  }

  predicate AllDigits(s: string) {
    forall i :: 0 <= i < |s| ==> IsDigit(s[i])
  }

  function DigitValue(c: char): nat
    requires IsDigit(c)
  {
    c as int - '0' as int
  }

  function DigitChar(d: nat): (c: char)
    requires d < 10
    ensures IsDigit(c) && DigitValue(c) == d
  {
    ('0' as int + d) as char
  }

  function Pow10(k: nat): (r: nat)
    ensures r >= 1
  {
    if k == 0 then 1 else 10 * Pow10(k - 1)
  }

  /** The number a string of decimal digits denotes (leading zeros allowed). */
  function DigitsValue(s: string): nat
    requires AllDigits(s)
  {
    if s == [] then 0 else DigitsValue(s[..|s| - 1]) * 10 + DigitValue(s[|s| - 1])
  }

  /**
   * The shortest decimal numeral of `n` (Python's `str(n)`): digits only,
   * no leading zero, denoting `n`, and exactly as long as `n` needs.
   */
  function NatToDigits(n: nat): (r: string)
    ensures |r| >= 1 && AllDigits(r)
    ensures DigitsValue(r) == n
    ensures n > 0 ==> r[0] != '0'
    decreases n
  {
    if n < 10 then [DigitChar(n)]
    else
      var r := NatToDigits(n / 10) + [DigitChar(n % 10)];
      assert r[..|r| - 1] == NatToDigits(n / 10);
      r
  }

  /** The numeral of `n` has exactly as many digits as `n` needs. */
  lemma {:induction false} NatToDigitsLength(n: nat)
    ensures n < Pow10(|NatToDigits(n)|)
    ensures |NatToDigits(n)| > 1 ==> Pow10(|NatToDigits(n)| - 1) <= n
    decreases n
  {
    if n >= 10 {
      NatToDigitsLength(n / 10);
      assert |NatToDigits(n)| == |NatToDigits(n / 10)| + 1;
    }
  }

  /** `k` zero digits. */
  function Zeros(k: nat): (r: string)
    ensures |r| == k && AllDigits(r)
    ensures forall i :: 0 <= i < k ==> r[i] == '0'
  {
    seq(k, i => '0')
  }

  /** Leading zeros do not change the value of a numeral. */
  lemma {:induction false} LeadingZeros(k: nat, s: string)
    requires AllDigits(s)
    ensures AllDigits(Zeros(k) + s)
    ensures DigitsValue(Zeros(k) + s) == DigitsValue(s)
    decreases |s|
  {
    if s == [] {
      ZerosValue(k);
      assert Zeros(k) + s == Zeros(k);
    } else {
      LeadingZeros(k, s[..|s| - 1]);
      assert (Zeros(k) + s)[..|Zeros(k) + s| - 1] == Zeros(k) + s[..|s| - 1];
    }
  }

  lemma {:induction false} ZerosValue(k: nat)
    ensures DigitsValue(Zeros(k)) == 0
  {
    if k > 0 {
      ZerosValue(k - 1);
      assert Zeros(k)[..k - 1] == Zeros(k - 1);
    }
  }

  /** A numeral of at most `k` digits denotes a number below `10^k`. */
  lemma {:induction false} DigitsValueBound(s: string)
    requires AllDigits(s)
    ensures DigitsValue(s) < Pow10(|s|)
  {
    if s != [] {
      DigitsValueBound(s[..|s| - 1]);
    }
  }

  /** Two digits, zero-padded: `d` for `d < 100`. */
  function TwoDigits(d: nat): (r: string)
    requires d < 100
    ensures |r| == 2 && AllDigits(r) && DigitsValue(r) == d
  {
    var r := [DigitChar(d / 10), DigitChar(d % 10)];
    assert r[..1] == [DigitChar(d / 10)];
    assert [DigitChar(d / 10)][..0] == [];
    assert DigitsValue(r[..1]) == d / 10;
    r
  }

  // ---------------------------------------------------------------------
  // int(text) and float(text)

  /** A leading minus or plus sign: whether it negates, and what follows it. */
  function SplitSign(t: string): (r: (bool, string))
    ensures r.1 == t || (|t| > 0 && r.1 == t[1..] && (t[0] == '-' || t[0] == '+'))
    ensures r.0 <==> |t| > 0 && t[0] == '-'
  {
    if t != [] && t[0] == '-' then (true, t[1..])
    else if t != [] && t[0] == '+' then (false, t[1..])
    else (false, t)
  }

  /**
   * Python's `int(text)` on base-10 text: white space around an optional
   * sign and at least one ASCII digit; anything else raises `ValueError`
   * (`None` here).
   */
  function ParseInt(s: string): Option<int> {
    var signed := SplitSign(Strip(s));
    if signed.1 != [] && AllDigits(signed.1) then
      var v: int := DigitsValue(signed.1);
      Some(if signed.0 then -v else v)
    else None
  }

  /** Digits with an optional decimal point, at least one digit in all. */
  function ParseUnsignedDecimal(t: string): Option<real> {
    var k := IndexOf(t, '.');
    var whole := t[..k];
    var fraction := if k < |t| then t[k + 1..] else "";
    if AllDigits(whole) && AllDigits(fraction) && (whole != [] || fraction != []) then
      Some(DigitsValue(whole) as real + Shift(DigitsValue(fraction) as real, |fraction|))
    else None
  }

  /** `v / 10^k`. */
  function Shift(v: real, k: nat): real {
    if k == 0 then v else Shift(v, k - 1) / 10.0
  }

  /**
   * Python's `float(text)` on plain decimal text: white space around an
   * optional sign, digits and at most one decimal point; anything else
   * raises `ValueError` (`None` here).
   */
  function ParseDecimal(s: string): Option<real> {
    var signed := SplitSign(Strip(s));
    match ParseUnsignedDecimal(signed.1)
    case None => None
    case Some(v) => Some(if signed.0 then -v else v)
  }

  /** Python's `str(n)` for an integer. */
  function IntToString(n: int): (r: string)
    ensures r != [] && r[0] != ' '
  {
    if n < 0 then "-" + NatToDigits(-n) else NatToDigits(n)
  }

  lemma NumeralUnstripped(s: string)
    requires s != [] && AllDigits(s)
    ensures Strip(s) == s
    ensures Strip("-" + s) == "-" + s
  {
    StripUnchanged(s);
    StripUnchanged("-" + s);
  }

  /** `int` of an unsigned numeral that needs no stripping. */
  lemma ParseIntNumeral(d: string)
    requires d != [] && AllDigits(d)
    ensures ParseInt(d) == Some(DigitsValue(d))
  {
    StripUnchanged(d);
    assert IsDigit(d[0]);
    assert SplitSign(d).1 == d;
    ParseIntSigned(d, false);
  }

  /** `int` of a negated numeral that needs no stripping. */
  lemma ParseIntNegatedNumeral(d: string)
    requires d != [] && AllDigits(d)
    ensures ParseInt("-" + d) == Some(-(DigitsValue(d) as int))
  {
    var m := "-" + d;
    NegatedNumeralUnstripped(d);
    assert SplitSign(m) == (true, d) by {
      assert m[1..] == d;
    }
    ParseIntSigned(m, true);
  }

  lemma NegatedNumeralUnstripped(d: string)
    requires d != [] && AllDigits(d)
    ensures Strip("-" + d) == "-" + d
  {
    var m := "-" + d;
    assert m[0] == '-' && m[|m| - 1] == d[|d| - 1] && IsDigit(d[|d| - 1]);
    StripUnchanged(m);
  }

  lemma ParseIntSigned(t: string, negative: bool)
    requires Strip(t) == t
    requires SplitSign(t).0 == negative
    requires SplitSign(t).1 != [] && AllDigits(SplitSign(t).1)
    ensures ParseInt(t) == Some(if negative then -(DigitsValue(SplitSign(t).1) as int) else DigitsValue(SplitSign(t).1))
  {
  }

  /** `int(str(n)) == n`. */
  lemma IntRoundTrip(n: int)
    ensures ParseInt(IntToString(n)) == Some(n)
  {
    if n < 0 {
      ParseIntNegatedNumeral(NatToDigits(-n));
    } else {
      ParseIntNumeral(NatToDigits(n));
    }
  }

  /** `int` accepts leading zeros: `int("03") == 3`. */
  lemma ParseIntZeroPadded(k: nat, n: nat)
    ensures ParseInt(Zeros(k) + NatToDigits(n)) == Some(n)
  {
    LeadingZeros(k, NatToDigits(n));
    ParseIntNumeral(Zeros(k) + NatToDigits(n));
  }

  /** `float` of digits, a point and digits. */
  lemma ParseUnsignedFixed(whole: string, fraction: string)
    requires whole != [] && AllDigits(whole) && AllDigits(fraction)
    ensures ParseUnsignedDecimal(whole + "." + fraction)
      == Some(DigitsValue(whole) as real + Shift(DigitsValue(fraction) as real, |fraction|))
  {
    var t := whole + "." + fraction;
    PointAfterDigits(whole, fraction);
    assert t[..|whole|] == whole;
    assert t[|whole| + 1..] == fraction;
    ParseUnsignedAt(t, whole, fraction);
  }

  lemma ParseUnsignedAt(t: string, whole: string, fraction: string)
    requires whole != [] && AllDigits(whole) && AllDigits(fraction)
    requires IndexOf(t, '.') == |whole| < |t|
    requires t[..|whole|] == whole && t[|whole| + 1..] == fraction
    ensures ParseUnsignedDecimal(t)
      == Some(DigitsValue(whole) as real + Shift(DigitsValue(fraction) as real, |fraction|))
  {
  }

  lemma {:induction false} PointAfterDigits(whole: string, rest: string)
    requires AllDigits(whole)
    ensures IndexOf(whole + "." + rest, '.') == |whole|
  {
    if whole != [] {
      PointAfterDigits(whole[1..], rest);
      assert (whole + "." + rest)[1..] == whole[1..] + "." + rest;
    }
  }

  lemma ParseDecimalSigned(t: string, negative: bool)
    requires Strip(t) == t
    requires SplitSign(t).0 == negative
    requires ParseUnsignedDecimal(SplitSign(t).1).Some?
    ensures ParseDecimal(t) == Some(if negative then -ParseUnsignedDecimal(SplitSign(t).1).value
                                    else ParseUnsignedDecimal(SplitSign(t).1).value)
  {
  }

  /** An optional minus sign before unsigned decimal text that needs no stripping. */
  lemma ParseDecimalNumeral(u: string, v: real)
    requires u != [] && IsDigit(u[0]) && IsDigit(u[|u| - 1])
    requires ParseUnsignedDecimal(u) == Some(v)
    ensures ParseDecimal(u) == Some(v)
    ensures ParseDecimal("-" + u) == Some(-v)
  {
    StripUnchanged(u);
    ParseDecimalSigned(u, false);
    var n := "-" + u;
    assert n[|n| - 1] == u[|u| - 1];
    StripUnchanged(n);
    assert n[1..] == u;
    ParseDecimalSigned(n, true);
  }

  /** Digits, a point and two digits read back as the whole part plus hundredths. */
  lemma TwoDecimals(whole: string, fraction: string)
    requires whole != [] && AllDigits(whole) && |fraction| == 2 && AllDigits(fraction)
    ensures ParseUnsignedDecimal(whole + "." + fraction)
      == Some(DigitsValue(whole) as real + DigitsValue(fraction) as real / 100.0)
  {
    ParseUnsignedFixed(whole, fraction);
    ShiftedHundredths(ParseUnsignedDecimal(whole + "." + fraction),
                      DigitsValue(whole) as real, DigitsValue(fraction) as real);
  }

  lemma ShiftedHundredths(o: Option<real>, w: real, f: real)
    requires o == Some(w + Shift(f, 2))
    ensures o == Some(w + f / 100.0)
  {
    assert Shift(f, 1) == f / 10.0;
  }

  /** A number below `10^k` needs at most `k` digits. */
  lemma {:induction false} NatToDigitsFits(n: nat, k: nat)
    requires 1 <= k && n < Pow10(k)
    ensures |NatToDigits(n)| <= k
    decreases k
  {
    if n >= 10 {
      assert Pow10(1) == 10;
      NatToDigitsFits(n / 10, k - 1);
    }
  }

  /** `float` of digits, a point and two digits. */
  lemma DecimalHundredths(whole: string, fraction: string)
    requires whole != [] && AllDigits(whole) && |fraction| == 2 && AllDigits(fraction)
    ensures ParseDecimal(whole + "." + fraction) == Some(DigitsValue(whole) as real + DigitsValue(fraction) as real / 100.0)
  {
    TwoDecimals(whole, fraction);
    DecimalEnds(whole, fraction, ParseUnsignedDecimal(whole + "." + fraction));
  }

  lemma DecimalEnds(whole: string, fraction: string, o: Option<real>)
    requires whole != [] && AllDigits(whole) && AllDigits(fraction) && fraction != []
    requires ParseUnsignedDecimal(whole + "." + fraction) == o && o.Some?
    ensures ParseDecimal(whole + "." + fraction) == o
  {
    var u := whole + "." + fraction;
    assert u[0] == whole[0] && u[|u| - 1] == fraction[|fraction| - 1];
    ParseDecimalNumeral(u, o.value);
  }
}
