/**
 * `round(x, 2)` and `format(x, '06.2f')`, which the segment serialiser
 * prints coordinates with, over exact reals.
 */
module Fixed {
  import opened Numerals

  /** Python's `round(x)`: the nearest integer, ties to the even one. */
  function RoundHalfEven(x: real): (r: int)
    ensures -0.5 <= x - r as real <= 0.5
    ensures (x - r as real == 0.5 || x - r as real == -0.5) ==> r % 2 == 0
  {
    var f := x.Floor;
    var rest := x - f as real;
    if rest > 0.5 then f + 1
    else if rest < 0.5 then f
    else if f % 2 == 0 then f else f + 1
  }

  /** `round(x, 2)` in hundredths. */
  function Cents(x: real): int {
    RoundHalfEven(x * 100.0)
  }

  /** The digits of a non-negative number of hundredths, with the decimal point. */
  function FixedBody(m: nat): string {
    NatToDigits(m / 100) + "." + TwoDigits(m % 100)
  }

  /** How many zeros `format` puts in front of `n` characters to reach `width`. */
  function PadCount(n: nat, width: nat): nat {
    if n < width then width - n else 0
  }

  /**
   * The `06.2f` text of `c` hundredths: zero padding to six characters,
   * counting the minus sign of a negative value.
   */
  function FormatCents(c: int): string {
    if c < 0 then
      var body := FixedBody(-c);
      "-" + Zeros(PadCount(|body|, 5)) + body
    else
      var body := FixedBody(c);
      Zeros(PadCount(|body|, 6)) + body
  }

  /**
   * `format(round(x, 2), '06.2f')`: at least six characters, every one a
   * digit, the point or the minus sign.
   */
  function FormatFixed2(x: real): (r: string)
    ensures |r| >= 6
    ensures forall i :: 0 <= i < |r| ==> IsDigit(r[i]) || r[i] == '.' || r[i] == '-'
  {
    FormatCents(Cents(x))
  }

  /**
   * A coordinate that rounds into `[0, 999.99]` prints as exactly three
   * digits, a point and two digits (the shape the grammar expects), and
   * those digits denote the rounded coordinate in hundredths.
   */
  lemma FormatFixed2Shape(x: real)
    requires 0 <= Cents(x) < 100000
    ensures var r := FormatFixed2(x);
      && |r| == 6 && r[3] == '.'
      && AllDigits(r[..3]) && AllDigits(r[4..])
      && DigitsValue(r[..3]) * 100 + DigitsValue(r[4..]) == Cents(x)
  {
    var m := Cents(x);
    var d := NatToDigits(m / 100);
    NatToDigitsFits(m / 100, 3);
    var z := Zeros(3 - |d|);
    var r := z + d + "." + TwoDigits(m % 100);
    assert r == FormatFixed2(x);
    assert r[..3] == z + d;
    assert r[4..] == TwoDigits(m % 100);
    LeadingZeros(3 - |d|, d);
  }
}
