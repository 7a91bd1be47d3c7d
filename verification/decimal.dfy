/** Decimal rendering of integers, as Rust's `{}` formatter writes them, and
    its inverse. */
module Decimal {
  import opened Wrappers

  predicate IsDigit(c: char) {
    '0' <= c <= '9'
  }

  predicate AllDigits(s: string) {
    forall i :: 0 <= i < |s| ==> IsDigit(s[i])
  }

  function DigitChar(d: nat): (c: char)
    requires d < 10
    ensures IsDigit(c)
  {
    (48 + d) as char
  }

  function DigitValue(c: char): (d: nat)
    requires IsDigit(c)
    ensures d < 10 && DigitChar(d) == c
  {
    c as int - 48
  }

  function Pow10(n: nat): (r: nat)
    ensures r >= 1
  {
    if n == 0 then 1 else 10 * Pow10(n - 1)
  }

  /** The value of a run of decimal digits, most significant first. */
  function ParseDigits(s: string): nat
    requires AllDigits(s)
  {
    if |s| == 0 then 0 else ParseDigits(s[..|s| - 1]) * 10 + DigitValue(s[|s| - 1])
  }

  /** Shortest decimal digits of `n`: no leading zero except for `0` itself. */
  function NatToDigits(n: nat): (r: string)
    ensures |r| >= 1 && AllDigits(r)
    ensures n > 0 ==> r[0] != '0'
  {
    if n < 10 then [DigitChar(n)] else NatToDigits(n / 10) + [DigitChar(n % 10)]
  }

  /** Exactly `width` digits, zero-padded on the left, as `{:0width$}` writes. */
  function PadDigits(n: nat, width: nat): (r: string)
    requires n < Pow10(width)
    ensures |r| == width && AllDigits(r)
  {
    if width == 0 then "" else PadDigits(n / 10, width - 1) + [DigitChar(n % 10)]
  }

  /** Rust's `Display` for a signed integer. */
  function IntToDecimal(x: int): string {
    if x < 0 then "-" + NatToDigits(-x) else NatToDigits(x)
  }

  /** Reads back what `IntToDecimal` writes: an optional `-` and at least one digit. */
  function ParseDecimal(s: string): Option<int> {
    if |s| > 1 && s[0] == '-' && AllDigits(s[1..]) then Some(0 - ParseDigits(s[1..]) as int)
    else if |s| > 0 && AllDigits(s) then Some(ParseDigits(s))
    else None
  }

  lemma {:induction false} ParseDigitsSnoc(s: string, c: char)
    requires AllDigits(s) && IsDigit(c)
    ensures AllDigits(s + [c])
    ensures ParseDigits(s + [c]) == ParseDigits(s) * 10 + DigitValue(c)
  {
    assert (s + [c])[..|s|] == s;
  }

  lemma {:induction false} ParseNatToDigits(n: nat)
    ensures ParseDigits(NatToDigits(n)) == n
  {
    if n < 10 {
      assert NatToDigits(n) == [] + [DigitChar(n)];
      ParseDigitsSnoc([], DigitChar(n));
    } else {
      ParseNatToDigits(n / 10);
      ParseDigitsSnoc(NatToDigits(n / 10), DigitChar(n % 10));
    }
  }

  lemma {:induction false} ParsePadDigits(n: nat, width: nat)
    requires n < Pow10(width)
    ensures ParseDigits(PadDigits(n, width)) == n
  {
    if width == 0 {
    } else {
      ParsePadDigits(n / 10, width - 1);
      ParseDigitsSnoc(PadDigits(n / 10, width - 1), DigitChar(n % 10));
    }
  }

  /** The decimal rendering loses nothing: parsing it gives back the integer. */
  lemma ParseIntToDecimal(x: int)
    ensures ParseDecimal(IntToDecimal(x)) == Some(x)
  {
    if x < 0 {
      var d := NatToDigits(-x);
      assert ("-" + d)[1..] == d;
      ParseNatToDigits(-x);
    } else {
      ParseNatToDigits(x);
    }
  }

  /** Hence the rendering is injective. */
  lemma IntToDecimalInjective(x: int, y: int)
    requires IntToDecimal(x) == IntToDecimal(y)
    ensures x == y
  {
    ParseIntToDecimal(x);
    ParseIntToDecimal(y);
  }
}
