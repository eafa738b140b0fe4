/** Decimal text as the printf family produces it for %d, %lld and %.Nf in the C locale,
    and the reading of such text back into a number. */
module Decimals {

  /** A finite number in fixed-point form: (-1 if neg) * mag / 10^places.
      The sign is separate because printf writes "-0.00" for a small negative value. */
  datatype Decimal = Decimal(neg: bool, mag: nat, places: nat)

  predicate IsDigit(c: char) {
    '0' <= c <= '9'
  }

  predicate AllDigits(s: string) {
    forall i :: 0 <= i < |s| ==> IsDigit(s[i])
  }

  function DigitChar(d: nat): (c: char)
    requires d < 10
    ensures IsDigit(c) && c as int - '0' as int == d
  {
    (d + '0' as int) as char
  }

  /** The shortest decimal text of n, as %d writes it. */
  function Digits(n: nat): string {
    if n < 10 then [DigitChar(n)] else Digits(n / 10) + [DigitChar(n % 10)]
  }

  /** The last w decimal digits of n, zero padded, as %.Nf writes a fraction. */
  function Padded(n: nat, w: nat): string {
    if w == 0 then "" else Padded(n / 10, w - 1) + [DigitChar(n % 10)]
  }

  function Sign(neg: bool): string {
    if neg then "-" else ""
  }

  /** n without its last k decimal digits, that is, n / 10^k. */
  function Shift(n: nat, k: nat): nat {
    if k == 0 then n else Shift(n / 10, k - 1)
  }

  function Whole(d: Decimal): string {
    Digits(Shift(d.mag, d.places))
  }

  function Fraction(d: Decimal): string {
    if d.places == 0 then "" else "." + Padded(d.mag, d.places)
  }

  function Format(d: Decimal): string {
    Sign(d.neg) + (Whole(d) + Fraction(d))
  }

  function OfInt(n: int): Decimal {
    if n < 0 then Decimal(true, -n, 0) else Decimal(false, n, 0)
  }

  function FormatInt(n: int): string {
    Format(OfInt(n))
  }

  /** The number a run of digits denotes, most significant digit first. */
  function Value(s: string): nat
    requires AllDigits(s)
  {
    if s == "" then 0
    else 10 * Value(s[..|s| - 1]) + (s[|s| - 1] as int - '0' as int)
  }

  lemma {:induction false} ValueSnoc(s: string, c: char)
    requires AllDigits(s) && IsDigit(c)
    ensures AllDigits(s + [c])
    ensures Value(s + [c]) == 10 * Value(s) + (c as int - '0' as int)
  {
    assert (s + [c])[..|s + [c]| - 1] == s;
  }

  /** Reading the digits of n gives n back, and there is no superfluous leading zero. */
  lemma {:induction false} DigitsValue(n: nat)
    ensures AllDigits(Digits(n)) && Value(Digits(n)) == n
    ensures |Digits(n)| >= 1
    ensures |Digits(n)| > 1 ==> Digits(n)[0] != '0'
    ensures n > 0 ==> Digits(n)[0] != '0'
  {
    if n < 10 {
      assert [DigitChar(n)][..0] == "";
    } else {
      DigitsValue(n / 10);
      ValueSnoc(Digits(n / 10), DigitChar(n % 10));
    }
  }

  lemma {:induction false} PaddedDigits(n: nat, w: nat)
    ensures |Padded(n, w)| == w && AllDigits(Padded(n, w))
  {
    if w > 0 {
      PaddedDigits(n / 10, w - 1);
    }
  }

  /** The digits before and after the point together denote the whole magnitude. */
  lemma {:induction false} SplitValue(n: nat, w: nat)
    ensures AllDigits(Digits(Shift(n, w)) + Padded(n, w))
    ensures Value(Digits(Shift(n, w)) + Padded(n, w)) == n
  {
    if w == 0 {
      DigitsValue(n);
      assert Digits(n) + "" == Digits(n);
    } else {
      var front := Digits(Shift(n / 10, w - 1)) + Padded(n / 10, w - 1);
      SplitValue(n / 10, w - 1);
      ValueSnoc(front, DigitChar(n % 10));
      assert Digits(Shift(n, w)) + Padded(n, w) == front + [DigitChar(n % 10)];
    }
  }
}
