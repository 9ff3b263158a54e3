/** Decimal digit strings: reading them as natural numbers, writing natural
    numbers as them, and zero-padding to a fixed width (Python's `{i:04d}`). */
module Digits {

  predicate IsDigit(c: char) {
    '0' <= c <= '9'
  }

  predicate AllDigits(s: string) {
    forall i :: 0 <= i < |s| ==> IsDigit(s[i])
  }

  function DigitValue(c: char): (d: nat)
    requires IsDigit(c)
    ensures d < 10
  {
    c as int - '0' as int
  }

  function DigitChar(d: nat): (c: char)
    requires d < 10
    ensures IsDigit(c) && DigitValue(c) == d
  {
    ('0' as int + d) as char
  }

  function Pow10(k: nat): (p: nat)
    ensures p >= 1
  {
    if k == 0 then 1 else 10 * Pow10(k - 1)
  }

  lemma {:induction false} Pow10Monotone(j: nat, k: nat)
    requires j <= k
    ensures Pow10(j) <= Pow10(k)
  {
    if j < k {
      Pow10Monotone(j, k - 1);
    }
  }

  /** The number a digit string denotes, most significant digit first. */
  function DigitsValue(s: string): nat
    requires AllDigits(s)
  {
    if |s| == 0 then 0 else 10 * DigitsValue(s[..|s| - 1]) + DigitValue(s[|s| - 1])
  }

  lemma DigitsValueAppend(s: string, c: char)
    requires AllDigits(s) && IsDigit(c)
    ensures AllDigits(s + [c])
    ensures DigitsValue(s + [c]) == 10 * DigitsValue(s) + DigitValue(c)
  {
    assert (s + [c])[..|s|] == s;
  }

  function Zeros(k: nat): (z: string)
    ensures |z| == k && AllDigits(z)
    ensures forall i :: 0 <= i < k ==> z[i] == '0'
  {
    seq(k, _ => '0')
  }

  lemma {:induction false} ZerosValue(k: nat)
    ensures DigitsValue(Zeros(k)) == 0
  {
    if k > 0 {
      assert Zeros(k)[..k - 1] == Zeros(k - 1);
      ZerosValue(k - 1);
    }
  }

  /** Leading zeros do not change the number a digit string denotes. */
  lemma {:induction false} LeadingZerosVanish(k: nat, s: string)
    requires AllDigits(s)
    ensures AllDigits(Zeros(k) + s)
    ensures DigitsValue(Zeros(k) + s) == DigitsValue(s)
  {
    var t := Zeros(k) + s;
    assert AllDigits(t) by {
      forall i | 0 <= i < |t|
        ensures IsDigit(t[i])
      {
        if i < k { assert t[i] == Zeros(k)[i]; } else { assert t[i] == s[i - k]; }
      }
    }
    if |s| == 0 {
      assert t == Zeros(k);
      ZerosValue(k);
    } else {
      assert t[..|t| - 1] == Zeros(k) + s[..|s| - 1];
      LeadingZerosVanish(k, s[..|s| - 1]);
    }
  }

  /** The shortest decimal text of `n`: Python's `str(n)`. Reading it back
      gives `n`, it has a leading zero only for `n == 0`, and its length is
      the number of decimal digits of `n`. */
  function NatToText(n: nat): (s: string)
    ensures |s| > 0 && AllDigits(s) && DigitsValue(s) == n
    ensures s[0] == '0' <==> n == 0
    ensures |s| > 1 ==> Pow10(|s| - 1) <= n
  {
    if n < 10 then [DigitChar(n)]
    else
      var t := NatToText(n / 10);
      DigitsValueAppend(t, DigitChar(n % 10));
      t + [DigitChar(n % 10)]
  }

  /** Python's `f"{n:0{width}d}"` for a non-negative `n`: the decimal text of
      `n`, preceded by zeros up to `width` characters, never truncated. */
  function ZeroPad(n: nat, width: nat): (s: string)
    ensures AllDigits(s) && DigitsValue(s) == n
    ensures |s| == if |NatToText(n)| >= width then |NatToText(n)| else width
    ensures |s| > |NatToText(n)| ==> s[0] == '0'
  {
    var t := NatToText(n);
    if |t| >= width then t
    else
      LeadingZerosVanish(width - |t|, t);
      Zeros(width - |t|) + t
  }

  /** A number below 10^width pads to exactly `width` digits. */
  lemma ZeroPadWidth(n: nat, width: nat)
    requires 0 < width && n < Pow10(width)
    ensures |ZeroPad(n, width)| == width
  {
    var t := NatToText(n);
    if |t| > width {
      Pow10Monotone(width, |t| - 1);
    }
  }

  /** Zero-padding is injective: the padded text determines the number. */
  lemma ZeroPadInjective(a: nat, b: nat, width: nat)
    requires ZeroPad(a, width) == ZeroPad(b, width)
    ensures a == b
  {
  }
}
