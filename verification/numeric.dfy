/** Text-to-number conversion as the dashboard relies on it: the decimal
    reading `pd.to_numeric` applies to `TotalCharges` cells, and Python's
    `int(...)` applied to the SMTP port setting. */
module Numeric {
  import opened Wrappers
  import opened Digits

  /** Position of the first `c` in `s`, or `|s|` when there is none. */
  function IndexOfChar(s: string, c: char): (k: nat)
    ensures k <= |s|
    ensures k < |s| ==> s[k] == c
    ensures forall i :: 0 <= i < k ==> s[i] != c
  {
    if |s| == 0 then 0
    else if s[0] == c then 0
    else 1 + IndexOfChar(s[1..], c)
  }

  /** The characters a decimal numeral may contain. */
  predicate NumeralChar(c: char) {
    IsDigit(c) || c == '.' || c == '+' || c == '-'
  }

  /** Text that has a chance of being read as a number: only numeral
      characters, and at least one digit among them. */
  predicate LooksNumeric(s: string) {
    && (forall i :: 0 <= i < |s| ==> NumeralChar(s[i]))
    && (exists i :: 0 <= i < |s| && IsDigit(s[i]))
  }

  /** The value of `whole.frac` read in base ten. */
  function DecimalValue(whole: string, frac: string): (x: real)
    requires AllDigits(whole) && AllDigits(frac)
    ensures x >= 0.0
  {
    DigitsValue(whole) as real + DigitsValue(frac) as real / Pow10(|frac|) as real
  }

  /** An unsigned decimal: digits, optionally a point and more digits, with
      at least one digit on some side of the point (`5`, `5.`, `.5`, `29.85`). */
  function ParseUnsigned(s: string): (r: Option<real>)
    ensures r.Some? ==> forall i :: 0 <= i < |s| ==> IsDigit(s[i]) || s[i] == '.'
    ensures r.Some? ==> exists i :: 0 <= i < |s| && IsDigit(s[i])
    ensures r.Some? ==> r.value >= 0.0
  {
    var k := IndexOfChar(s, '.');
    var whole := s[..k];
    var frac := if k < |s| then s[k + 1..] else "";
    if AllDigits(whole) && AllDigits(frac) && |whole| + |frac| > 0 then
      assert forall i :: 0 <= i < |s| ==> IsDigit(s[i]) || s[i] == '.' by {
        forall i | 0 <= i < |s|
          ensures IsDigit(s[i]) || s[i] == '.'
        {
          if i < k { assert s[i] == whole[i]; }
          else if i > k { assert s[i] == frac[i - k - 1]; }
        }
      }
      if |whole| > 0 then
        assert IsDigit(s[0]) by { assert s[0] == whole[0]; }
        Some(DecimalValue(whole, frac))
      else
        assert IsDigit(s[k + 1]) by { assert s[k + 1] == frac[0]; }
        Some(DecimalValue(whole, frac))
    else None
  }

  /** A decimal numeral with an optional leading sign; `None` for anything
      that is not one, which `pd.to_numeric(..., errors="coerce")` turns
      into NaN. */
  function ParseDecimal(s: string): (r: Option<real>)
    ensures r.Some? ==> LooksNumeric(s)
  {
    if |s| > 0 && (s[0] == '+' || s[0] == '-') then
      match ParseUnsigned(s[1..])
      case None => None
      case Some(x) =>
        assert forall i :: 0 <= i < |s| ==> NumeralChar(s[i]) by {
          forall i | 0 <= i < |s|
            ensures NumeralChar(s[i])
          {
            if i > 0 { assert s[i] == s[1..][i - 1]; }
          }
        }
        var j :| 0 <= j < |s[1..]| && IsDigit(s[1..][j]);
        assert IsDigit(s[j + 1]);
        Some(if s[0] == '-' then -x else x)
    else ParseUnsigned(s)
  }

  /** `whole.frac` reads as its base-ten value. */
  lemma DecimalTextParses(whole: string, frac: string)
    requires AllDigits(whole) && AllDigits(frac) && |whole| + |frac| > 0
    ensures ParseDecimal(whole + "." + frac) == Some(DecimalValue(whole, frac))
  {
    var s := whole + "." + frac;
    var k := IndexOfChar(s, '.');
    assert s[|whole|] == '.';
    assert forall i :: 0 <= i < |whole| ==> s[i] == whole[i];
    assert k == |whole|;
    assert s[..k] == whole;
    assert s[k + 1..] == frac;
    assert s[0] != '+' && s[0] != '-' by {
      if |whole| > 0 { assert s[0] == whole[0]; }
    }
  }

  /** A non-empty run of digits, leading zeros included, reads as its
      base-ten value. */
  lemma DigitTextParses(d: string)
    requires |d| > 0 && AllDigits(d)
    ensures ParseDecimal(d) == Some(DigitsValue(d) as real)
  {
    var k := IndexOfChar(d, '.');
    assert forall i :: 0 <= i < |d| ==> d[i] != '.' by {
      forall i | 0 <= i < |d| ensures d[i] != '.' { assert IsDigit(d[i]); }
    }
    assert k == |d| && d[..k] == d;
    assert IsDigit(d[0]);
    assert DecimalValue(d, "") == DigitsValue(d) as real;
    assert ParseUnsigned(d) == Some(DigitsValue(d) as real);
  }

  /** The decimal text of a natural number reads back as that number. */
  lemma IntegerTextParses(n: nat)
    ensures ParseDecimal(NatToText(n)) == Some(n as real)
  {
    DigitTextParses(NatToText(n));
  }

  /** A leading minus negates an unsigned numeral. */
  lemma NegatedTextParses(t: string)
    requires ParseUnsigned(t).Some?
    ensures ParseDecimal("-" + t) == Some(-ParseUnsigned(t).value)
  {
    assert ("-" + t)[1..] == t;
  }

  /** A leading plus leaves an unsigned numeral's value as it is. */
  lemma PlusTextParses(t: string)
    requires ParseUnsigned(t).Some?
    ensures ParseDecimal("+" + t) == ParseUnsigned(t)
  {
    assert ("+" + t)[1..] == t;
  }

  // ---------------------------------------------------------------------
  // The numeral grammar, written independently of the parser
  // ---------------------------------------------------------------------

  /** `digits`, or `digits.digits` with a digit on at least one side. */
  predicate IsUnsignedNumeral(s: string) {
    || (|s| > 0 && AllDigits(s))
    || (|s| > 1 && exists k :: 0 <= k < |s| && s[k] == '.' && AllDigits(s[..k]) && AllDigits(s[k + 1..]))
  }

  /** An unsigned numeral with an optional leading `+` or `-`. */
  predicate IsNumeral(s: string) {
    || IsUnsignedNumeral(s)
    || (|s| > 0 && (s[0] == '+' || s[0] == '-') && IsUnsignedNumeral(s[1..]))
  }

  /** The only point of a text whose two sides are digits is its first one. */
  lemma PointIsFirst(s: string, k: nat)
    requires k < |s| && s[k] == '.' && AllDigits(s[..k])
    ensures IndexOfChar(s, '.') == k
  {
    assert forall i :: 0 <= i < k ==> s[i] == s[..k][i];
  }

  /** The unsigned parser accepts exactly the unsigned numerals. */
  lemma ParseUnsignedAccepts(s: string)
    ensures ParseUnsigned(s).Some? <==> IsUnsignedNumeral(s)
  {
    if ParseUnsigned(s).Some? {
      AcceptedIsNumeral(s);
    }
    if IsUnsignedNumeral(s) {
      NumeralIsAccepted(s);
    }
  }

  /** What the unsigned parser accepts has the numeral's shape. */
  lemma AcceptedIsNumeral(s: string)
    requires ParseUnsigned(s).Some?
    ensures IsUnsignedNumeral(s)
  {
    var k := IndexOfChar(s, '.');
    if k == |s| {
      assert s[..k] == s;
    } else {
      assert AllDigits(s[..k]) && AllDigits(s[k + 1..]);
    }
  }

  /** Every unsigned numeral is accepted. */
  lemma NumeralIsAccepted(s: string)
    requires IsUnsignedNumeral(s)
    ensures ParseUnsigned(s).Some?
  {
    if |s| > 1 && exists k :: 0 <= k < |s| && s[k] == '.' && AllDigits(s[..k]) && AllDigits(s[k + 1..]) {
      var k :| 0 <= k < |s| && s[k] == '.' && AllDigits(s[..k]) && AllDigits(s[k + 1..]);
      PointIsFirst(s, k);
    } else {
      DigitTextParses(s);
    }
  }

  /** `to_numeric` reads exactly the numerals: an optional sign, digits and
      at most one point, with at least one digit. Everything else, the
      numeral characters in a wrong order included (`1.2.3`, `1-2`, `+-5`),
      is rejected. */
  lemma ParseDecimalAccepts(s: string)
    ensures ParseDecimal(s).Some? <==> IsNumeral(s)
  {
    ParseUnsignedAccepts(s);
    if |s| > 0 {
      ParseUnsignedAccepts(s[1..]);
      if s[0] == '+' || s[0] == '-' {
        assert !IsDigit(s[0]);
      }
    }
  }

  /** Python's `int(s)` on a string: an optional sign and at least one digit. */
  function ParseInteger(s: string): (r: Option<int>)
    ensures r.Some? <==> |s| > 0 && (AllDigits(s) || ((s[0] == '+' || s[0] == '-') && |s| > 1 && AllDigits(s[1..])))
    ensures r.Some? && AllDigits(s) ==> r.value == DigitsValue(s)
    ensures r.Some? && s[0] == '+' ==> r.value == DigitsValue(s[1..])
    ensures r.Some? && s[0] == '-' ==> r.value == -(DigitsValue(s[1..]) as int)
  {
    if |s| > 0 && (s[0] == '+' || s[0] == '-') then
      if |s| > 1 && AllDigits(s[1..]) then
        Some(if s[0] == '-' then -(DigitsValue(s[1..]) as int) else DigitsValue(s[1..]))
      else None
    else if |s| > 0 && AllDigits(s) then Some(DigitsValue(s))
    else None
  }

  /** A port setting with leading zeros reads as its base-ten value. */
  lemma PortWithLeadingZeros()
    ensures ParseInteger("0587") == Some(587)
  {
    assert DigitsValue("0587"[..3]) == 58 by {
      assert DigitsValue("05") == 5 by { assert "05"[..1] == "0"; }
      assert "0587"[..3][..2] == "05";
    }
  }

  /** The decimal text of a natural number reads back as that number. */
  lemma IntegerTextRoundTrip(n: nat)
    ensures ParseInteger(NatToText(n)) == Some(n)
  {
    var s := NatToText(n);
    assert IsDigit(s[0]);
  }
}
