/**
 * Decimal text of integers, as JavaScript prints an integral number
 * (template literals, `JSON.stringify`) and as a JSON number is read back.
 */
module Decimal {
  import opened Wrappers
  import opened JsText

  function DigitChar(d: nat): (c: char)
    requires d < 10
    ensures IsAsciiDigit(c)
  {
    ('0' as int + d) as char
  }

  function DigitValue(c: char): (d: nat)
    requires IsAsciiDigit(c)
    ensures d < 10 && DigitChar(d) == c
  {
    c as int - '0' as int
  }

  /** The shortest decimal text of `n`: no sign, no leading zero. */
  function NatToString(n: nat): (r: string)
    ensures r != [] && AllDigits(r)
    ensures |r| > 1 ==> r[0] != '0'
  {
    if n < 10 then [DigitChar(n)] else NatToString(n / 10) + [DigitChar(n % 10)]
  }

  /** `${i}` for an integral number `i`. */
  function IntToString(i: int): (r: string)
    ensures r != []
    ensures i < 0 <==> r[0] == '-'
  {
    if i < 0 then "-" + NatToString(-i) else NatToString(i)
  }

  /** The value of a run of decimal digits, most significant first. */
  function DigitsValue(ds: string): nat
    requires AllDigits(ds)
  {
    if ds == [] then 0 else DigitsValue(ds[..|ds| - 1]) * 10 + DigitValue(ds[|ds| - 1])
  }

  lemma {:induction false} NatToStringValue(n: nat)
    ensures DigitsValue(NatToString(n)) == n
  {
    if n >= 10 {
      NatToStringValue(n / 10);
      var s := NatToString(n);
      assert s[..|s| - 1] == NatToString(n / 10);
    }
  }

  /** A digit run of two or more digits without a leading zero is worth at least 10. */
  lemma {:induction false} DigitsValueLowerBound(ds: string)
    requires AllDigits(ds) && |ds| > 1 && ds[0] != '0'
    ensures DigitsValue(ds) >= 10
  {
    var init := ds[..|ds| - 1];
    if |init| > 1 {
      DigitsValueLowerBound(init);
    } else {
      assert init[0] == ds[0];
      assert DigitValue(init[0]) >= 1;
    }
  }

  /** Canonical digit runs are exactly the outputs of `NatToString`. */
  lemma {:induction false} CanonicalDigitsRoundTrip(ds: string)
    requires ds != [] && AllDigits(ds) && (|ds| > 1 ==> ds[0] != '0')
    ensures NatToString(DigitsValue(ds)) == ds
  {
    if |ds| > 1 {
      var init := ds[..|ds| - 1];
      var n := DigitsValue(ds);
      DigitsValueLowerBound(ds);
      assert init[0] == ds[0];
      CanonicalDigitsRoundTrip(init);
      assert n / 10 == DigitsValue(init) && n % 10 == DigitValue(ds[|ds| - 1]);
      assert ds == init + [ds[|ds| - 1]];
    }
  }

  /** The number of ASCII digits at the start of `s`. */
  function LeadingDigits(s: string): (k: nat)
    ensures k <= |s| && AllDigits(s[..k])
    ensures k < |s| ==> !IsAsciiDigit(s[k])
  {
    if s != [] && IsAsciiDigit(s[0]) then
      var k := 1 + LeadingDigits(s[1..]);
      assert s[..k] == [s[0]] + s[1..][..k - 1];
      k
    else 0
  }

  /**
   * Reads a non-negative JSON integer from the front of `s`: one or more
   * digits, without a superfluous leading zero. Yields the value and the
   * remaining text.
   */
  function ParseNat(s: string): Option<(nat, string)> {
    var k := LeadingDigits(s);
    if k == 0 || (k > 1 && s[0] == '0') then None
    else Some((DigitsValue(s[..k]), s[k..]))
  }

  lemma {:induction false} LeadingDigitsOfAppend(ds: string, rest: string)
    requires AllDigits(ds)
    requires rest == [] || !IsAsciiDigit(rest[0])
    ensures LeadingDigits(ds + rest) == |ds|
  {
    if ds != [] {
      assert (ds + rest)[1..] == ds[1..] + rest;
      LeadingDigitsOfAppend(ds[1..], rest);
    } else {
      assert ds + rest == rest;
    }
  }

  /** Reading back the decimal text of `n` gives `n` and stops at the next non-digit. */
  lemma ParseNatRoundTrip(n: nat, rest: string)
    requires rest == [] || !IsAsciiDigit(rest[0])
    ensures ParseNat(NatToString(n) + rest) == Some((n, rest))
  {
    var s := NatToString(n);
    LeadingDigitsOfAppend(s, rest);
    assert (s + rest)[..|s|] == s && (s + rest)[|s|..] == rest;
    NatToStringValue(n);
  }

  /** Whatever `ParseNat` accepts is the decimal text of the value it reads. */
  lemma ParseNatCanonical(s: string)
    requires ParseNat(s).Some?
    ensures s == NatToString(ParseNat(s).value.0) + ParseNat(s).value.1
  {
    var k := LeadingDigits(s);
    assert s[..k][0] == s[0];
    CanonicalDigitsRoundTrip(s[..k]);
    assert s == s[..k] + s[k..];
  }
}
