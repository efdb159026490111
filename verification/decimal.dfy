/**
 * The decimal text of an integer, as JavaScript's template literals print a
 * whole number (`${n}`): a minus sign for negatives, then the digits with
 * no leading zero. A reader of that text gives the number back.
 */
module Decimal {
  import opened Base

  predicate IsDigit(c: char) {
    '0' <= c <= '9'
  }

  function DigitChar(d: nat): (c: char)
    requires d < 10
    ensures IsDigit(c)
  {
    ('0' as int + d) as char
  }

  function DigitValue(c: char): (d: nat)
    requires IsDigit(c)
    ensures d < 10
  {
    (c as int - '0' as int) as nat
  }

  lemma DigitRoundTrip(d: nat)
    requires d < 10
    ensures DigitValue(DigitChar(d)) == d
  {
  }

  /** The digits of a natural number, most significant first. */
  function NatToString(n: nat): (s: string)
    ensures |s| > 0
    ensures forall i :: 0 <= i < |s| ==> IsDigit(s[i])
    ensures |s| > 1 ==> s[0] != '0'
  {
    if n < 10 then [DigitChar(n)] else NatToString(n / 10) + [DigitChar(n % 10)]
  }

  /** An integer's text: the digits of its magnitude, after a minus sign when negative. */
  function IntToString(i: int): (s: string)
    ensures |s| > 0
    ensures i < 0 <==> s[0] == '-'
  {
    if i < 0 then "-" + NatToString(-i) else NatToString(i)
  }

  /** The value of a run of digits, most significant first. */
  function DigitsValue(s: string): nat
    requires forall i :: 0 <= i < |s| ==> IsDigit(s[i])
  {
    if |s| == 0 then 0 else 10 * DigitsValue(s[..|s| - 1]) + DigitValue(s[|s| - 1])
  }

  /** The length of the run of digits `s` starts with. */
  function DigitRun(s: string): (k: nat)
    ensures k <= |s|
    ensures forall i :: 0 <= i < k ==> IsDigit(s[i])
    ensures k < |s| ==> !IsDigit(s[k])
  {
    if |s| == 0 || !IsDigit(s[0]) then 0
    else
      var k := DigitRun(s[1..]);
      assert forall i :: 1 <= i < 1 + k ==> s[i] == s[1..][i - 1];
      1 + k
  }

  /** Reads the longest run of digits; None when `s` does not start with one. */
  function ParseNat(s: string): (r: Option<(nat, string)>)
    ensures r.Some? ==> |r.value.1| < |s|
  {
    var k := DigitRun(s);
    if k == 0 then None else Some((DigitsValue(s[..k]), s[k..]))
  }

  /**
   * Reads an optional minus sign and the longest run of digits after it;
   * answers the number and the text after it, or None when no digit comes.
   */
  function ParseInt(s: string): (r: Option<(int, string)>)
    ensures r.Some? ==> |r.value.1| < |s|
  {
    if |s| > 0 && s[0] == '-' then
      match ParseNat(s[1..])
      case None => None
      case Some((v, rest)) => Some((-(v as int), rest))
    else
      match ParseNat(s)
      case None => None
      case Some((v, rest)) => Some((v, rest))
  }

  /** The digits of `n` read back give `n`. */
  lemma {:induction false} NatRoundTrip(n: nat)
    ensures DigitsValue(NatToString(n)) == n
  {
    var s := NatToString(n);
    if n >= 10 {
      assert s[..|s| - 1] == NatToString(n / 10);
      NatRoundTrip(n / 10);
      DigitRoundTrip(n % 10);
    } else {
      assert s[..|s| - 1] == [];
      DigitRoundTrip(n);
    }
  }

  /** The digits of `n` followed by a non-digit read back as `n` and the rest. */
  lemma NatParseRoundTrip(n: nat, rest: string)
    requires |rest| == 0 || !IsDigit(rest[0])
    ensures ParseNat(NatToString(n) + rest) == Some((n, rest))
  {
    var digits := NatToString(n);
    var s := digits + rest;
    DigitRunOfDigits(digits, rest);
    assert s[..|digits|] == digits;
    assert s[|digits|..] == rest;
    NatRoundTrip(n);
  }

  /**
   * Printing an integer and reading it back gives the integer and whatever
   * text followed, provided that text does not go on with a digit.
   */
  lemma IntRoundTrip(i: int, rest: string)
    requires |rest| == 0 || !IsDigit(rest[0])
    ensures ParseInt(IntToString(i) + rest) == Some((i, rest))
  {
    if i < 0 {
      IntRoundTripNeg(i, rest);
    } else {
      IntRoundTripNonNeg(i, rest);
    }
  }

  lemma IntRoundTripNeg(i: int, rest: string)
    requires i < 0
    requires |rest| == 0 || !IsDigit(rest[0])
    ensures ParseInt(IntToString(i) + rest) == Some((i, rest))
  {
    var tail := NatToString(-i) + rest;
    assert IntToString(i) + rest == "-" + tail;
    assert ("-" + tail)[1..] == tail;
    NatParseRoundTrip(-i, rest);
  }

  lemma IntRoundTripNonNeg(i: int, rest: string)
    requires i >= 0
    requires |rest| == 0 || !IsDigit(rest[0])
    ensures ParseInt(IntToString(i) + rest) == Some((i, rest))
  {
    var s := NatToString(i) + rest;
    assert IsDigit(s[0]);
    NatParseRoundTrip(i, rest);
  }

  lemma {:induction false} DigitRunOfDigits(digits: string, rest: string)
    requires forall i :: 0 <= i < |digits| ==> IsDigit(digits[i])
    requires |rest| == 0 || !IsDigit(rest[0])
    ensures DigitRun(digits + rest) == |digits|
    decreases |digits|
  {
    if |digits| > 0 {
      assert (digits + rest)[1..] == digits[1..] + rest;
      DigitRunOfDigits(digits[1..], rest);
    } else {
      assert digits + rest == rest;
    }
  }
}
