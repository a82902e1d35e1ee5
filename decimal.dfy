/**
 * Decimal rendering of integers, as Python's `str(int)` (and so an f-string
 * `{n}` placeholder) produces it: the shortest run of digits, no leading
 * zero, a leading '-' for a negative number.  A parser for the same format is
 * the inverse the rendering is proved against.
 */
module Decimal {
  import opened Wrappers

  predicate IsDigit(c: char) {
    '0' <= c <= '9'
  }

  function DigitChar(d: nat): (c: char)
    requires d < 10
    ensures IsDigit(c)
    ensures c as int - '0' as int == d
  {
    (d + '0' as int) as char
  }

  /** The decimal form of `n`. */
  function NatToDecimal(n: nat): (s: string)
    ensures |s| >= 1
    ensures forall i :: 0 <= i < |s| ==> IsDigit(s[i])
    ensures s[0] == '0' <==> n == 0
    ensures n < 10 <==> |s| == 1
  {
    if n < 10 then [DigitChar(n)] else NatToDecimal(n / 10) + [DigitChar(n % 10)]
  }

  /** The decimal form of `i`, with a '-' in front when `i` is negative. */
  function IntToDecimal(i: int): (s: string)
    ensures |s| >= 1
    ensures forall k :: 0 <= k < |s| ==> IsDigit(s[k]) || s[k] == '-'
    ensures s[0] == '-' <==> i < 0
  {
    if i < 0 then "-" + NatToDecimal(-i) else NatToDecimal(i)
  }

  /** The value of a run of digits (the empty run is 0); None if a character is not a digit. */
  function DigitsValue(s: string): Option<nat>
  {
    if s == [] then Some(0)
    else if !IsDigit(s[|s| - 1]) then None
    else match DigitsValue(s[..|s| - 1])
      case None => None
      case Some(v) => Some(10 * v + (s[|s| - 1] as int - '0' as int))
  }

  /** Reads a canonical decimal natural number: non-empty, digits only, no leading zero. */
  function ParseNat(s: string): Option<nat>
  {
    if s == [] || (|s| > 1 && s[0] == '0') then None else DigitsValue(s)
  }

  /** Reads a canonical decimal integer; "-0" is not canonical. */
  function ParseInt(s: string): Option<int>
  {
    if s != [] && s[0] == '-' then
      match ParseNat(s[1..])
        case Some(n) => if n == 0 then None else Some(-(n as int))
        case None => None
    else
      match ParseNat(s)
        case Some(n) => Some(n)
        case None => None
  }

  lemma {:induction false} DigitsValueOfDecimal(n: nat)
    ensures DigitsValue(NatToDecimal(n)) == Some(n)
  {
    var s := NatToDecimal(n);
    if n < 10 {
      assert s[..|s| - 1] == [];
    } else {
      assert s[..|s| - 1] == NatToDecimal(n / 10);
      DigitsValueOfDecimal(n / 10);
    }
  }

  /** Reading back the decimal form of `n` gives `n`. */
  lemma NatRoundTrip(n: nat)
    ensures ParseNat(NatToDecimal(n)) == Some(n)
  {
    DigitsValueOfDecimal(n);
  }

  /** A canonical decimal string is the decimal form of the number it reads as. */
  lemma {:induction false} ParseNatCanonical(s: string, n: nat)
    requires ParseNat(s) == Some(n)
    ensures NatToDecimal(n) == s
    decreases |s|
  {
    var last := s[|s| - 1];
    var d := last as int - '0' as int;
    var p := s[..|s| - 1];
    var v := DigitsValue(p).value;
    assert n == 10 * v + d;
    if p == [] {
      assert v == 0;
      assert NatToDecimal(n) == [DigitChar(d)];
    } else {
      assert p[0] == s[0];
      ParseNatCanonical(p, v);
      assert v != 0;
      assert n / 10 == v && n % 10 == d;
      assert s == p + [last];
    }
  }

  /** Reading back the decimal form of `i` gives `i`. */
  lemma IntRoundTrip(i: int)
    ensures ParseInt(IntToDecimal(i)) == Some(i)
  {
    if i < 0 {
      assert IntToDecimal(i)[1..] == NatToDecimal(-i);
      NatRoundTrip(-i);
    } else {
      NatRoundTrip(i);
    }
  }

  /** A canonical decimal integer string is the decimal form of the integer it reads as. */
  lemma ParseIntCanonical(s: string, i: int)
    requires ParseInt(s) == Some(i)
    ensures IntToDecimal(i) == s
  {
    if s != [] && s[0] == '-' {
      ParseNatCanonical(s[1..], -i);
      assert s == "-" + s[1..];
    } else {
      ParseNatCanonical(s, i);
    }
  }

  /** Distinct integers have distinct decimal forms. */
  lemma IntToDecimalInjective(i: int, j: int)
    requires IntToDecimal(i) == IntToDecimal(j)
    ensures i == j
  {
    IntRoundTrip(i);
    IntRoundTrip(j);
  }
}
