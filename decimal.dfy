/**
  Decimal rendering of numbers, as Python's `str` does it: `str(n)` for the
  integer indicator positions that go into field names, and `str(x)` for
  the floating-point index values that go into the change report.
 */
module Decimal {

  datatype Option<T> = None | Some(value: T)

  predicate IsDigit(c: char) {
    '0' <= c <= '9'
  }

  predicate AllDigits(s: string) {
    forall i :: 0 <= i < |s| ==> IsDigit(s[i])
  }

  function DigitChar(d: nat): (c: char)
    requires d < 10
    ensures IsDigit(c) && c as int - '0' as int == d
  {
    (d + '0' as int) as char
  }

  /** `str(n)` for a non-negative Python integer: no sign, no leading zeros. */
  function NatStr(n: nat): (s: string)
    ensures |s| >= 1 && AllDigits(s)
    ensures n < 10 <==> |s| == 1
    decreases n
  {
    if n < 10 then [DigitChar(n)] else NatStr(n / 10) + [DigitChar(n % 10)]
  }

  /** The number a string of decimal digits denotes. */
  function DigitsValue(s: string): nat
    requires AllDigits(s)
  {
    if s == [] then 0
    else DigitsValue(s[..|s| - 1]) * 10 + (s[|s| - 1] as int - '0' as int)
  }

  /** Reading back what `NatStr` wrote gives the number again. */
  lemma {:induction false} NatStrRoundTrip(n: nat)
    ensures DigitsValue(NatStr(n)) == n
    decreases n
  {
    if n >= 10 {
      var s := NatStr(n);
      assert s[..|s| - 1] == NatStr(n / 10);
      NatStrRoundTrip(n / 10);
    }
  }

  /** Different numbers are written differently. */
  lemma NatStrInjective(a: nat, b: nat)
    requires NatStr(a) == NatStr(b)
    ensures a == b
  {
    NatStrRoundTrip(a);
    NatStrRoundTrip(b);
  }

  /** `str(i)` for any Python integer. */
  function IntStr(i: int): (s: string)
    ensures |s| >= 1
    ensures i < 0 <==> s[0] == '-'
    ensures i >= 0 ==> AllDigits(s)
    ensures i < 0 ==> AllDigits(s[1..])
  {
    if i < 0 then "-" + NatStr(-i) else NatStr(i)
  }

  /** Reads back an optional minus sign followed by digits. */
  function ParseInt(s: string): Option<int> {
    if |s| >= 2 && s[0] == '-' && AllDigits(s[1..]) then Some(-(DigitsValue(s[1..]) as int))
    else if |s| >= 1 && AllDigits(s) then Some(DigitsValue(s))
    else None
  }

  lemma IntStrRoundTrip(i: int)
    ensures ParseInt(IntStr(i)) == Some(i)
  {
    var s := IntStr(i);
    if i < 0 {
      var t := NatStr(-i);
      assert s == "-" + t;
      assert s[1..] == t;
      assert |s| >= 2 && s[0] == '-' && AllDigits(s[1..]);
      NatStrRoundTrip(-i);
      assert DigitsValue(s[1..]) == -i;
    } else {
      assert IsDigit(s[0]) && AllDigits(s);
      NatStrRoundTrip(i);
      assert DigitsValue(s) == i;
    }
  }

  predicate IsIntegral(x: real) {
    x.Floor as real == x
  }

  /**
    The first `n` decimal digits of a fraction `0 <= f < 1`
    (the field stores ten decimals).
   */
  function FractionDigits(f: real, n: nat): (s: string)
    requires 0.0 <= f < 1.0
    ensures |s| == n && AllDigits(s)
    decreases n
  {
    if n == 0 then ""
    else
      var d := (f * 10.0).Floor;
      [DigitChar(d)] + FractionDigits(f * 10.0 - d as real, n - 1)
  }

  /** Drops trailing '0' characters, keeping at least one digit. */
  function TrimZeros(s: string): (t: string)
    requires AllDigits(s)
    ensures AllDigits(t) && |t| <= |s|
    ensures |s| >= 1 ==> |t| >= 1
  {
    if |s| <= 1 || s[|s| - 1] != '0' then s else TrimZeros(s[..|s| - 1])
  }

  /**
    `str(x)` for a float: an integral value prints with a trailing ".0"
    ("3.0"); other values print their integral part, a point and their
    decimals without trailing zeros ("2.5", "-0.25").
   */
  function FloatStr(x: real): (s: string)
    ensures |s| >= 3
    ensures x < 0.0 <==> s[0] == '-'
    ensures IsIntegral(x) ==> s[|s| - 2..] == ".0"
  {
    if IsIntegral(x) then IntStr(x.Floor) + ".0"
    else
      var a := if x < 0.0 then -x else x;
      var whole := a.Floor;
      (if x < 0.0 then "-" else "") + NatStr(whole) + "." + TrimZeros(FractionDigits(a - whole as real, 10))
  }

  /** Reads back the form `FloatStr` gives an integral value. */
  function ParseIntegralFloat(s: string): Option<real> {
    if |s| >= 3 && s[|s| - 2..] == ".0" then
      match ParseInt(s[..|s| - 2])
      case Some(i) => Some(i as real)
      case None => None
    else None
  }

  lemma IntegralFloatRoundTrip(x: real)
    requires IsIntegral(x)
    ensures ParseIntegralFloat(FloatStr(x)) == Some(x)
  {
    var s := FloatStr(x);
    assert s[..|s| - 2] == IntStr(x.Floor);
    assert s[|s| - 2..] == ".0";
    IntStrRoundTrip(x.Floor);
  }

  /** A character `str` of a number may produce. */
  predicate NumberChar(c: char) {
    IsDigit(c) || c == '-' || c == '.'
  }

  predicate NumberChars(s: string) {
    forall i :: 0 <= i < |s| ==> NumberChar(s[i])
  }

  lemma NumberCharsAppend(a: string, b: string)
    requires NumberChars(a) && NumberChars(b)
    ensures NumberChars(a + b)
  {
    forall i | 0 <= i < |a + b|
      ensures NumberChar((a + b)[i])
    {
      if i < |a| {
        assert (a + b)[i] == a[i];
      } else {
        assert (a + b)[i] == b[i - |a|];
      }
    }
  }

  /** Both renderings use only digits, a sign and a point; in particular never a space. */
  lemma FloatStrChars(x: real)
    ensures NumberChars(FloatStr(x))
  {
    if IsIntegral(x) {
      var t := IntStr(x.Floor);
      if x.Floor < 0 {
        NumberCharsAppend("-", NatStr(-x.Floor));
      }
      NumberCharsAppend(t, ".0");
    } else {
      var a := if x < 0.0 then -x else x;
      var whole := a.Floor;
      var sign: string := if x < 0.0 then "-" else "";
      var frac := TrimZeros(FractionDigits(a - whole as real, 10));
      NumberCharsAppend(sign, NatStr(whole));
      NumberCharsAppend(sign + NatStr(whole), ".");
      NumberCharsAppend(sign + NatStr(whole) + ".", frac);
    }
  }
}
