/**
  Decimal integer text: the conversions Python performs with str(n) and
  int(s) on the server's command fields and clock readings.

  int(s) is modelled only for the plain decimal literals the phone app
  sends: an optional '-' followed by at least one ASCII digit. Python's
  int() also strips surrounding whitespace and accepts a leading '+',
  '_' between digits and non-ASCII decimal digits; those inputs are
  rejected here.
*/
module Decimal {
  import opened Wrappers

  predicate IsDigit(c: char) {
    '0' <= c <= '9'
  }

  function DigitValue(c: char): (d: nat)
    requires IsDigit(c)
    ensures d < 10
  {
    (c as int) - ('0' as int)
  }

  function DigitChar(d: nat): (c: char)
    requires d < 10
    ensures IsDigit(c) && DigitValue(c) == d
  {
    (('0' as int) + d) as char
  }

  predicate AllDigits(s: string) {
    forall i :: 0 <= i < |s| ==> IsDigit(s[i])
  }

  /** The value of a digit string, most significant digit first. */
  function DigitsValue(s: string): nat
    requires AllDigits(s)
  {
    if s == [] then 0 else DigitsValue(s[..|s| - 1]) * 10 + DigitValue(s[|s| - 1])
  }

  /** str(n) for n >= 0: the shortest digit string, so no leading zero. */
  function NatToString(n: nat): (s: string)
    ensures 1 <= |s| && AllDigits(s)
    ensures |s| > 1 ==> s[0] != '0'
    ensures |s| == 1 <==> n < 10
    ensures n < 100 ==> |s| <= 2
  {
    if n < 10 then [DigitChar(n)] else NatToString(n / 10) + [DigitChar(n % 10)]
  }

  /** str(x) for any integer x. */
  function IntToString(x: int): (s: string)
    ensures 0 < |s| && ':' !in s
    ensures x < 0 <==> s[0] == '-'
    ensures -10 < x < 100 ==> |s| <= 2
  {
    if x < 0 then "-" + NatToString(-x) else NatToString(x)
  }

  /** The literals accepted by the model of int(): [-]digits. */
  predicate IsIntLiteral(s: string) {
    if 0 < |s| && s[0] == '-' then 1 < |s| && AllDigits(s[1..]) else 0 < |s| && AllDigits(s)
  }

  /** int(s), returning None where Python raises ValueError. */
  function ParseInt(s: string): (r: Option<int>)
    ensures r.Some? <==> IsIntLiteral(s)
    ensures r.Some? ==> (r.value < 0 ==> s[0] == '-')
    ensures r.Some? && s[0] != '-' ==> 0 <= r.value
  {
    if 0 < |s| && s[0] == '-' then
      if 1 < |s| && AllDigits(s[1..]) then Some(0 - DigitsValue(s[1..])) else None
    else if 0 < |s| && AllDigits(s) then Some(DigitsValue(s))
    else None
  }

  /** f"{n:02d}": at least two characters, zero-padded after any sign. */
  function Format02d(n: int): (s: string)
    ensures 2 <= |s|
    ensures ':' !in s
    ensures 0 <= n < 100 ==> |s| == 2
  {
    if 0 <= n < 10 then "0" + NatToString(n) else IntToString(n)
  }

  lemma {:induction false} DigitsValueOfNatToString(n: nat)
    ensures DigitsValue(NatToString(n)) == n
  {
    var s := NatToString(n);
    if n < 10 {
      assert s[..|s| - 1] == [];
    } else {
      assert s[..|s| - 1] == NatToString(n / 10);
      DigitsValueOfNatToString(n / 10);
    }
  }

  /** int(str(x)) == x: the text the phone app formats reads back unchanged. */
  lemma ParseIntOfIntToString(x: int)
    ensures ParseInt(IntToString(x)) == Some(x)
  {
    var s := IntToString(x);
    if x < 0 {
      assert s[1..] == NatToString(-x);
      DigitsValueOfNatToString(-x);
    } else {
      DigitsValueOfNatToString(x);
    }
  }

  /** int(f"{n:02d}") == n: zero padding does not change the value read back. */
  lemma ParseIntOfFormat02d(n: int)
    ensures ParseInt(Format02d(n)) == Some(n)
  {
    if 0 <= n < 10 {
      var s := Format02d(n);
      assert s == ['0', DigitChar(n)];
      assert s[..1] == ['0'] && ['0'][..0] == [];
      assert DigitsValue(s) == n;
    } else {
      ParseIntOfIntToString(n);
    }
  }
}
