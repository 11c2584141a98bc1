/** Decimal text of Java `int`s: `Integer.parseInt(s)` (radix 10) and the text `"" + n`
    produces for a non-negative `n`. */
module Decimal {
  import opened Results

  const MinInt: int := -0x8000_0000
  const MaxInt: int := 0x7FFF_FFFF

  predicate IsDigit(c: char)
  {
    '0' <= c <= '9'
  }

  predicate AllDigits(s: string)
  {
    forall i :: 0 <= i < |s| ==> IsDigit(s[i])
  }

  function DigitValue(c: char): (d: nat)
    requires IsDigit(c)
    ensures d < 10
  {
    c as int - '0' as int
  }

  function DigitChar(d: nat): (c: char)
    requires d < 10
    ensures IsDigit(c) && DigitValue(c) == d
  {
    ('0' as int + d) as char
  }

  /** The value of a string of decimal digits, most significant first. */
  function DigitsValue(s: string): nat
    requires AllDigits(s)
  {
    if s == [] then 0 else DigitsValue(s[..|s| - 1]) * 10 + DigitValue(s[|s| - 1])
  }

  /** `Integer.parseInt(s)`: an optional '-' or '+' sign, then at least one decimal digit, and
      a value that fits in 32 bits; anything else is a `NumberFormatException` (None). */
  function ParseInt(s: string): (r: Option<int>)
    ensures r.Some? ==> MinInt <= r.value <= MaxInt
    ensures r.Some? ==> (s != [] && AllDigits(s)) || (|s| > 1 && s[0] in "+-" && AllDigits(s[1..]))
    ensures s != [] && AllDigits(s) ==>
      r == if DigitsValue(s) <= MaxInt then Some(DigitsValue(s)) else None
    ensures |s| > 1 && s[0] == '+' && AllDigits(s[1..]) ==>
      r == if DigitsValue(s[1..]) <= MaxInt then Some(DigitsValue(s[1..])) else None
    ensures |s| > 1 && s[0] == '-' && AllDigits(s[1..]) ==>
      if DigitsValue(s[1..]) <= -MinInt then r.Some? && r.value == -(DigitsValue(s[1..]) as int) else r.None?
  {
    if s == [] then None
    else
      var digits := if s[0] == '-' || s[0] == '+' then s[1..] else s;
      if digits == [] || !AllDigits(digits) then None
      else
        var magnitude: int := DigitsValue(digits);
        var v: int := if s[0] == '-' then -magnitude else magnitude;
        if MinInt <= v <= MaxInt then Some(v) else None
  }

  /** The decimal text of `n` without sign or leading zeros, as Java prints a non-negative int. */
  function NatString(n: nat): (s: string)
    ensures s != [] && AllDigits(s) && DigitsValue(s) == n
    ensures s[0] == '0' ==> n == 0
    ensures |s| > 1 ==> s[0] != '0'
  {
    if n < 10 then [DigitChar(n)]
    else
      var prefix := NatString(n / 10);
      var s := prefix + [DigitChar(n % 10)];
      assert s[..|s| - 1] == prefix;
      s
  }

  /** `Integer.parseInt` reads back the text of every non-negative int. */
  lemma ParseNatString(n: nat)
    requires n <= MaxInt
    ensures ParseInt(NatString(n)) == Some(n)
  {
    var s := NatString(n);
    assert IsDigit(s[0]);
  }
}
