/** Decimal integers in text: `atoi`, which reads the header values, and the `%d` conversion, which
    writes them. Integers are unbounded here; see README for the `int` range. */
module Decimal {
  import opened CStrings

  predicate IsDigit(c: char)
  {
    '0' <= c <= '9'
  }

  predicate AllDigits(s: string)
  {
    forall i :: 0 <= i < |s| ==> IsDigit(s[i])
  }

  function DigitValue(c: char): nat
    requires IsDigit(c)
  {
    c as int - '0' as int
  }

  function DigitChar(d: nat): (c: char)
    requires d < 10
    ensures IsDigit(c) && DigitValue(c) == d
  {
    ('0' as int + d) as char
  }

  /** The number a run of decimal digits spells, most significant digit first. */
  function DigitsValue(ds: string): nat
    requires AllDigits(ds)
    decreases |ds|
  {
    if |ds| == 0 then 0 else DigitsValue(ds[..|ds| - 1]) * 10 + DigitValue(ds[|ds| - 1])
  }

  /** `atoi`: skip `isspace` characters, take an optional sign, then the longest run of digits;
      text with no digits there reads as 0. */
  function Atoi(s: string): (v: int)
    ensures var t := s[LeadingRun(s, IsSpace)..];
            (|t| == 0 || (t[0] != '-' && t[0] != '+' && !IsDigit(t[0]))) ==> v == 0
    ensures var t := s[LeadingRun(s, IsSpace)..];
            (|t| > 0 && (t[0] == '-' || t[0] == '+') && (|t| == 1 || !IsDigit(t[1]))) ==> v == 0
  {
    var t := s[LeadingRun(s, IsSpace)..];
    if |t| > 0 && (t[0] == '-' || t[0] == '+') then
      var u := t[1..];
      var m: int := DigitsValue(u[..LeadingRun(u, IsDigit)]);
      if t[0] == '-' then -m else m
    else
      DigitsValue(t[..LeadingRun(t, IsDigit)])
  }

  /** `%d` of a non-negative number: digits without leading zeros. */
  function NatToDecimal(n: nat): (s: string)
    ensures |s| > 0 && AllDigits(s)
    ensures DigitsValue(s) == n
    ensures |s| > 1 ==> s[0] != '0'
    decreases n
  {
    if n < 10 then [DigitChar(n)]
    else
      var s := NatToDecimal(n / 10) + [DigitChar(n % 10)];
      assert s[..|s| - 1] == NatToDecimal(n / 10);
      s
  }

  /** `%d`: a minus sign for negative numbers, then the digits of the magnitude. */
  function IntToDecimal(n: int): (s: string)
    ensures |s| > 0
    ensures n >= 0 ==> AllDigits(s) && DigitsValue(s) == n && (|s| > 1 ==> s[0] != '0')
    ensures n < 0 ==> |s| > 1 && s[0] == '-' && AllDigits(s[1..]) && DigitsValue(s[1..]) == -n
    ensures n < 0 ==> |s| > 2 ==> s[1] != '0'
  {
    if n < 0 then "-" + NatToDecimal(-n) else NatToDecimal(n)
  }

  lemma {:induction false} AllDigitsRun(s: string)
    requires AllDigits(s)
    ensures LeadingRun(s, IsDigit) == |s|
    decreases |s|
  {
    if |s| > 0 {
      AllDigitsRun(s[1..]);
    }
  }

  /** `atoi` reads back exactly the number `%d` wrote. */
  lemma {:induction false} AtoiOfDecimal(n: int)
    ensures Atoi(IntToDecimal(n)) == n
  {
    var s := IntToDecimal(n);
    assert !IsSpace(s[0]);
    assert LeadingRun(s, IsSpace) == 0;
    assert s[0..] == s;
    if n < 0 {
      assert s[1..] == NatToDecimal(-n);
      AllDigitsRun(s[1..]);
      assert s[1..][..|s[1..]|] == s[1..];
    } else {
      AllDigitsRun(s);
      assert s[..|s|] == s;
    }
  }
}
