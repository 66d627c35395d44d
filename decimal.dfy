/**
 * Base-10 text of 64-bit integers, as Go's strconv.Atoi reads it and as
 * fmt's "%d" writes it. Used by the cache counter and by the environment
 * lookups of the configuration.
 */
module Decimal {
  import opened Wrappers

  const MinInt64: int := -0x8000_0000_0000_0000
  const MaxInt64: int := 0x7FFF_FFFF_FFFF_FFFF

  predicate InInt64(v: int) {
    MinInt64 <= v <= MaxInt64
  }

  /** Go's `v + 1` on an int64: the largest value wraps to the smallest. */
  function Succ64(v: int): (r: int)
    requires InInt64(v)
    ensures InInt64(r)
    ensures v < MaxInt64 ==> r == v + 1
    ensures v == MaxInt64 ==> r == MinInt64
  {
    if v == MaxInt64 then MinInt64 else v + 1
  }

  predicate IsDigit(c: char) {
    '0' <= c <= '9'
  }

  predicate AllDigits(s: string) {
    forall i :: 0 <= i < |s| ==> IsDigit(s[i])
  }

  function DigitChar(d: nat): (c: char)
    requires d < 10
    ensures IsDigit(c)
  {
    ['0', '1', '2', '3', '4', '5', '6', '7', '8', '9'][d]
  }

  function DigitValue(c: char): (d: nat)
    requires IsDigit(c)
    ensures d < 10
  {
    (c as int) - ('0' as int)
  }

  /** The number a non-empty run of digits denotes, read left to right. */
  function DigitsValue(s: string): nat
    requires AllDigits(s)
  {
    if s == [] then 0 else DigitsValue(s[..|s| - 1]) * 10 + DigitValue(s[|s| - 1])
  }

  /** The shortest decimal digits of `n` (no leading zeros). */
  function Digits(n: nat): (s: string)
    ensures |s| >= 1 && AllDigits(s)
    ensures n == 0 ==> s == "0"
    ensures n > 0 ==> s[0] != '0'
  {
    if n < 10 then [DigitChar(n)] else Digits(n / 10) + [DigitChar(n % 10)]
  }

  lemma DigitCharValue(d: nat)
    requires d < 10
    ensures DigitValue(DigitChar(d)) == d
  {
  }

  lemma {:induction false} DigitsRoundTrip(n: nat)
    ensures DigitsValue(Digits(n)) == n
  {
    var s := Digits(n);
    if n < 10 {
      DigitCharValue(n);
    } else {
      DigitsRoundTrip(n / 10);
      DigitCharValue(n % 10);
      assert s[..|s| - 1] == Digits(n / 10);
    }
  }

  /** fmt.Sprintf("%d", n). */
  function Format(n: int): (s: string)
    ensures |s| >= 1
  {
    if n < 0 then "-" + Digits(-n) else Digits(n)
  }

  /**
   * strconv.Atoi on a 64-bit platform: an optional sign, at least one
   * digit and nothing else, whose value fits in an int64.
   */
  function ParseInt(s: string): (r: Option<int>)
    ensures r.Some? ==> InInt64(r.value)
    ensures r.Some? ==> s != [] && AllDigits(if s[0] == '+' || s[0] == '-' then s[1..] else s)
    ensures s != [] ==> var body := if s[0] == '+' || s[0] == '-' then s[1..] else s;
      body != [] && AllDigits(body) ==>
        var v: int := if s[0] == '-' then 0 - (DigitsValue(body) as int) else DigitsValue(body);
        (InInt64(v) ==> r == Some(v)) && (!InInt64(v) ==> r == None)
  {
    if s == [] then None
    else
      var body := if s[0] == '+' || s[0] == '-' then s[1..] else s;
      if body == [] || !AllDigits(body) then None
      else
        var v: int := if s[0] == '-' then 0 - (DigitsValue(body) as int) else DigitsValue(body);
        if InInt64(v) then Some(v) else None
  }

  /** The digits of a value read back as that value. */
  lemma ParseDigits(m: nat)
    requires m <= MaxInt64
    ensures ParseInt(Digits(m)) == Some(m)
  {
    var d := Digits(m);
    DigitsRoundTrip(m);
    assert IsDigit(d[0]);
  }

  /** A minus sign before the digits of a value reads as its negation. */
  lemma ParseMinusDigits(m: nat)
    requires m <= -MinInt64
    ensures ParseInt("-" + Digits(m)) == Some(0 - m)
  {
    var d := Digits(m);
    DigitsRoundTrip(m);
    var s := "-" + d;
    assert s[0] == '-' && s[1..] == d;
  }

  /** What "%d" writes, Atoi reads back. */
  lemma ParseFormat(n: int)
    requires InInt64(n)
    ensures ParseInt(Format(n)) == Some(n)
  {
    if n < 0 {
      ParseMinusDigits(-n);
    } else {
      ParseDigits(n);
    }
  }
}
