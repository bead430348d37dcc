/**
 * Decimal digit strings, as the Go runtime produces and reads them:
 * `fmt.Sprintf("%d", n)` (FormatInt), `strconv.Atoi` (Atoi) and the
 * two's-complement wrap-around of Go's 64-bit `int` (Wrap64).
 */
module Decimal {
  import opened Wrappers

  const MinInt64: int := -0x8000_0000_0000_0000
  const MaxInt64: int := 0x7FFF_FFFF_FFFF_FFFF
  const TwoTo64: int := 0x1_0000_0000_0000_0000

  predicate IsDigit(c: char) { '0' <= c <= '9' }

  predicate AllDigits(s: string) { forall i :: 0 <= i < |s| ==> IsDigit(s[i]) }

  function DigitValue(c: char): nat
    requires IsDigit(c)
  {
    c as int - '0' as int
  }

  function DigitChar(d: nat): (c: char)
    requires d < 10
    ensures IsDigit(c) && DigitValue(c) == d
  {
    ('0' as int + d) as char
  }

  /** Base-10 value of a digit string, most significant digit first. */
  function Value(s: string): nat
    requires AllDigits(s)
  {
    if s == [] then 0 else Value(s[..|s| - 1]) * 10 + DigitValue(s[|s| - 1])
  }

  function Pow10(k: nat): (p: nat)
    ensures p >= 1
  {
    if k == 0 then 1 else 10 * Pow10(k - 1)
  }

  /** A string of k digits denotes a value below 10^k. */
  lemma {:induction false} ValueBound(s: string)
    requires AllDigits(s)
    ensures Value(s) < Pow10(|s|)
  {
    if s != [] {
      ValueBound(s[..|s| - 1]);
    }
  }

  /** The digits of n, without leading zeros ("0" for zero), as `%d` prints a non-negative int. */
  function NatToString(n: nat): (s: string)
    ensures |s| >= 1 && AllDigits(s)
    ensures Value(s) == n
    ensures s[0] == '0' ==> n == 0
  {
    if n < 10 then [DigitChar(n)]
    else
      var p := NatToString(n / 10);
      var s := p + [DigitChar(n % 10)];
      assert s[..|s| - 1] == p;
      s
  }

  /** `fmt.Sprintf("%d", i)`: a minus sign before the digits of a negative value. */
  function FormatInt(i: int): (s: string)
    ensures i >= 0 ==> s == NatToString(i)
    ensures i < 0 ==> s == "-" + NatToString(-i)
  {
    if i < 0 then "-" + NatToString(-i) else NatToString(i)
  }

  /**
   * `strconv.Atoi`: an optional sign, then one or more decimal digits and
   * nothing else; a value outside the 64-bit range is an error too.
   */
  function Atoi(s: string): (r: Option<int>)
    ensures r.Some? ==> MinInt64 <= r.value <= MaxInt64
    ensures r.Some? ==> s != [] && (IsDigit(s[0]) || s[0] == '-' || s[0] == '+')
  {
    if s == [] then None
    else
      var digits := if s[0] == '-' || s[0] == '+' then s[1..] else s;
      if digits == [] || !AllDigits(digits) then None
      else
        var v: int := if s[0] == '-' then -(Value(digits) as int) else Value(digits);
        if MinInt64 <= v <= MaxInt64 then Some(v) else None
  }

  /** Atoi reads back every 64-bit value that FormatInt prints. */
  lemma AtoiFormatInt(i: int)
    requires MinInt64 <= i <= MaxInt64
    ensures Atoi(FormatInt(i)) == Some(i)
  {
    var s := FormatInt(i);
    if i < 0 {
      assert s[0] == '-' && s[1..] == NatToString(-i);
    } else {
      assert IsDigit(s[0]);
    }
  }

  /** Go's 64-bit signed `int` arithmetic: x reduced into [MinInt64, MaxInt64] modulo 2^64. */
  function Wrap64(x: int): (r: int)
    ensures MinInt64 <= r <= MaxInt64
    ensures MinInt64 <= x <= MaxInt64 ==> r == x
    ensures (x - r) % TwoTo64 == 0
  {
    var q := (x - MinInt64) / TwoTo64;
    var r := (x - MinInt64) % TwoTo64 + MinInt64;
    ModUnique(x - r, q, 0);
    r
  }

  lemma ModOfShift(a: int, k: int)
    ensures (a + k * TwoTo64) % TwoTo64 == a % TwoTo64
  {
    var q := a / TwoTo64;
    var r := a % TwoTo64;
    assert a + k * TwoTo64 == (q + k) * TwoTo64 + r;
    ModUnique(a + k * TwoTo64, q + k, r);
  }

  lemma ModUnique(a: int, q: int, r: int)
    requires a == q * TwoTo64 + r && 0 <= r < TwoTo64
    ensures a % TwoTo64 == r
  {
    var q' := a / TwoTo64;
    var r' := a % TwoTo64;
    assert (q - q') * TwoTo64 == r' - r;
  }

  /** Wrapping after every step of a digit fold gives the same result as wrapping once at the end. */
  lemma WrapStep(v: int, d: int)
    ensures Wrap64(Wrap64(v) * 10 + d) == Wrap64(v * 10 + d)
  {
    var k := (v - MinInt64) / TwoTo64;
    assert Wrap64(v) == v - k * TwoTo64;
    assert Wrap64(v) * 10 + d - MinInt64 == (v * 10 + d - MinInt64) + (-10 * k) * TwoTo64;
    ModOfShift(v * 10 + d - MinInt64, -10 * k);
  }
}
