/**
 * Decimal text of unsigned integers, as the standard streams write it
 * (`os << n`) and read it back (`is >> n`, `std::stoull`): optional
 * leading white space, then a maximal run of ASCII digits whose value must
 * fit in 64 bits.
 */
module Decimal {
  import opened Wrappers
  import opened Types

  predicate IsDigit(c: char) {
    '0' <= c <= '9'
  }

  /** White space in the "C" locale: space, tab, LF, VT, FF and CR. */
  predicate IsSpace(c: char) {
    c == ' ' || c == '\t' || c == '\n' || c == '\U{000B}' || c == '\U{000C}' || c == '\r'
  }

  predicate NotSpace(c: char) {
    !IsSpace(c)
  }

  predicate AllDigits(s: string) {
    forall k :: 0 <= k < |s| ==> IsDigit(s[k])
  }

  function DigitChar(d: nat): (c: char)
    requires d < 10
    ensures IsDigit(c) && c as int - '0' as int == d
  {
    ('0' as int + d) as char
  }

  /** Value of a digit string, most significant digit first. */
  function ValueOf(ds: string): nat
    requires AllDigits(ds)
  {
    if ds == [] then 0
    else ValueOf(ds[..|ds| - 1]) * 10 + (ds[|ds| - 1] as int - '0' as int)
  }

  /** The shortest decimal text of n ("0" for zero), as `os << n` writes it. */
  function NatToDecimal(n: nat): (s: string)
    ensures |s| > 0 && AllDigits(s)
  {
    if n < 10 then [DigitChar(n)] else NatToDecimal(n / 10) + [DigitChar(n % 10)]
  }

  /** Writing a number and reading the digits back gives the number. */
  lemma {:induction false} DecimalRoundTrip(n: nat)
    ensures ValueOf(NatToDecimal(n)) == n
  {
    var s := NatToDecimal(n);
    if n >= 10 {
      DecimalRoundTrip(n / 10);
      assert s[..|s| - 1] == NatToDecimal(n / 10);
    }
  }

  /** End of the maximal run of characters satisfying p that starts at i. */
  function RunEnd(s: string, i: nat, p: char -> bool): (j: nat)
    requires i <= |s|
    ensures i <= j <= |s|
    ensures forall k :: i <= k < j ==> p(s[k])
    ensures j < |s| ==> !p(s[j])
    decreases |s| - i
  {
    if i == |s| || !p(s[i]) then i else RunEnd(s, i + 1, p)
  }

  /** A run is determined by where it stops. */
  lemma {:induction false} RunEndAt(s: string, i: nat, j: nat, p: char -> bool)
    requires i <= j <= |s|
    requires forall k :: i <= k < j ==> p(s[k])
    requires j < |s| ==> !p(s[j])
    ensures RunEnd(s, i, p) == j
    decreases j - i
  {
    if i < j {
      RunEndAt(s, i + 1, j, p);
    }
  }

  function SkipSpaces(s: string, i: nat): (j: nat)
    requires i <= |s|
    ensures i <= j <= |s|
  {
    RunEnd(s, i, IsSpace)
  }

  /**
   * Reads an unsigned 64-bit number at position i: leading white space is
   * skipped, at least one digit must follow, and the value must be below
   * 2^64. Text after the digits is left for the caller. Gives the value and
   * the position after the digits.
   */
  function ParseUnsigned(s: string, i: nat): (r: Option<(uint64, nat)>)
    requires i <= |s|
    ensures r.Some? ==> i < r.value.1 <= |s|
  {
    var j := SkipSpaces(s, i);
    var e := RunEnd(s, j, IsDigit);
    if e == j then None
    else
      var v := ValueOf(s[j..e]);
      if v < TwoTo64 then Some((v as uint64, e)) else None
  }

  /**
   * Reading back what `os << n` wrote: white space from i to j, the digits
   * of n at j, then a non-digit or the end of the text.
   */
  lemma ParseUnsignedOfDecimal(s: string, i: nat, j: nat, n: uint64)
    requires i <= j && j + |NatToDecimal(n)| <= |s|
    requires forall k :: i <= k < j ==> IsSpace(s[k])
    requires s[j..j + |NatToDecimal(n)|] == NatToDecimal(n)
    requires j + |NatToDecimal(n)| < |s| ==> !IsDigit(s[j + |NatToDecimal(n)|])
    ensures ParseUnsigned(s, i) == Some((n, j + |NatToDecimal(n)|))
  {
    var d := NatToDecimal(n);
    var e := j + |d|;
    assert s[j] == d[0];
    RunEndAt(s, i, j, IsSpace);
    assert SkipSpaces(s, i) == j;
    DigitsRunEnd(s, j, d);
    assert RunEnd(s, j, IsDigit) == e;
    DecimalRoundTrip(n);
    assert ValueOf(s[j..e]) == n;
  }

  /** The run of digits starting at i is a digit string. */
  lemma DigitRunIsDigits(s: string, i: nat)
    requires i <= |s|
    ensures AllDigits(s[i..RunEnd(s, i, IsDigit)])
  {
    var e := RunEnd(s, i, IsDigit);
    forall k | 0 <= k < e - i ensures IsDigit(s[i..e][k]) {
      assert s[i..e][k] == s[i + k];
    }
  }

  /** The digits of d, written at j and followed by a non-digit or the end, form the run of digits at j. */
  lemma DigitsRunEnd(s: string, j: nat, d: string)
    requires AllDigits(d) && j + |d| <= |s| && s[j..j + |d|] == d
    requires j + |d| < |s| ==> !IsDigit(s[j + |d|])
    ensures RunEnd(s, j, IsDigit) == j + |d|
  {
    forall k | j <= k < j + |d| ensures IsDigit(s[k]) {
      assert s[k] == d[k - j];
    }
    RunEndAt(s, j, j + |d|, IsDigit);
  }

  /** base to the power k. */
  function Pow(base: nat, k: nat): (p: nat)
    ensures base > 0 ==> p > 0
  {
    if k == 0 then 1 else base * Pow(base, k - 1)
  }

  /** Powers of a base of at least 1 grow with the exponent. */
  lemma {:induction false} PowMonotone(base: nat, j: nat, k: nat)
    requires base >= 1 && j <= k
    ensures Pow(base, j) <= Pow(base, k)
  {
    if j < k {
      PowMonotone(base, j, k - 1);
      MulMonotone(1, base, Pow(base, k - 1));
    }
  }

  lemma MulMonotone(a: nat, b: nat, n: nat)
    requires a <= b
    ensures a * n <= b * n
  {
  }
}
