/**
 * Plain string helpers used throughout the model: prefix and suffix tests
 * (JavaScript's `startsWith` / `endsWith`), suffix replacement, and the
 * decimal rendering of natural numbers (JavaScript's `${n}` for a
 * non-negative integer and the digits of C's `%05d`).
 */
module Text {

  datatype Option<+T> = None | Some(value: T)

  predicate StartsWith(s: string, prefix: string) {
    |prefix| <= |s| && s[..|prefix|] == prefix
  }

  predicate EndsWith(s: string, suffix: string) {
    |suffix| <= |s| && s[|s| - |suffix|..] == suffix
  }

  /** `s` with its suffix `from` replaced by `to`. */
  function SwapSuffix(s: string, from: string, to: string): (r: string)
    requires EndsWith(s, from)
    ensures EndsWith(r, to)
    ensures |r| == |s| - |from| + |to|
    ensures r[..|r| - |to|] == s[..|s| - |from|]
  {
    s[..|s| - |from|] + to
  }

  /** Swapping a suffix back restores the original string. */
  lemma SwapSuffixBack(s: string, from: string, to: string)
    requires EndsWith(s, from)
    ensures SwapSuffix(SwapSuffix(s, from, to), to, from) == s
  {
    var r := SwapSuffix(s, from, to);
    assert r[..|r| - |to|] == s[..|s| - |from|];
    assert s == s[..|s| - |from|] + from;
  }

  /** Two names that swap to the same string were the same name. */
  lemma SwapSuffixInjective(s: string, t: string, from: string, to: string)
    requires EndsWith(s, from) && EndsWith(t, from)
    requires SwapSuffix(s, from, to) == SwapSuffix(t, from, to)
    ensures s == t
  {
    SwapSuffixBack(s, from, to);
    SwapSuffixBack(t, from, to);
  }

  /** Neither suffix ends with the other: no string can end with both. */
  predicate Exclusive(a: string, b: string) {
    !EndsWith(a, b) && !EndsWith(b, a)
  }

  lemma ExclusiveSuffixes(s: string, a: string, b: string)
    requires Exclusive(a, b)
    ensures !(EndsWith(s, a) && EndsWith(s, b))
  {
  }

  /** A string that does not end with `u` does not end with `t + u` either. */
  lemma NotEndsWithTail(s: string, t: string, u: string)
    requires !EndsWith(s, u)
    ensures !EndsWith(s, t + u)
  {
    if |t + u| <= |s| {
      assert s[|s| - |u|..] == s[|s| - |t + u|..][|t|..];
      assert (t + u)[|t|..] == u;
    }
  }

  // ---------------------------------------------------------------------
  // Decimal digits

  predicate IsDigit(c: char) {
    '0' <= c <= '9'
  }

  predicate AllDigits(s: string) {
    forall i :: 0 <= i < |s| ==> IsDigit(s[i])
  }

  function DigitChar(d: nat): (c: char)
    requires d < 10
    ensures IsDigit(c)
  {
    ('0' as int + d) as char
  }

  function DigitValue(c: char): (d: nat)
    requires IsDigit(c)
    ensures d < 10 && DigitChar(d) == c
  {
    (c as int - '0' as int) as nat
  }

  lemma DigitRoundTrip(d: nat)
    requires d < 10
    ensures DigitValue(DigitChar(d)) == d
  {
  }

  /** The decimal numeral of `n`, without leading zeros. */
  function Decimal(n: nat): (s: string)
    ensures 1 <= |s|
    ensures AllDigits(s)
    ensures s[|s| - 1] == DigitChar(n % 10)
    ensures n > 0 ==> s[0] != '0'
  {
    if n < 10 then [DigitChar(n)] else Decimal(n / 10) + [DigitChar(n % 10)]
  }

  /** The number a string of decimal digits denotes (leading zeros allowed). */
  function Value(s: string): nat
    requires AllDigits(s)
  {
    if s == [] then 0 else Value(s[..|s| - 1]) * 10 + DigitValue(s[|s| - 1])
  }

  /** Decimal rendering and reading are inverse. */
  lemma {:induction false} ValueOfDecimal(n: nat)
    ensures Value(Decimal(n)) == n
  {
    if n < 10 {
      DigitRoundTrip(n);
      assert Decimal(n)[..0] == [];
    } else {
      var q, d := n / 10, n % 10;
      var s := Decimal(n);
      assert s == Decimal(q) + [DigitChar(d)];
      assert s[..|s| - 1] == Decimal(q);
      ValueOfDecimal(q);
      DigitRoundTrip(d);
      assert Value(s) == q * 10 + d;
    }
  }

  function Zeros(k: nat): (z: string)
    ensures |z| == k && AllDigits(z)
    ensures forall i :: 0 <= i < k ==> z[i] == '0'
  {
    if k == 0 then "" else Zeros(k - 1) + "0"
  }

  /** C's `%0Nd` for a non-negative number: zero-padded on the left to `width` characters. */
  function ZeroPad(digits: string, width: nat): (r: string)
    requires AllDigits(digits)
    ensures AllDigits(r)
    ensures |r| == if |digits| < width then width else |digits|
    ensures EndsWith(r, digits)
  {
    if |digits| < width then Zeros(width - |digits|) + digits else digits
  }

  /** Leading zeros do not change the value of a numeral. */
  lemma {:induction false} ValueIgnoresZeros(k: nat, s: string)
    requires AllDigits(s)
    ensures Value(Zeros(k) + s) == Value(s)
    decreases |s|, k
  {
    if s == [] {
      assert Zeros(k) + s == Zeros(k);
      if k > 0 {
        assert Zeros(k)[..k - 1] == Zeros(k - 1);
        ValueIgnoresZeros(k - 1, s);
        assert Zeros(k - 1) + s == Zeros(k - 1);
      }
    } else {
      var t := Zeros(k) + s;
      assert t[..|t| - 1] == Zeros(k) + s[..|s| - 1];
      ValueIgnoresZeros(k, s[..|s| - 1]);
    }
  }

  /** Reading a zero-padded decimal numeral gives back the number. */
  lemma PaddedDecimalValue(n: nat, width: nat)
    ensures Value(ZeroPad(Decimal(n), width)) == n
  {
    ValueOfDecimal(n);
    var d := Decimal(n);
    if |d| < width {
      ValueIgnoresZeros(width - |d|, d);
    }
  }
}
