/** Decimal rendering and parsing of integers (Python's `f'{i}'` and Go's `%d`),
    and the small string helpers the path builders and the log scanner need. */
module Text {

  predicate IsDigit(c: char) { '0' <= c <= '9' }

  predicate IsDigits(s: string) { |s| > 0 && forall i :: 0 <= i < |s| ==> IsDigit(s[i]) }

  function DigitChar(d: nat): (c: char)
    requires d < 10
    ensures IsDigit(c) && (c as int) - ('0' as int) == d
  {
    ['0', '1', '2', '3', '4', '5', '6', '7', '8', '9'][d]
  }

  /** The decimal numeral of `n`, most significant digit first, without leading zeros. */
  function NatToString(n: nat): (s: string)
    ensures IsDigits(s)
    ensures s[0] == '0' ==> n == 0
    decreases n
  {
    if n < 10 then [DigitChar(n)] else NatToString(n / 10) + [DigitChar(n % 10)]
  }

  /** `str(i)` / `%d`: a minus sign for negative numbers, then the digits. */
  function IntToString(i: int): (s: string)
    ensures |s| > 0 && (s[0] == '-' <==> i < 0)
    ensures i >= 0 ==> s == NatToString(i)
  {
    if i < 0 then "-" + NatToString(-i) else NatToString(i)
  }

  /** The value of a string of decimal digits. */
  function DigitValue(c: char): (d: nat)
    requires IsDigit(c)
    ensures d < 10
  {
    (c as int) - ('0' as int)
  }

  function ParseNat(s: string): nat
    requires forall i :: 0 <= i < |s| ==> IsDigit(s[i])
  {
    if s == [] then 0
    else ParseNat(s[..|s| - 1]) * 10 + DigitValue(s[|s| - 1])
  }

  /** Reading a numeral back gives the number it was written from. */
  lemma {:induction false} ParseNatToString(n: nat)
    ensures ParseNat(NatToString(n)) == n
    decreases n
  {
    if n >= 10 {
      var s := NatToString(n);
      ParseNatToString(n / 10);
      assert s[..|s| - 1] == NatToString(n / 10);
    }
  }

  lemma NatToStringInjective(a: nat, b: nat)
    requires NatToString(a) == NatToString(b)
    ensures a == b
  {
    ParseNatToString(a);
    ParseNatToString(b);
  }

  lemma IntToStringInjective(a: int, b: int)
    requires IntToString(a) == IntToString(b)
    ensures a == b
  {
    if a < 0 {
      assert IntToString(b)[1..] == NatToString(-b) == NatToString(-a);
      NatToStringInjective(-a, -b);
    } else {
      NatToStringInjective(a, b);
    }
  }

  /** Python's `s * n`: `n` copies of `s`, none when `n <= 0`. */
  function Repeat(s: string, n: int): (r: string)
    ensures |r| == (if n <= 0 then 0 else n * |s|)
    ensures |s| == 1 ==> forall i :: 0 <= i < |r| ==> r[i] == s[0]
    decreases if n <= 0 then 0 else n
  {
    if n <= 0 then [] else s + Repeat(s, n - 1)
  }

  /** Whether `pat` occurs in `s` as a contiguous substring (Python's `search` of a literal). */
  predicate OccursAt(s: string, pat: string, at: int)
  {
    0 <= at && at + |pat| <= |s| && s[at..at + |pat|] == pat
  }

  predicate Contains(s: string, pat: string)
  {
    exists at | 0 <= at <= |s| :: OccursAt(s, pat, at)
  }
}
