/** Go's fixed-width integer types and its truncating integer division. */
module GoInt {

  type int64 = x: int | -0x8000_0000_0000_0000 <= x < 0x8000_0000_0000_0000
  type uint64 = x: int | 0 <= x < 0x1_0000_0000_0000_0000
  type int8 = x: int | -128 <= x < 128
  type uint8 = x: int | 0 <= x < 256
  type byte = uint8

  function Abs(x: int): nat { if x < 0 then -x else x }

  /** Go's `/` on signed integers: the quotient truncated toward zero, so the
      remainder `a - q * b` has the sign of `a` and is smaller than `b` in size. */
  function Quot(a: int, b: int): (q: int)
    requires b != 0
    ensures var r := a - q * b; Abs(r) < Abs(b) && (r == 0 || (r < 0 <==> a < 0))
  {
    var ua, ub := Abs(a), Abs(b);
    var uq := ua / ub;
    var p := uq * ub;
    assert ua == p + ua % ub;
    var q := if (a < 0) == (b < 0) then uq else -uq;
    assert q * b == (if a < 0 then -p else p);
    q
  }

  /** Facts about Euclidean division used by the residue arguments. */
  lemma {:induction false} MulAtLeast(n: nat, d: nat)
    requires d >= 1
    ensures n * d >= n
    decreases d
  {
    if d > 1 {
      MulAtLeast(n, d - 1);
      assert n * d == n * (d - 1) + n;
    }
  }
  lemma DivModUnique(x: int, n: int, q: int, r: int)
    requires n > 0 && x == n * q + r && 0 <= r < n
    ensures x % n == r && x / n == q
  {
    var q' := x / n;
    var r' := x % n;
    assert x == n * q' + r';
    var d := q - q';
    assert n * q == n * q' + n * d;
    assert n * d == r' - r;
    if d >= 1 {
      MulAtLeast(n, d);
    }
  }
  lemma ModAddMultiple(a: int, n: int, k: int)
    requires n > 0
    ensures (a + n * k) % n == a % n
  {
    var q := a / n;
    var r := a % n;
    assert a == n * q + r;
    assert n * (q + k) == n * q + n * k;
    DivModUnique(a + n * k, n, q + k, r);
  }

  /** A remainder is at most the non-negative number divided. */
  lemma ModAtMost(x: nat, n: int)
    requires n > 0
    ensures 0 <= x % n <= x && x % n < n
  {
    if x < n {
      DivModUnique(x, n, 0, x);
    }
  }

  /** Stepping an index around a ring of size n. */
  lemma ModSucc(x: int, n: int)
    requires n > 0
    ensures (x % n + 1) % n == (x + 1) % n
  {
    var q := x / n;
    var r := x % n;
    assert x == n * q + r;
    if r + 1 < n {
      DivModUnique(x + 1, n, q, r + 1);
      DivModUnique(r + 1, n, 0, r + 1);
    } else {
      assert x + 1 == n * (q + 1) + 0;
      DivModUnique(x + 1, n, q + 1, 0);
      DivModUnique(r + 1, n, 1, 0);
    }
  }

  /** `x + 1` on an int64, wrapping from the largest value to the smallest. */
  function Inc64(x: int64): (y: int64)
    ensures x < 0x7FFF_FFFF_FFFF_FFFF ==> y as int == x as int + 1
    ensures x == 0x7FFF_FFFF_FFFF_FFFF ==> y == -0x8000_0000_0000_0000
  {
    if x == 0x7FFF_FFFF_FFFF_FFFF then -0x8000_0000_0000_0000 else x + 1
  }
}
