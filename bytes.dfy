/** The byte encodings the message digests are built from: Go's
    `binary.LittleEndian/BigEndian.AppendUint64` of a value converted with
    `uint64(...)`, `strconv.AppendInt(nil, x, 2)` and `strconv.AppendBool`. */
module Bytes {
  import opened GoInt

  const TWO_64: int := 0x1_0000_0000_0000_0000

  function Pow256(k: nat): (p: nat)
    ensures p >= 1
  {
    if k == 0 then 1 else 256 * Pow256(k - 1)
  }

  /** `uint64(x)` for a signed 64-bit `x`: two's complement wrap-around. */
  function ToUint64(x: int64): (u: uint64)
    ensures u % TWO_64 == x % TWO_64
  {
    if x >= 0 then x else x + TWO_64
  }

  /** `int64(u)`, the inverse conversion, applied to the low 64 bits of `u`. */
  function ToInt64(u: int): int64
  {
    var w := u % TWO_64;
    if w < 0x8000_0000_0000_0000 then w else w - TWO_64
  }

  lemma Int64RoundTrip(x: int64)
    ensures ToInt64(ToUint64(x)) == x
  {
  }

  /** The `k` low-order bytes of `n`, least significant first. */
  function LE(n: nat, k: nat): (s: seq<byte>)
    ensures |s| == k
  {
    if k == 0 then [] else [(n % 256) as byte] + LE(n / 256, k - 1)
  }

  function FromLE(s: seq<byte>): nat
  {
    if s == [] then 0 else s[0] as nat + 256 * FromLE(s[1..])
  }

  /** The `k` low-order bytes of `n`, most significant first. */
  function BE(n: nat, k: nat): (s: seq<byte>)
    ensures |s| == k
  {
    if k == 0 then [] else BE(n / 256, k - 1) + [(n % 256) as byte]
  }

  function FromBE(s: seq<byte>): nat
  {
    if s == [] then 0 else 256 * FromBE(s[..|s| - 1]) + s[|s| - 1] as nat
  }

  /** A big-endian value of k bytes is below 256^k. */
  lemma {:induction false} FromBEBound(s: seq<byte>)
    ensures FromBE(s) < Pow256(|s|)
    decreases |s|
  {
    if s != [] {
      FromBEBound(s[..|s| - 1]);
    }
  }

  /** The parity of a big-endian value is the parity of its last byte. */
  lemma FromBEParity(s: seq<byte>)
    requires s != []
    ensures FromBE(s) % 2 == s[|s| - 1] as int % 2
  {
    var q := FromBE(s[..|s| - 1]);
    assert FromBE(s) == 2 * (128 * q) + s[|s| - 1] as int;
  }

  lemma {:induction false} FromLEOfLE(n: nat, k: nat)
    requires n < Pow256(k)
    ensures FromLE(LE(n, k)) == n
  {
    if k > 0 {
      FromLEOfLE(n / 256, k - 1);
      assert LE(n, k)[1..] == LE(n / 256, k - 1);
    }
  }

  lemma {:induction false} FromBEOfBE(n: nat, k: nat)
    requires n < Pow256(k)
    ensures FromBE(BE(n, k)) == n
  {
    if k > 0 {
      FromBEOfBE(n / 256, k - 1);
      var s := BE(n, k);
      assert s[..|s| - 1] == BE(n / 256, k - 1);
    }
  }

  /** `binary.LittleEndian.AppendUint64(nil, uint64(x))`: eight bytes. */
  function LE64(x: int64): (s: seq<byte>)
    ensures |s| == 8
  {
    LE(ToUint64(x), 8)
  }

  /** `binary.BigEndian.AppendUint64(nil, uint64(x))`: eight bytes. */
  function BE64(x: int64): (s: seq<byte>)
    ensures |s| == 8
  {
    BE(ToUint64(x), 8)
  }

  lemma Pow256Of8()
    ensures Pow256(8) == TWO_64
  {
  }

  /** The little-endian encoding determines the value: reading it back gives `x`. */
  lemma DecodeLE64(x: int64)
    ensures ToInt64(FromLE(LE64(x))) == x
  {
    var u := ToUint64(x);
    Pow256Of8();
    FromLEOfLE(u, 8);
    assert FromLE(LE64(x)) == u;
    Int64RoundTrip(x);
  }

  lemma DecodeBE64(x: int64)
    ensures ToInt64(FromBE(BE64(x))) == x
  {
    var u := ToUint64(x);
    Pow256Of8();
    FromBEOfBE(u, 8);
    assert FromBE(BE64(x)) == u;
    Int64RoundTrip(x);
  }

  lemma LE64Injective(x: int64, y: int64)
    requires LE64(x) == LE64(y)
    ensures x == y
  {
    DecodeLE64(x);
    DecodeLE64(y);
  }

  lemma BE64Injective(x: int64, y: int64)
    requires BE64(x) == BE64(y)
    ensures x == y
  {
    DecodeBE64(x);
    DecodeBE64(y);
  }

  const ZERO: byte := 48   // '0'
  const ONE: byte := 49    // '1'
  const MINUS: byte := 45  // '-'

  /** Base-2 digits of `n`, most significant first, without leading zeros. */
  function BinaryDigits(n: nat): (s: seq<byte>)
    ensures |s| >= 1 && forall i :: 0 <= i < |s| ==> s[i] == ZERO || s[i] == ONE
    ensures n >= 1 ==> s[0] == ONE
    decreases n
  {
    if n < 2 then [if n == 0 then ZERO else ONE]
    else BinaryDigits(n / 2) + [if n % 2 == 0 then ZERO else ONE]
  }

  function BinaryValue(s: seq<byte>): nat
  {
    if s == [] then 0 else 2 * BinaryValue(s[..|s| - 1]) + (if s[|s| - 1] == ONE then 1 else 0)
  }

  lemma {:induction false} BinaryValueOfDigits(n: nat)
    ensures BinaryValue(BinaryDigits(n)) == n
    decreases n
  {
    if n >= 2 {
      BinaryValueOfDigits(n / 2);
      var s := BinaryDigits(n);
      assert s[..|s| - 1] == BinaryDigits(n / 2);
    }
  }

  /** `strconv.AppendInt(nil, x, 2)`: ASCII base-2 numeral, with a leading '-' when negative. */
  function AppendInt2(x: int): (s: seq<byte>)
    ensures |s| >= 1 && (s[0] == MINUS <==> x < 0)
  {
    if x < 0 then [MINUS] + BinaryDigits(-x) else BinaryDigits(x)
  }

  /** A single base-2 numeral is decodable: equal numerals come from equal numbers. */
  lemma AppendInt2Injective(x: int, y: int)
    requires AppendInt2(x) == AppendInt2(y)
    ensures x == y
  {
    if x < 0 {
      assert AppendInt2(y)[1..] == BinaryDigits(-y) == BinaryDigits(-x);
      BinaryValueOfDigits(-x);
      BinaryValueOfDigits(-y);
    } else {
      BinaryValueOfDigits(x);
      BinaryValueOfDigits(y);
    }
  }

  /** `strconv.AppendBool`: the ASCII text "true" or "false". */
  function AppendBool(b: bool): (s: seq<byte>)
    ensures |s| == (if b then 4 else 5)
  {
    if b then [116, 114, 117, 101] else [102, 97, 108, 115, 101]
  }
}
