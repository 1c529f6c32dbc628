/** crypto/crypto.go: the buffering hasher, the hexadecimal key codec
    (lower-case output, as in section 8 of RFC 4648) and the threshold share check.
    SHA-256 itself is not modelled: it is the function-typed parameter `sha`. */
module Crypto {
  import opened GoInt
  import opened Wrappers

  const HashSize: nat := 32

  type Digest = d: seq<byte> | |d| == HashSize witness seq(32, i => 0)

  /** SHA-256 over a byte string, supplied by the caller. */
  type Sha256 = seq<byte> -> Digest

  /** A `Hasher`: `Add` appends to the buffer, `Sum256` hashes the buffer
      followed by its argument and then empties the buffer (the deferred reset). */
  class Hasher {
    var data: seq<byte>

    constructor ()
      ensures data == []
    {
      data := [];
    }

    method Add(d: seq<byte>) returns (h: Hasher)
      modifies this
      ensures data == old(data) + d
      ensures h == this
    {
      data := data + d;
      h := this;
    }

    method Sum256(sha: Sha256, d: seq<byte>) returns (digest: Digest)
      modifies this
      ensures digest == sha(old(data) + d)
      ensures data == []
    {
      digest := sha(data + d);
      data := [];
    }
  }

  /** Two sums in a row: the second one hashes only its own argument. */
  method SumTwice(sha: Sha256, a: seq<byte>, b: seq<byte>, c: seq<byte>) returns (first: Digest, second: Digest)
    ensures first == sha(a + b)
    ensures second == sha(c)
  {
    var h := new Hasher();
    var _ := h.Add(a);
    assert h.data == a;
    first := h.Sum256(sha, b);
    second := h.Sum256(sha, c);
    assert [] + c == c;
  }

  // ----- hexadecimal codec -----

  /** The lower-case hexadecimal digit for a nibble, as an ASCII byte. */
  function HexDigit(v: nat): (c: byte)
    requires v < 16
    ensures (48 <= c <= 57) || (97 <= c <= 102)
  {
    if v < 10 then 48 + v else 87 + v
  }

  /** The nibble an ASCII hex digit stands for (either case), or None. */
  function HexValue(c: byte): (v: Option<nat>)
    ensures v.Some? ==> v.value < 16
  {
    if 48 <= c <= 57 then Some(c - 48)
    else if 97 <= c <= 102 then Some(c - 87)
    else if 65 <= c <= 70 then Some(c - 55)
    else None
  }

  lemma HexValueOfDigit(v: nat)
    requires v < 16
    ensures HexValue(HexDigit(v)) == Some(v)
  {
  }

  /** `hex.Encode`: two lower-case digits per byte, high nibble first. */
  function EncodeHex(b: seq<byte>): (s: seq<byte>)
    ensures |s| == 2 * |b|
    ensures forall i :: 0 <= i < |s| ==> (48 <= s[i] <= 57) || (97 <= s[i] <= 102)
  {
    if b == [] then [] else [HexDigit(b[0] / 16), HexDigit(b[0] % 16)] + EncodeHex(b[1..])
  }

  /** `hex.Decode`: None on an odd length or on any non-hex byte. */
  function DecodeHex(s: seq<byte>): (r: Option<seq<byte>>)
    ensures r.Some? ==> |s| % 2 == 0 && |r.value| == |s| / 2
  {
    if s == [] then Some([])
    else if |s| == 1 then None
    else match (HexValue(s[0]), HexValue(s[1]), DecodeHex(s[2..]))
      case (Some(hi), Some(lo), Some(rest)) => Some([(hi * 16 + lo) as byte] + rest)
      case _ => None
  }

  lemma {:induction false} DecodeEncodeHex(b: seq<byte>)
    ensures DecodeHex(EncodeHex(b)) == Some(b)
  {
    if b != [] {
      var s := EncodeHex(b);
      HexValueOfDigit(b[0] / 16);
      HexValueOfDigit(b[0] % 16);
      assert s[2..] == EncodeHex(b[1..]);
      DecodeEncodeHex(b[1..]);
      assert [b[0]] + b[1..] == b;
    }
  }

  datatype PublicKey = PublicKey(pubkey: seq<byte>)
  datatype PrivateKey = PrivateKey(prikey: seq<byte>)

  function EncodePublicKey(pub: PublicKey): (s: seq<byte>)
    ensures |s| == 2 * |pub.pubkey|
    ensures DecodeHex(s) == Some(pub.pubkey)
  {
    DecodeEncodeHex(pub.pubkey);
    EncodeHex(pub.pubkey)
  }

  /** On a decoding error the zero key (no bytes) comes back together with the error. */
  function DecodePublicKey(data: seq<byte>): (r: (PublicKey, bool))
    ensures r.1 <==> DecodeHex(data).None?
    ensures r.1 ==> r.0 == PublicKey([])
    ensures !r.1 ==> NoUpper(data) ==> EncodePublicKey(r.0) == data
  {
    match DecodeHex(data)
    case None => (PublicKey([]), true)
    case Some(b) => 
      EncodeOfDecodeHex(data);
      (PublicKey(b), false)
  }

  function EncodePrivateKey(pri: PrivateKey): (s: seq<byte>)
    ensures |s| == 2 * |pri.prikey|
    ensures DecodeHex(s) == Some(pri.prikey)
  {
    DecodeEncodeHex(pri.prikey);
    EncodeHex(pri.prikey)
  }

  function DecodePrivateKey(data: seq<byte>): (r: (PrivateKey, bool))
    ensures r.1 <==> DecodeHex(data).None?
    ensures r.1 ==> r.0 == PrivateKey([])
    ensures !r.1 ==> NoUpper(data) ==> EncodePrivateKey(r.0) == data
  {
    match DecodeHex(data)
    case None => (PrivateKey([]), true)
    case Some(b) =>
      EncodeOfDecodeHex(data);
      (PrivateKey(b), false)
  }

  /** No upper-case hex digit occurs. */
  predicate NoUpper(s: seq<byte>)
  {
    forall i :: 0 <= i < |s| ==> !(65 <= s[i] <= 70)
  }

  /** Decoding then encoding gives the input back when it used no upper-case digits. */
  lemma {:induction false} EncodeOfDecodeHex(s: seq<byte>)
    requires DecodeHex(s).Some?
    ensures NoUpper(s) ==> EncodeHex(DecodeHex(s).value) == s
  {
    if s != [] && NoUpper(s) {
      assert NoUpper(s[2..]) by {
        forall i | 0 <= i < |s[2..]| ensures !(65 <= s[2..][i] <= 70) {
          assert s[2..][i] == s[i + 2];
        }
      }
      EncodeOfDecodeHex(s[2..]);
      var b := DecodeHex(s).value;
      var hi := HexValue(s[0]).value;
      var lo := HexValue(s[1]).value;
      assert b == [(hi * 16 + lo) as byte] + DecodeHex(s[2..]).value;
      assert b[0] / 16 == hi && b[0] % 16 == lo;
      assert HexDigit(hi) == s[0] && HexDigit(lo) == s[1];
      assert b[1..] == DecodeHex(s[2..]).value;
      assert s == [s[0], s[1]] + s[2..];
    }
  }

  /** The key round trip of crypto_test.go: decoding an encoded key gives it back, without error. */
  lemma PublicKeyRoundTrip(pub: PublicKey)
    ensures DecodePublicKey(EncodePublicKey(pub)) == (pub, false)
  {
    DecodeEncodeHex(pub.pubkey);
  }

  lemma PrivateKeyRoundTrip(pri: PrivateKey)
    ensures DecodePrivateKey(EncodePrivateKey(pri)) == (pri, false)
  {
    DecodeEncodeHex(pri.prikey);
  }

  datatype SignatureShare = SignatureShare(partialSig: seq<byte>)

  /** `SignatureShare.Verify` ignores both the share and the digest and accepts. */
  predicate VerifyShare(s: SignatureShare, d: Digest)
    ensures VerifyShare(s, d)
  {
    true
  }

  /** The outcome of `CombineIntactTSPartial`: the combined signature bytes and whether it failed.
      The threshold-BLS combination itself is not modelled; callers receive it as an input. */
  datatype Combined = Combined(data: seq<byte>, failed: bool)
}
