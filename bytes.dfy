/** Bytes as the kernel lays them out in a perf ring buffer: unsigned
    octets, with multi-byte fields stored little-endian (x86). */
module Bytes {

  newtype byte = x: int | 0 <= x < 256

  /** 256^n: one past the largest value an n-byte field can hold. */
  function Pow256(n: nat): (r: nat)
    ensures r >= 1
  {
    if n == 0 then 1 else 256 * Pow256(n - 1)
  }

  /** The unsigned value of a little-endian byte string. */
  function LE(bs: seq<byte>): (r: nat)
    ensures r < Pow256(|bs|)
  {
    if |bs| == 0 then 0 else bs[0] as nat + 256 * LE(bs[1..])
  }

  /** The n-byte little-endian encoding of v (taken modulo 256^n). */
  function EncodeLE(v: nat, n: nat): (r: seq<byte>)
    ensures |r| == n
  {
    if n == 0 then [] else [(v % 256) as byte] + EncodeLE(v / 256, n - 1)
  }

  /** Decoding an encoding gives the value back when it fits in the field. */
  lemma {:induction false} DecodeEncode(v: nat, n: nat)
    requires v < Pow256(n)
    ensures LE(EncodeLE(v, n)) == v
  {
    if n > 0 {
      var e := EncodeLE(v, n);
      assert e[1..] == EncodeLE(v / 256, n - 1);
      DecodeEncode(v / 256, n - 1);
    }
  }

  /** Encoding a decoded byte string gives the same bytes back. */
  lemma {:induction false} EncodeDecode(bs: seq<byte>)
    ensures EncodeLE(LE(bs), |bs|) == bs
  {
    if |bs| > 0 {
      var v := LE(bs);
      assert v % 256 == bs[0] as nat && v / 256 == LE(bs[1..]);
      EncodeDecode(bs[1..]);
    }
  }
}
