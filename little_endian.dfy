/** `encoding/binary.LittleEndian` for 64-bit values, and the conversions
    between Go's `int64` and `uint64` that the probe loop applies to its send
    timestamp. */
module LittleEndian {
  import opened Bytes

  const TwoTo63: nat := 0x8000_0000_0000_0000
  const TwoTo64: nat := 0x1_0000_0000_0000_0000

  function Pow256(n: nat): (p: nat)
    ensures p >= 1
  {
    if n == 0 then 1 else 256 * Pow256(n - 1)
  }

  /** The `n` low-order bytes of `v`, least significant first. */
  function Encode(v: nat, n: nat): (b: seq<byte>)
    ensures |b| == n
  {
    if n == 0 then [] else [(v % 256) as byte] + Encode(v / 256, n - 1)
  }

  /** The number whose little-endian bytes are `b`. */
  function Decode(b: seq<byte>): nat
  {
    if b == [] then 0 else b[0] as nat + 256 * Decode(b[1..])
  }

  /** `PutUint64`: the eight bytes written for `v`. */
  function PutUint64(v: nat): (b: seq<byte>)
    requires v < TwoTo64
    ensures |b| == 8
  {
    Encode(v, 8)
  }

  /** `Uint64`: the value read from the first eight bytes of `b`. */
  function Uint64(b: seq<byte>): (v: nat)
    requires |b| >= 8
    ensures v < TwoTo64
  {
    DecodeBound(b[..8]);
    Decode(b[..8])
  }

  /** `uint64(x)`: two's-complement reinterpretation of a signed value. */
  function ToUint64(x: int): (u: nat)
    ensures u < TwoTo64
    ensures 0 <= x < TwoTo64 ==> u == x
  {
    x % TwoTo64
  }

  /** `int64(u)`: the signed reading of a 64-bit pattern. */
  function ToInt64(u: nat): (x: int)
    requires u < TwoTo64
    ensures -(TwoTo63 as int) <= x < TwoTo63
    ensures ToUint64(x) == u
  {
    if u < TwoTo63 then u else u - TwoTo64
  }

  lemma {:induction false} DecodeBound(b: seq<byte>)
    ensures Decode(b) < Pow256(|b|)
  {
    if b != [] {
      DecodeBound(b[1..]);
    }
  }

  /** Decoding the encoding of a value that fits gives the value back. */
  lemma {:induction false} DecodeEncode(v: nat, n: nat)
    requires v < Pow256(n)
    ensures Decode(Encode(v, n)) == v
  {
    if n > 0 {
      var q, r := v / 256, v % 256;
      QuotientBound(v, Pow256(n - 1));
      DecodeEncode(q, n - 1);
      var e := Encode(v, n);
      assert e == [r as byte] + Encode(q, n - 1);
      assert e[1..] == Encode(q, n - 1);
      assert Decode(e) == r + 256 * q;
    }
  }

  lemma QuotientBound(v: nat, p: nat)
    requires v < 256 * p
    ensures v / 256 < p && v == 256 * (v / 256) + v % 256
  {
  }

  /** Encoding a decoded byte string gives the same bytes back. */
  lemma {:induction false} EncodeDecode(b: seq<byte>)
    ensures Encode(Decode(b), |b|) == b
  {
    if b != [] {
      var v, rest := Decode(b), Decode(b[1..]);
      DivModByte(b[0] as nat, rest);
      EncodeDecode(b[1..]);
      assert Encode(v, |b|) == [b[0]] + b[1..];
    }
  }

  lemma DivModByte(lo: nat, hi: nat)
    requires lo < 256
    ensures (lo + 256 * hi) % 256 == lo && (lo + 256 * hi) / 256 == hi
  {
  }

  lemma Pow256Eight()
    ensures Pow256(8) == TwoTo64
  {
  }

  /** `Uint64` reads back what `PutUint64` wrote. */
  lemma Uint64PutUint64(v: nat)
    requires v < TwoTo64
    ensures Uint64(PutUint64(v)) == v
  {
    Pow256Eight();
    DecodeEncode(v, 8);
    assert PutUint64(v)[..8] == PutUint64(v);
  }

  /** `PutUint64` rewrites the first eight bytes it was read from. */
  lemma PutUint64Uint64(b: seq<byte>)
    requires |b| >= 8
    ensures PutUint64(Uint64(b)) == b[..8]
  {
    EncodeDecode(b[..8]);
  }

  /** A non-negative nanosecond timestamp that fits in `int64` survives
      `uint64`, `PutUint64`, `Uint64` and `int64` unchanged. */
  lemma TimestampRoundTrip(ns: nat)
    requires ns < TwoTo63
    ensures ToInt64(Uint64(PutUint64(ToUint64(ns)))) == ns
  {
    Uint64PutUint64(ns);
  }
}
