/**
 * Bytes, fixed-width unsigned integers and their little-endian encoding,
 * as Rust's `uN::from_le_bytes` / `uN::to_le_bytes` define them.
 */
module Bytes {

  type Byte = x: int | 0 <= x < 256

  const U32_LIMIT: nat := 0x1_0000_0000
  const U64_LIMIT: nat := 0x1_0000_0000_0000_0000
  const U128_LIMIT: nat := 0x1_0000_0000_0000_0000_0000_0000_0000_0000

  type U32 = x: nat | x < U32_LIMIT
  type U64 = x: nat | x < U64_LIMIT
  type U128 = x: nat | x < U128_LIMIT

  const U64_MAX: U64 := U64_LIMIT - 1

  /** A Solana address: 32 raw bytes. */
  type Pubkey = k: seq<Byte> | |k| == 32 witness seq(32, i => 0)

  /** A 32-byte digest such as an intent hash. */
  type Hash32 = h: seq<Byte> | |h| == 32 witness Zeros(32)

  /** `Pubkey::default()`: the all-zero address. */
  const DEFAULT_PUBKEY: Pubkey := Zeros(32)

  /** `n` zero bytes, the contents of freshly allocated account data. */
  function Zeros(n: nat): (r: seq<Byte>)
    ensures |r| == n
    ensures forall i :: 0 <= i < n ==> r[i] == 0
  {
    seq(n, i => 0)
  }

  /** 256 to the power `n`: the number of values `n` bytes can hold. */
  function Pow256(n: nat): (r: nat)
    ensures r > 0
  {
    if n == 0 then 1 else 256 * Pow256(n - 1)
  }

  lemma WidthLimits()
    ensures Pow256(4) == U32_LIMIT
    ensures Pow256(8) == U64_LIMIT
    ensures Pow256(16) == U128_LIMIT
  {
  }

  /** The unsigned integer whose little-endian bytes are `s` (byte 0 least significant). */
  function LeDecode(s: seq<Byte>): nat
  {
    if s == [] then 0 else s[0] + 256 * LeDecode(s[1..])
  }

  /** The `n` little-endian bytes of `v`, truncated to `n` bytes. */
  function LeEncode(v: nat, n: nat): (r: seq<Byte>)
    ensures |r| == n
  {
    if n == 0 then [] else [v % 256] + LeEncode(v / 256, n - 1)
  }

  lemma {:induction false} LeDecodeBound(s: seq<Byte>)
    ensures LeDecode(s) < Pow256(|s|)
  {
    if s != [] {
      LeDecodeBound(s[1..]);
    }
  }

  /** Encoding a value that fits and decoding it gives the value back. */
  lemma {:induction false} LeDecodeEncode(v: nat, n: nat)
    requires v < Pow256(n)
    ensures LeDecode(LeEncode(v, n)) == v
  {
    if n > 0 {
      LeDecodeEncode(v / 256, n - 1);
      assert LeEncode(v, n)[1..] == LeEncode(v / 256, n - 1);
    }
  }

  /** Decoding bytes and encoding the value at the same width gives the bytes back. */
  lemma {:induction false} LeEncodeDecode(s: seq<Byte>)
    ensures LeEncode(LeDecode(s), |s|) == s
  {
    if s != [] {
      LeEncodeDecode(s[1..]);
      var v := LeDecode(s);
      assert v % 256 == s[0] && v / 256 == LeDecode(s[1..]);
    }
  }

  lemma {:induction false} LeDecodeZeros(n: nat)
    ensures LeDecode(Zeros(n)) == 0
  {
    if n > 0 {
      LeDecodeZeros(n - 1);
      assert Zeros(n)[1..] == Zeros(n - 1);
    }
  }

  /** Two byte strings of the same width decode to the same value only if they are equal. */
  lemma LeDecodeInjective(s: seq<Byte>, t: seq<Byte>)
    requires |s| == |t| && LeDecode(s) == LeDecode(t)
    ensures s == t
  {
    LeEncodeDecode(s);
    LeEncodeDecode(t);
  }

  /** `u32::from_le_bytes` of four bytes. */
  function U32Le(s: seq<Byte>): (r: U32)
    requires |s| == 4
    ensures LeEncode(r, 4) == s
  {
    LeDecodeBound(s);
    WidthLimits();
    LeEncodeDecode(s);
    LeDecode(s)
  }

  /** `u64::from_le_bytes` of eight bytes. */
  function U64Le(s: seq<Byte>): (r: U64)
    requires |s| == 8
    ensures LeEncode(r, 8) == s
  {
    LeDecodeBound(s);
    WidthLimits();
    LeEncodeDecode(s);
    LeDecode(s)
  }

  /** `u128::from_le_bytes` of sixteen bytes. */
  function U128Le(s: seq<Byte>): (r: U128)
    requires |s| == 16
    ensures LeEncode(r, 16) == s
  {
    LeDecodeBound(s);
    WidthLimits();
    LeEncodeDecode(s);
    LeDecode(s)
  }

  /** `u64::to_le_bytes` read back with `u64::from_le_bytes`. */
  lemma U64RoundTrip(v: U64)
    ensures U64Le(LeEncode(v, 8)) == v
  {
    WidthLimits();
    LeDecodeEncode(v, 8);
  }

  lemma U32RoundTrip(v: U32)
    ensures U32Le(LeEncode(v, 4)) == v
  {
    WidthLimits();
    LeDecodeEncode(v, 4);
  }

  lemma U128RoundTrip(v: U128)
    ensures U128Le(LeEncode(v, 16)) == v
  {
    WidthLimits();
    LeDecodeEncode(v, 16);
  }
}
