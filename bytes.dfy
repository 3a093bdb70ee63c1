/** Fixed-width integers and their little-endian byte images.

    C#'s `int` is a 32-bit two's-complement integer; a `double` is kept here as
    its raw 64-bit pattern, so that encoding and decoding are about bytes, not
    about floating point (NaN payloads and signed zeros included). */
module Bytes {

  type Byte = b: int | 0 <= b < 256

  const TwoTo31: int := 0x8000_0000
  const TwoTo32: int := 0x1_0000_0000
  const TwoTo64: int := 0x1_0000_0000_0000_0000

  /** C# `int`. */
  type Int32 = x: int | -0x8000_0000 <= x < 0x8000_0000

  /** The bit pattern of a C# `double`. */
  type Bits64 = x: int | 0 <= x < 0x1_0000_0000_0000_0000

  /** The bit pattern of the double 0.0. */
  const ZeroDouble: Bits64 := 0

  /** Byte widths of C# int and double. */
  const Int32Width: nat := 4
  const DoubleWidth: nat := 8

  function Pow256(n: nat): (r: nat)
    ensures r > 0
  {
    if n == 0 then 1 else 256 * Pow256(n - 1)
  }

  lemma Pow256Widths()
    ensures Pow256(Int32Width) == TwoTo32
    ensures Pow256(DoubleWidth) == TwoTo64
  {
    assert Pow256(2) == 0x1_0000;
    assert Pow256(4) == 0x1_0000_0000;
    assert Pow256(6) == 0x1_0000_0000_0000;
  }

  /** The n least significant bytes of u, least significant first. */
  function ToLittleEndian(u: nat, n: nat): (r: seq<Byte>)
    requires u < Pow256(n)
    ensures |r| == n
    decreases n
  {
    if n == 0 then []
    else [u % 256] + ToLittleEndian(u / 256, n - 1)
  }

  /** The unsigned number whose little-endian image is s. */
  function FromLittleEndian(s: seq<Byte>): (u: nat)
    ensures u < Pow256(|s|)
  {
    if s == [] then 0 else s[0] + 256 * FromLittleEndian(s[1..])
  }

  lemma {:induction false} FromToLittleEndian(u: nat, n: nat)
    requires u < Pow256(n)
    ensures FromLittleEndian(ToLittleEndian(u, n)) == u
    decreases n
  {
    if n > 0 {
      var s := ToLittleEndian(u, n);
      assert s[1..] == ToLittleEndian(u / 256, n - 1);
      FromToLittleEndian(u / 256, n - 1);
    }
  }

  lemma {:induction false} ToFromLittleEndian(s: seq<Byte>)
    ensures ToLittleEndian(FromLittleEndian(s), |s|) == s
  {
    if s != [] {
      var u := FromLittleEndian(s);
      assert u % 256 == s[0] && u / 256 == FromLittleEndian(s[1..]);
      ToFromLittleEndian(s[1..]);
    }
  }

  /** Two's complement: the 32-bit pattern that stores x. */
  function Int32ToBits(x: Int32): (u: nat)
    ensures u < TwoTo32
    ensures u % TwoTo32 == x % TwoTo32
    ensures (u >= TwoTo31) == (x < 0)
  {
    if x < 0 then x + TwoTo32 else x
  }

  /** The C# `int` stored in the 32-bit pattern u. */
  function BitsToInt32(u: nat): (x: Int32)
    requires u < TwoTo32
    ensures x % TwoTo32 == u % TwoTo32
  {
    if u >= TwoTo31 then u - TwoTo32 else u
  }

  function EncodeInt32(x: Int32): (r: seq<Byte>)
    ensures |r| == Int32Width
  {
    Pow256Widths();
    ToLittleEndian(Int32ToBits(x), Int32Width)
  }

  function DecodeInt32(s: seq<Byte>): Int32
    requires |s| == Int32Width
  {
    Pow256Widths();
    BitsToInt32(FromLittleEndian(s))
  }

  function EncodeBits64(b: Bits64): (r: seq<Byte>)
    ensures |r| == DoubleWidth
  {
    Pow256Widths();
    ToLittleEndian(b, DoubleWidth)
  }

  function DecodeBits64(s: seq<Byte>): Bits64
    requires |s| == DoubleWidth
  {
    Pow256Widths();
    FromLittleEndian(s)
  }

  lemma Int32RoundTrip(x: Int32)
    ensures DecodeInt32(EncodeInt32(x)) == x
  {
    Pow256Widths();
    FromToLittleEndian(Int32ToBits(x), Int32Width);
  }

  lemma Int32BytesRoundTrip(s: seq<Byte>)
    requires |s| == Int32Width
    ensures EncodeInt32(DecodeInt32(s)) == s
  {
    Pow256Widths();
    ToFromLittleEndian(s);
  }

  lemma Bits64RoundTrip(b: Bits64)
    ensures DecodeBits64(EncodeBits64(b)) == b
  {
    Pow256Widths();
    FromToLittleEndian(b, DoubleWidth);
  }

  lemma Bits64BytesRoundTrip(s: seq<Byte>)
    requires |s| == DoubleWidth
    ensures EncodeBits64(DecodeBits64(s)) == s
  {
    Pow256Widths();
    ToFromLittleEndian(s);
  }
}
