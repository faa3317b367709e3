/** The value codecs of src/net/bytearray.cpp as functions on byte sequences: fixed-width integers in either
    byte order, base-128 varints, ZigZag, and length-prefixed strings. */
module Codec {
  import opened Bits
  import opened Blocks

  /** 256^w */
  function Pow256(w: nat): (r: nat)
    ensures r > 0
  {
    if w == 0 then 1 else 256 * Pow256(w - 1)
  }

  /** 128^k */
  function Pow128(k: nat): (r: nat)
    ensures r > 0
  {
    if k == 0 then 1 else 128 * Pow128(k - 1)
  }

  const TWO32: nat := 0x1_0000_0000
  const TWO64: nat := 0x1_0000_0000_0000_0000

  // ---- fixed width

  /** Least significant byte first. */
  function LittleBytes(v: nat, w: nat): (s: seq<Byte>)
    ensures |s| == w
  {
    if w == 0 then [] else [v % 256] + LittleBytes(v / 256, w - 1)
  }

  function FromLittle(s: seq<Byte>): (v: nat) {
    if s == [] then 0 else s[0] + 256 * FromLittle(s[1..])
  }

  function Reversed(s: seq<Byte>): (r: seq<Byte>)
    ensures |r| == |s|
    ensures forall i :: 0 <= i < |s| ==> r[i] == s[|s| - 1 - i]
  {
    if s == [] then [] else Reversed(s[1..]) + [s[0]]
  }

  lemma ReversedTwice(s: seq<Byte>)
    ensures Reversed(Reversed(s)) == s
  {
  }

  lemma {:induction false} LittleRoundTrip(v: nat, w: nat)
    requires v < Pow256(w)
    ensures FromLittle(LittleBytes(v, w)) == v
  {
    if w > 0 {
      LittleRoundTrip(v / 256, w - 1);
      assert LittleBytes(v, w)[1..] == LittleBytes(v / 256, w - 1);
    }
  }

  lemma {:induction false} LittleOnto(s: seq<Byte>)
    ensures FromLittle(s) < Pow256(|s|) && LittleBytes(FromLittle(s), |s|) == s
  {
    if s != [] {
      LittleOnto(s[1..]);
      var v := FromLittle(s);
      assert v / 256 == FromLittle(s[1..]) && v % 256 == s[0];
    }
  }

  /** bswap_16, bswap_32 and bswap_64: the bytes of the integer the other way round. */
  function Byteswap(v: nat, w: nat): (r: nat) {
    FromLittle(Reversed(LittleBytes(v, w)))
  }

  /** Swapping twice gives the integer back. */
  lemma ByteswapInvolution(v: nat, w: nat)
    requires v < Pow256(w)
    ensures Byteswap(v, w) < Pow256(w) && Byteswap(Byteswap(v, w), w) == v
  {
    LittleOnto(Reversed(LittleBytes(v, w)));
    ReversedTwice(LittleBytes(v, w));
    LittleRoundTrip(v, w);
  }

  /** The memory of an integer on a little- or big-endian host. */
  function Image(hostLittle: bool, v: nat, w: nat): (s: seq<Byte>)
    ensures |s| == w
  {
    if hostLittle then LittleBytes(v, w) else Reversed(LittleBytes(v, w))
  }

  function OfImage(hostLittle: bool, s: seq<Byte>): nat {
    if hostLittle then FromLittle(s) else FromLittle(Reversed(s))
  }

  /** writeFuint16/32/64: swap when the array's order is not the host's, then copy the memory. */
  function PutFixed(hostLittle: bool, little: bool, v: nat, w: nat): (s: seq<Byte>)
    ensures |s| == w
  {
    Image(hostLittle, if little != hostLittle then Byteswap(v, w) else v, w)
  }

  /** readFuint16/32/64. */
  function GetFixed(hostLittle: bool, little: bool, s: seq<Byte>): nat {
    var v := OfImage(hostLittle, s);
    if little == hostLittle then v else Byteswap(v, |s|)
  }

  /** The wire format depends on the array's byte order only, not on the machine. */
  lemma FixedOnWire(hostLittle: bool, little: bool, v: nat, w: nat)
    requires v < Pow256(w)
    ensures PutFixed(hostLittle, little, v, w) == if little then LittleBytes(v, w) else Reversed(LittleBytes(v, w))
  {
    LittleOnto(Reversed(LittleBytes(v, w)));
    ReversedTwice(LittleBytes(v, w));
  }

  lemma FixedRoundTrip(h1: bool, h2: bool, little: bool, v: nat, w: nat)
    requires v < Pow256(w)
    ensures GetFixed(h2, little, PutFixed(h1, little, v, w)) == v
  {
    FixedOnWire(h1, little, v, w);
    LittleRoundTrip(v, w);
    ReversedTwice(LittleBytes(v, w));
    ByteswapInvolution(v, w);
  }

  // ---- signed integers as two's complement

  function ToUnsigned(v: int, m: nat): nat
    requires m > 0 && 0 <= 2 * v + m < 2 * m
  {
    if v < 0 then v + m else v
  }

  function ToSigned(u: nat, m: nat): int {
    if 2 * u < m then u else u - m
  }

  // ---- ZigZag (m is 2^32 or 2^64)

  /** v < 0 ? (unsigned)(-v) * 2 - 1 : v * 2, with wrap-around. */
  function EncodeZigzag(v: int, m: nat): nat
    requires m > 0 && 0 <= 2 * v + m < 2 * m
  {
    if v < 0 then ((-v) % m * 2 - 1) % m else v * 2 % m
  }

  /** The inverse as arithmetic: complementing all bits of a word u is m - 1 - u. */
  function DecodeZigzag(u: nat, m: nat): int
    requires m % 2 == 0 && u < m
  {
    ToSigned(if u % 2 == 0 then u / 2 else m - 1 - u / 2, m)
  }

  /** The minus of words below m. */
  function Negated(x: nat, m: nat): nat
    requires x < m
  {
    if x == 0 then 0 else m - x
  }

  /** The inverse as the source has it: (v >> 1) ^ -(v & 1), on words of n bits. */
  function XorDecode(u: nat, n: nat): int
    requires n > 0
  {
    ToSigned(Xor(u / 2, Negated(u % 2, Pow2(n))), Pow2(n))
  }

  /** The two agree on every word of every width. */
  lemma DecodeXor(u: nat, n: nat)
    requires n > 0 && u < Pow2(n)
    ensures Pow2(n) % 2 == 0 && XorDecode(u, n) == DecodeZigzag(u, Pow2(n))
  {
    XorZero(u / 2);
    XorOnes(u / 2, n);
  }

  /** 128^k is 2^7k, and the two words are 2^32 and 2^64. */
  lemma {:induction false} Pow128Bits(k: nat)
    ensures Pow128(k) == Pow2(7 * k)
  {
    if k > 0 {
      Pow128Bits(k - 1);
      Pow2Sum(7 * (k - 1), 7);
      assert Pow2(7) == 128;
    }
  }

  lemma WordBits()
    ensures Pow2(32) == TWO32 && Pow2(64) == TWO64
  {
    assert Pow2(8) == 256;
    Pow2Sum(8, 8);
    Pow2Sum(16, 16);
    Pow2Sum(32, 32);
  }

  lemma SmallMod(x: nat, m: nat)
    requires x < m
    ensures x % m == x
  {
  }

  /** Where the numbers go: 0, -1, 1, -2, 2, ... to 0, 1, 2, 3, 4, ... */
  lemma ZigzagOrder(v: int, m: nat)
    requires m > 0 && 0 <= 2 * v + m < 2 * m
    ensures EncodeZigzag(v, m) == if v < 0 then -2 * v - 1 else 2 * v
  {
    if v < 0 {
      SmallMod(-v, m);
      SmallMod(-2 * v - 1, m);
    } else {
      SmallMod(2 * v, m);
    }
  }

  /** ZigZag is a bijection between the signed and the unsigned words of any even modulus, so of 2^32 and 2^64. */
  lemma ZigzagRoundTrip(v: int, m: nat)
    requires m > 0 && m % 2 == 0 && 0 <= 2 * v + m < 2 * m
    ensures EncodeZigzag(v, m) < m && DecodeZigzag(EncodeZigzag(v, m), m) == v
  {
    ZigzagOrder(v, m);
  }

  lemma ZigzagOnto(u: nat, m: nat)
    requires m % 2 == 0 && u < m
    ensures 0 <= 2 * DecodeZigzag(u, m) + m < 2 * m && EncodeZigzag(DecodeZigzag(u, m), m) == u
  {
    var v := DecodeZigzag(u, m);
    assert v == if u % 2 == 0 then u / 2 else -(u / 2) - 1;
    ZigzagOrder(v, m);
  }

  // ---- varints

  /** Seven bits at a time, low first, the top bit saying that more follow. */
  function Varint(v: nat): (s: seq<Byte>)
    ensures |s| > 0
  {
    if v < 128 then [v] else [v % 128 + 128] + Varint(v / 128)
  }

  datatype VarintResult = Number(value: nat, used: nat) | Cut

  /** readUint32/64 before truncation: at most `groups` bytes. */
  function UnVarint(s: seq<Byte>, groups: nat): (r: VarintResult)
    ensures r.Number? ==> r.used <= |s|
  {
    if groups == 0 then Number(0, 0)
    else if s == [] then Cut
    else if s[0] < 128 then Number(s[0], 1)
    else
      match UnVarint(s[1..], groups - 1)
      case Cut => Cut
      case Number(v, u) => Number(s[0] - 128 + 128 * v, u + 1)
  }

  lemma {:induction false} VarintRoundTrip(v: nat, groups: nat, rest: seq<Byte>)
    requires groups > 0 && v < Pow128(groups)
    ensures UnVarint(Varint(v) + rest, groups) == Number(v, |Varint(v)|)
    decreases v
  {
    if v >= 128 {
      assert groups > 1;
      VarintRoundTrip(v / 128, groups - 1, rest);
      assert (Varint(v) + rest)[1..] == Varint(v / 128) + rest;
    }
  }

  lemma {:induction false} VarintLength(v: nat, groups: nat)
    requires groups > 0 && v < Pow128(groups)
    ensures 1 <= |Varint(v)| <= groups
    decreases v
  {
    if v >= 128 {
      assert groups > 1;
      VarintLength(v / 128, groups - 1);
    }
  }

  lemma Powers()
    ensures Pow128(5) >= TWO32 && Pow128(10) >= TWO64
    ensures Pow256(1) == 256 && Pow256(2) == 0x1_0000 && Pow256(4) == TWO32 && Pow256(8) == TWO64
  {
    assert Pow128(2) == 128 * 128 && Pow128(4) == 128 * 128 * Pow128(2);
    assert Pow128(6) == 128 * 128 * Pow128(4) && Pow128(8) == 128 * 128 * Pow128(6);
    assert Pow256(2) == 0x1_0000 && Pow256(4) == 0x1_0000 * Pow256(2);
    assert Pow256(6) == 0x1_0000 * Pow256(4) && Pow256(8) == 0x1_0000 * Pow256(6);
  }
}
