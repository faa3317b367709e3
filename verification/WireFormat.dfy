/** The bytes on the wire (src/net/bytearray.cpp:66-204), stated without the functions that make them: fixed-width
    integers in the byte order of the array, base-128 varints, ZigZag numbers, and strings behind their length. */
module WireFormat {
  import opened Blocks
  import opened Codec
  import opened Values

  /** The w bytes are the digits of n to base 256, the lowest first or last. */
  ghost predicate IsFixed(e: seq<Byte>, n: nat, w: nat, little: bool) {
    |e| == w && forall i :: 0 <= i < w ==> e[if little then i else w - 1 - i] == n / Pow256(i) % 256
  }

  /** The number whose digits to base 128 are the low seven bits of the bytes, the lowest first. */
  function LowBits(e: seq<Byte>): nat {
    if e == [] then 0 else e[0] % 128 + 128 * LowBits(e[1..])
  }

  /** The top bit of every byte but the last is set, and no byte is wasted. */
  ghost predicate IsVarint(e: seq<Byte>, n: nat) {
    && e != [] && LowBits(e) == n
    && (forall k :: 0 <= k < |e| - 1 ==> e[k] >= 128) && e[|e| - 1] < 128
    && (|e| > 1 ==> e[|e| - 1] > 0)
  }

  lemma AtLeast(d: int, x: int)
    requires d > 0 && x >= 1
    ensures d * x >= d
  {
  }

  lemma Zero(d: int, x: int)
    requires d > 0 && 0 - d < d * x < d
    ensures x == 0
  {
    assert d * (0 - x) == 0 - d * x;
    if x >= 1 {
      AtLeast(d, x);
    } else if x <= -1 {
      AtLeast(d, 0 - x);
    }
  }

  lemma Quotient(n: nat, d: nat, q: nat, r: nat)
    requires d > 0 && r < d && n == d * q + r
    ensures n / d == q
  {
    assert d * (n / d - q) == r - n % d;
    Zero(d, n / d - q);
  }

  lemma DivTwice(n: nat, b: nat)
    requires b > 0
    ensures n / 256 / b == n / (256 * b)
  {
    var q, r := n / 256 / b, n / 256 % b;
    assert n / 256 == b * q + r;
    assert n == 256 * (b * q + r) + n % 256;
    assert 256 * (b * q) == (256 * b) * q;
    Quotient(n, 256 * b, q, 256 * r + n % 256);
  }

  lemma {:induction false} LittleDigits(v: nat, w: nat)
    ensures IsFixed(LittleBytes(v, w), v, w, true)
    decreases w
  {
    if w > 0 {
      LittleDigits(v / 256, w - 1);
      forall i | 0 <= i < w ensures LittleBytes(v, w)[i] == v / Pow256(i) % 256 {
        if i > 0 {
          assert LittleBytes(v, w)[i] == LittleBytes(v / 256, w - 1)[i - 1];
          DivTwice(v, Pow256(i - 1));
        }
      }
    }
  }

  /** Fixed-width integers have the byte order of the array, whatever the machine. */
  lemma FixedFormat(host: bool, little: bool, n: nat, w: nat)
    requires n < Pow256(w)
    ensures IsFixed(PutFixed(host, little, n, w), n, w, little)
  {
    FixedOnWire(host, little, n, w);
    LittleDigits(n, w);
  }

  lemma {:induction false} VarintFormat(n: nat)
    ensures IsVarint(Varint(n), n)
    decreases n
  {
    if n >= 128 {
      var rest := Varint(n / 128);
      VarintFormat(n / 128);
      assert Varint(n) == [n % 128 + 128] + rest && Varint(n)[1..] == rest;
      forall k | 0 <= k < |Varint(n)| - 1 ensures Varint(n)[k] >= 128 {
        assert k > 0 ==> Varint(n)[k] == rest[k - 1];
      }
    } else {
      assert [n][1..] == [];
    }
  }

  /** The number that an integer in two's complement of w bytes is. */
  function TwosComplement(i: int, w: nat): int {
    if i >= 0 then i else i + Pow256(w)
  }

  /** 0, -1, 1, -2, 2, ... are 0, 1, 2, 3, 4, ... */
  function ZigzagNumber(i: int): nat {
    if i >= 0 then 2 * i else -2 * i - 1
  }

  ghost predicate OnWire(e: seq<Byte>, little: bool, v: Value)
    requires InRange(v)
  {
    match v
    case Fixed(w, n) => IsFixed(e, n, w, little)
    case FixedSigned(w, i) => TwosComplement(i, w) >= 0 && IsFixed(e, TwosComplement(i, w), w, little)
    case Uint32(n) => IsVarint(e, n)
    case Uint64(n) => IsVarint(e, n)
    case Int32(i) => IsVarint(e, ZigzagNumber(i))
    case Int64(i) => IsVarint(e, ZigzagNumber(i))
    case StringF(w, s) => |e| == w + |s| && IsFixed(e[..w], |s|, w, little) && e[w..] == s
    case StringVint(s) => |e| >= |s| && IsVarint(e[..|e| - |s|], |s|) && e[|e| - |s|..] == s
  }

  lemma StringFormat(prefix: seq<Byte>, s: seq<Byte>)
    ensures (prefix + s)[..|prefix|] == prefix && (prefix + s)[|prefix|..] == s
  {
  }

  lemma NumberFormat(host: bool, little: bool, v: Value)
    requires InRange(v) && !v.StringF? && !v.StringVint?
    ensures OnWire(Encode(host, little, v), little, v)
  {
    match v
    case Fixed(w, n) => FixedFormat(host, little, n, w);
    case FixedSigned(w, i) => FixedFormat(host, little, ToUnsigned(i, Pow256(w)), w);
    case Uint32(n) => VarintFormat(n);
    case Uint64(n) => VarintFormat(n);
    case Int32(i) =>
      ZigzagOrder(i, TWO32);
      VarintFormat(ZigzagNumber(i));
    case Int64(i) =>
      ZigzagOrder(i, TWO64);
      VarintFormat(ZigzagNumber(i));
  }

  /** Every write member puts its value on the wire in this format. */
  lemma EncodeFormat(host: bool, little: bool, v: Value)
    requires InRange(v)
    ensures OnWire(Encode(host, little, v), little, v)
  {
    match v
    case StringF(w, s) =>
      FixedFormat(host, little, |s|, w);
      StringFormat(PutFixed(host, little, |s|, w), s);
    case StringVint(s) =>
      VarintFormat(|s|);
      StringFormat(Varint(|s|), s);
    case _ => NumberFormat(host, little, v);
  }

  // ---- what is not written by these members

  lemma {:induction false} OverlongStops(s: seq<Byte>, groups: nat)
    requires groups <= |s| && forall i :: 0 <= i < groups ==> s[i] >= 128
    ensures UnVarint(s, groups) == Number(LowBits(s[..groups]), groups)
    decreases groups
  {
    if groups > 0 {
      OverlongStops(s[1..], groups - 1);
      assert s[..groups][1..] == s[1..][..groups - 1];
    }
  }

  /** A varint that does not end: the readers stop after 5 or 10 bytes, and keep what fits into the word. */
  lemma OverlongRead(host: bool, little: bool, s: seq<Byte>)
    ensures |s| >= 5 && (forall i :: 0 <= i < 5 ==> s[i] >= 128) ==>
              Decode(host, little, KUint32, s) == Got(Uint32(LowBits(s[..5]) % TWO32), 5)
    ensures |s| >= 10 && (forall i :: 0 <= i < 10 ==> s[i] >= 128) ==>
              Decode(host, little, KUint64, s) == Got(Uint64(LowBits(s[..10]) % TWO64), 10)
  {
    if |s| >= 5 && forall i :: 0 <= i < 5 ==> s[i] >= 128 {
      OverlongStops(s, 5);
    }
    if |s| >= 10 && forall i :: 0 <= i < 10 ==> s[i] >= 128 {
      OverlongStops(s, 10);
    }
  }

  lemma {:induction false} CutVarint(s: seq<Byte>, groups: nat)
    requires |s| < groups && forall i :: 0 <= i < |s| ==> s[i] >= 128
    ensures UnVarint(s, groups) == Cut
    decreases |s|
  {
    if s != [] {
      CutVarint(s[1..], groups - 1);
    }
  }

  /** Too little data: fewer bytes than the width, a varint without its last byte, or a string shorter than its length
      says. */
  lemma ShortRead(host: bool, little: bool, k: Kind, s: seq<Byte>)
    requires GoodKind(k)
    ensures (k.KFixed? || k.KFixedSigned? || k.KStringF?) && |s| < k.w ==> Decode(host, little, k, s) == Short
    ensures (k.KUint32? || k.KInt32?) && |s| < 5 && (forall i :: 0 <= i < |s| ==> s[i] >= 128) ==>
              Decode(host, little, k, s) == Short
    ensures (k.KUint64? || k.KInt64? || k.KStringVint?) && |s| < 10 && (forall i :: 0 <= i < |s| ==> s[i] >= 128) ==>
              Decode(host, little, k, s) == Short
  {
    if forall i :: 0 <= i < |s| ==> s[i] >= 128 {
      if |s| < 5 {
        CutVarint(s, 5);
      }
      if |s| < 10 {
        CutVarint(s, 10);
      }
    }
  }

  lemma ShortFixed(h1: bool, h2: bool, little: bool, w: nat, text: seq<Byte>, n: nat)
    requires InRange(StringF(w, text)) && n < |text|
    ensures Decode(h2, little, KStringF(w), PutFixed(h1, little, |text|, w) + text[..n]) == Short
  {
    var prefix := PutFixed(h1, little, |text|, w);
    FixedRoundTrip(h1, h2, little, |text|, w);
    StringFormat(prefix, text[..n]);
  }

  lemma ShortVint(h2: bool, little: bool, text: seq<Byte>, n: nat)
    requires |text| < TWO64 && n < |text|
    ensures Decode(h2, little, KStringVint, Varint(|text|) + text[..n]) == Short
  {
    assert |text| < Pow128(10) by {
      Powers();
    }
    VarintRoundTrip(|text|, 10, text[..n]);
    SmallMod(|text|, TWO64);
    var s := Varint(|text|) + text[..n];
    assert Decode(h2, little, KStringVint, s) == DecodeBody(KStringVint, s, |Varint(|text|)|, |text|);
  }

  /** A string that is cut short. */
  lemma ShortString(h1: bool, h2: bool, little: bool, v: Value, n: nat)
    requires InRange(v) && (v.StringF? || v.StringVint?) && n < |v.s|
    ensures var e := Encode(h1, little, v);
            |e| >= |v.s| && Decode(h2, little, KindOf(v), e[..|e| - |v.s| + n]) == Short
  {
    var prefix := if v.StringF? then PutFixed(h1, little, |v.s|, v.w) else Varint(|v.s|);
    assert Encode(h1, little, v) == prefix + v.s;
    CutText(prefix, v.s, n);
    if v.StringF? {
      ShortFixed(h1, h2, little, v.w, v.s, n);
    } else {
      ShortVint(h2, little, v.s, n);
    }
  }

  lemma CutText(prefix: seq<Byte>, text: seq<Byte>, n: nat)
    requires n <= |text|
    ensures (prefix + text)[..|prefix| + n] == prefix + text[..n]
  {
  }
}
