/** Typed values in a `ByteArray`: the read/write members of src/net/bytearray.cpp that stand on `write` and
    `read`, and the round trip of whole lists of values. */
module Values {
  import opened Bits
  import opened Blocks
  import opened ByteArrays
  import opened ByteArrayRuns
  import opened Codec

  datatype Value =
    | Fixed(w: nat, n: nat)         // writeFuint8, 16, 32, 64
    | FixedSigned(w: nat, i: int)   // writeFint8, 16, 32, 64
    | Uint32(n: nat) | Uint64(n: nat)
    | Int32(i: int) | Int64(i: int)
    | StringF(w: nat, s: seq<Byte>) // writeStringF16, F32, F64
    | StringVint(s: seq<Byte>)

  datatype Kind =
    | KFixed(w: nat) | KFixedSigned(w: nat) | KUint32 | KUint64 | KInt32 | KInt64 | KStringF(w: nat) | KStringVint

  function KindOf(v: Value): Kind {
    match v
    case Fixed(w, _) => KFixed(w)
    case FixedSigned(w, _) => KFixedSigned(w)
    case Uint32(_) => KUint32
    case Uint64(_) => KUint64
    case Int32(_) => KInt32
    case Int64(_) => KInt64
    case StringF(w, _) => KStringF(w)
    case StringVint(_) => KStringVint
  }

  predicate GoodKind(k: Kind) {
    match k
    case KFixed(w) => w in {1, 2, 4, 8}
    case KFixedSigned(w) => w in {1, 2, 4, 8}
    case KStringF(w) => w in {2, 4, 8}
    case _ => true
  }

  predicate SignedRange(i: int, m: nat) {
    0 <= 2 * i + m < 2 * m
  }

  /** The value fits its C++ type; a string's length fits its length prefix. */
  predicate InRange(v: Value) {
    GoodKind(KindOf(v)) &&
    match v
    case Fixed(w, n) => n < Pow256(w)
    case FixedSigned(w, i) => SignedRange(i, Pow256(w))
    case Uint32(n) => n < TWO32
    case Uint64(n) => n < TWO64
    case Int32(i) => SignedRange(i, TWO32)
    case Int64(i) => SignedRange(i, TWO64)
    case StringF(w, s) => |s| < Pow256(w)
    case StringVint(s) => |s| < TWO64
  }

  /** What the write member puts at the cursor. */
  function Encode(host: bool, little: bool, v: Value): (e: seq<Byte>)
    requires InRange(v)
    ensures |e| > 0
  {
    match v
    case Fixed(w, n) => PutFixed(host, little, n, w)
    case FixedSigned(w, i) => PutFixed(host, little, ToUnsigned(i, Pow256(w)), w)
    case Uint32(n) => Varint(n)
    case Uint64(n) => Varint(n)
    case Int32(i) => Varint(EncodeZigzag(i, TWO32))
    case Int64(i) => Varint(EncodeZigzag(i, TWO64))
    case StringF(w, s) => PutFixed(host, little, |s|, w) + s
    case StringVint(s) => Varint(|s|) + s
  }

  datatype Decoded = Got(v: Value, used: nat) | Short

  /** What the read member makes of the readable bytes. */
  function Decode(host: bool, little: bool, k: Kind, s: seq<Byte>): (d: Decoded)
    requires GoodKind(k)
    ensures d.Got? ==> d.used <= |s|
  {
    if k.KFixed? || k.KFixedSigned? || k.KStringF? then
      if |s| < k.w then Short
      else
        var x := GetFixed(host, little, s[..k.w]);
        if k.KFixed? then Got(Fixed(k.w, x), k.w)
        else if k.KFixedSigned? then Got(FixedSigned(k.w, ToSigned(x, Pow256(k.w))), k.w)
        else DecodeBody(k, s, k.w, x)
    else
      match UnVarint(s, Groups(k))
      case Cut => Short
      case Number(x, u) =>
        if k.KStringVint? then DecodeBody(k, s, u, x % TWO64) else Got(OfNumber(k, x), u)
  }

  /** How many bytes the varint loops read at most: shifts below 32 or below 64, in steps of 7. */
  function Groups(k: Kind): nat {
    if k.KUint32? || k.KInt32? then 5 else 10
  }

  function OfNumber(k: Kind, x: nat): Value {
    match k
    case KUint32 => Uint32(x % TWO32)
    case KInt32 => Int32(DecodeZigzag(x % TWO32, TWO32))
    case KInt64 => Int64(DecodeZigzag(x % TWO64, TWO64))
    case _ => Uint64(x % TWO64)
  }

  /** A string of `len` bytes behind its length prefix, which ends at `at`. */
  function DecodeBody(k: Kind, s: seq<Byte>, at: nat, len: nat): (d: Decoded)
    requires at <= |s| && (k.KStringF? || k.KStringVint?)
    ensures d.Got? ==> d.used <= |s|
  {
    if |s| - at < len then Short
    else if k.KStringF? then Got(StringF(k.w, s[at..at + len]), at + len)
    else Got(StringVint(s[at..at + len]), at + len)
  }

  ghost predicate ComesBack(h1: bool, h2: bool, little: bool, v: Value, rest: seq<Byte>)
    requires InRange(v)
  {
    Decode(h2, little, KindOf(v), Encode(h1, little, v) + rest) == Got(v, |Encode(h1, little, v)|)
  }

  lemma Front(e: seq<Byte>, rest: seq<Byte>)
    ensures (e + rest)[..|e|] == e
  {
  }

  lemma Behind(e: seq<Byte>, t: seq<Byte>, rest: seq<Byte>)
    ensures e + t + rest == e + (t + rest)
    ensures (e + t + rest)[..|e|] == e && (e + t + rest)[|e|..|e| + |t|] == t
  {
  }

  lemma FixedComesBack(h1: bool, h2: bool, little: bool, w: nat, n: nat, rest: seq<Byte>)
    requires InRange(Fixed(w, n))
    ensures ComesBack(h1, h2, little, Fixed(w, n), rest)
  {
    FixedRoundTrip(h1, h2, little, n, w);
    Front(PutFixed(h1, little, n, w), rest);
  }

  lemma FixedSignedComesBack(h1: bool, h2: bool, little: bool, w: nat, i: int, rest: seq<Byte>)
    requires InRange(FixedSigned(w, i))
    ensures ComesBack(h1, h2, little, FixedSigned(w, i), rest)
  {
    var u := ToUnsigned(i, Pow256(w));
    FixedRoundTrip(h1, h2, little, u, w);
    Front(PutFixed(h1, little, u, w), rest);
  }

  lemma Uint32ComesBack(h1: bool, h2: bool, little: bool, n: nat, rest: seq<Byte>)
    requires InRange(Uint32(n))
    ensures ComesBack(h1, h2, little, Uint32(n), rest)
  {
    var g := Groups(KUint32);
    assert n < Pow128(g) by { Powers(); }
    VarintRoundTrip(n, g, rest);
  }

  lemma Uint64ComesBack(h1: bool, h2: bool, little: bool, n: nat, rest: seq<Byte>)
    requires InRange(Uint64(n))
    ensures ComesBack(h1, h2, little, Uint64(n), rest)
  {
    var g := Groups(KUint64);
    assert n < Pow128(g) by { Powers(); }
    VarintRoundTrip(n, g, rest);
  }

  lemma Int32ComesBack(h1: bool, h2: bool, little: bool, i: int, rest: seq<Byte>)
    requires InRange(Int32(i))
    ensures ComesBack(h1, h2, little, Int32(i), rest)
  {
    var g, x := Groups(KInt32), EncodeZigzag(i, TWO32);
    ZigzagRoundTrip(i, TWO32);
    assert x < Pow128(g) by { Powers(); }
    VarintRoundTrip(x, g, rest);
    SmallMod(x, TWO32);
  }

  lemma Int64ComesBack(h1: bool, h2: bool, little: bool, i: int, rest: seq<Byte>)
    requires InRange(Int64(i))
    ensures ComesBack(h1, h2, little, Int64(i), rest)
  {
    var g, x := Groups(KInt64), EncodeZigzag(i, TWO64);
    ZigzagRoundTrip(i, TWO64);
    assert x < Pow128(g) by { Powers(); }
    VarintRoundTrip(x, g, rest);
    SmallMod(x, TWO64);
  }

  lemma StringFComesBack(h1: bool, h2: bool, little: bool, w: nat, t: seq<Byte>, rest: seq<Byte>)
    requires InRange(StringF(w, t))
    ensures ComesBack(h1, h2, little, StringF(w, t), rest)
  {
    var e := PutFixed(h1, little, |t|, w);
    FixedRoundTrip(h1, h2, little, |t|, w);
    Behind(e, t, rest);
  }

  lemma StringVintComesBack(h1: bool, h2: bool, little: bool, t: seq<Byte>, rest: seq<Byte>)
    requires InRange(StringVint(t))
    ensures ComesBack(h1, h2, little, StringVint(t), rest)
  {
    var e, g := Varint(|t|), Groups(KStringVint);
    assert |t| < Pow128(g) by { Powers(); }
    VarintRoundTrip(|t|, g, t + rest);
    SmallMod(|t|, TWO64);
    Behind(e, t, rest);
  }

  /** Every value comes back from its encoding, whatever follows it and whatever machine reads it. */
  lemma DecodeEncode(h1: bool, h2: bool, little: bool, v: Value, rest: seq<Byte>)
    requires InRange(v)
    ensures Decode(h2, little, KindOf(v), Encode(h1, little, v) + rest) == Got(v, |Encode(h1, little, v)|)
  {
    assert ComesBack(h1, h2, little, v, rest) by {
      match v
      case Fixed(w, n) => FixedComesBack(h1, h2, little, w, n, rest);
      case FixedSigned(w, i) => FixedSignedComesBack(h1, h2, little, w, i, rest);
      case Uint32(n) => Uint32ComesBack(h1, h2, little, n, rest);
      case Uint64(n) => Uint64ComesBack(h1, h2, little, n, rest);
      case Int32(i) => Int32ComesBack(h1, h2, little, i, rest);
      case Int64(i) => Int64ComesBack(h1, h2, little, i, rest);
      case StringF(w, t) => StringFComesBack(h1, h2, little, w, t, rest);
      case StringVint(t) => StringVintComesBack(h1, h2, little, t, rest);
    }
  }

  // ---- writing

  /** The cursor has passed `e`, which now stands where the cursor was; nothing else that was there changed. */
  ghost predicate Appended(s: Flat, e: seq<Byte>, t: Flat) {
    && Overwrote(s.bytes, t.bytes, s.position, e)
    && t.position == s.position + |e|
    && t.size == Max(s.size, t.position)
  }

  lemma AppendedTwice(s: Flat, d: seq<Byte>, t: Flat, e: seq<Byte>, u: Flat)
    requires Appended(s, d, t) && Appended(t, e, u)
    ensures Appended(s, d + e, u)
  {
    OverwroteTwice(s.bytes, t.bytes, u.bytes, s.position, d, e);
  }

  method Put(ba: ByteArray, e: seq<Byte>)
    requires ba.Valid()
    modifies ba.Repr
    ensures ba.Valid() && fresh(ba.Repr - old(ba.Repr)) && ba.littleEndian == old(ba.littleEndian)
    ensures Appended(old(View(ba)), e, View(ba))
  {
    ba.Write(e);
  }

  /** writeUint32 (limit 5) and writeUint64 (limit 10): the bytes are built in a buffer of exactly that size. */
  method WriteVarint(ba: ByteArray, v: nat, limit: nat)
    requires ba.Valid() && limit > 0 && v < Pow128(limit)
    modifies ba.Repr
    ensures ba.Valid() && fresh(ba.Repr - old(ba.Repr)) && ba.littleEndian == old(ba.littleEndian)
    ensures Appended(old(View(ba)), Varint(v), View(ba))
  {
    var tmp := VarintBytes(v, limit);
    Put(ba, tmp);
  }

  lemma MarkMore(x: nat)
    requires x < 128
    ensures Or(x, 128) == x + 128
  {
    assert Pow2(7) == 128;
    OrAbove(x, 1, 7);
  }

  method VarintBytes(v: nat, limit: nat) returns (s: seq<Byte>)
    requires limit > 0 && v < Pow128(limit)
    ensures s == Varint(v)
  {
    var tmp := new Byte[limit];
    var value, i := v, 0;
    while value >= 0x80
      invariant 0 <= i < limit && 0 <= value < Pow128(limit - i)
      invariant tmp[..i] + Varint(value) == Varint(v)
      decreases value
    {
      assert limit - i > 1;
      ghost var before := tmp[..i];
      MarkMore(value % 128);
      tmp[i] := Or(value % 128, 128);
      assert tmp[..i + 1] == before + [value % 128 + 128];
      value := value / 128;
      i := i + 1;
    }
    tmp[i] := value;
    assert tmp[..i + 1] == tmp[..i] + [value];
    s := tmp[..i + 1];
  }

  method WriteValue(ba: ByteArray, host: bool, v: Value)
    requires ba.Valid() && InRange(v)
    modifies ba.Repr
    ensures ba.Valid() && fresh(ba.Repr - old(ba.Repr)) && ba.littleEndian == old(ba.littleEndian)
    ensures Appended(old(View(ba)), Encode(host, ba.littleEndian, v), View(ba))
  {
    Powers();
    match v
    case Fixed(w, n) => Put(ba, PutFixed(host, ba.littleEndian, n, w));
    case FixedSigned(w, i) => Put(ba, PutFixed(host, ba.littleEndian, ToUnsigned(i, Pow256(w)), w));
    case Uint32(n) => WriteVarint(ba, n, 5);
    case Uint64(n) => WriteVarint(ba, n, 10);
    case Int32(i) =>
      ZigzagRoundTrip(i, TWO32);
      WriteVarint(ba, EncodeZigzag(i, TWO32), 5);
    case Int64(i) =>
      ZigzagRoundTrip(i, TWO64);
      WriteVarint(ba, EncodeZigzag(i, TWO64), 10);
    case StringF(w, s) => PutString(ba, PutFixed(host, ba.littleEndian, |s|, w), s);
    case StringVint(s) =>
      var e := VarintBytes(|s|, 10);
      PutString(ba, e, s);
  }

  /** A length prefix, and then the bytes of the string. */
  method PutString(ba: ByteArray, prefix: seq<Byte>, s: seq<Byte>)
    requires ba.Valid()
    modifies ba.Repr
    ensures ba.Valid() && fresh(ba.Repr - old(ba.Repr)) && ba.littleEndian == old(ba.littleEndian)
    ensures Appended(old(View(ba)), prefix + s, View(ba))
  {
    Put(ba, prefix);
    ghost var mid := View(ba);
    Put(ba, s);
    AppendedTwice(old(View(ba)), prefix, mid, s, View(ba));
  }

  // ---- reading

  datatype Outcome<T> = Ok(value: T) | Throws | Null

  /** The readable bytes. */
  ghost function Avail(f: Flat): seq<Byte>
    requires f.position <= f.size <= |f.bytes|
  {
    f.bytes[f.position..f.size]
  }

  /** A read moves nothing but the cursor. */
  ghost predicate Moved(s: Flat, t: Flat) {
    s.bytes == t.bytes && s.size == t.size && s.position <= t.position <= t.size <= |t.bytes|
  }

  lemma AvailAfter(s: Flat, t: Flat)
    requires Moved(s, t)
    ensures t.position - s.position <= |Avail(s)| && Avail(t) == Avail(s)[t.position - s.position..]
  {
  }

  method Get(ba: ByteArray, n: nat) returns (r: ReadResult)
    requires ba.Valid()
    modifies ba`position, ba`cur
    ensures ba.Valid() && Moved(old(View(ba)), View(ba))
    ensures |Avail(old(View(ba)))| < n ==> r == OutOfRange && ba.position == old(ba.position)
    ensures |Avail(old(View(ba)))| >= n ==>
              if n == 0 && ba.position == ba.capacity then r == NullCursor
              else r == Data(Avail(old(View(ba)))[..n]) && ba.position == old(ba.position) + n
    ensures r == NullCursor ==> n == 0 && ba.position == old(ba.position)
  {
    ba.BytesLength();
    r := ba.Read(n);
    ghost var s := old(View(ba));
    if r.Data? {
      assert Avail(s)[..n] == s.bytes[s.position..s.position + n];
    }
  }

  method ReadFixed(ba: ByteArray, host: bool, w: nat) returns (r: Outcome<nat>)
    requires ba.Valid() && w > 0
    modifies ba`position, ba`cur
    ensures ba.Valid() && Moved(old(View(ba)), View(ba))
    ensures var a := Avail(old(View(ba)));
            if |a| < w then r == Throws
            else r == Ok(GetFixed(host, ba.littleEndian, a[..w])) && ba.position == old(ba.position) + w
  {
    var d := Get(ba, w);
    r := if d.Data? then Ok(GetFixed(host, ba.littleEndian, d.bytes)) else Throws;
  }

  lemma ModShift(y: nat, q: nat, m: nat)
    requires m > 0
    ensures (y + q * m) % m == y % m
  {
    assert y + q * m == (y / m + q) * m + y % m;
    QuotientUnique(y + q * m, y / m + q, y % m, m);
  }

  /** x * p is a multiple of p also when it is cut to a word of m == p * q. */
  lemma ScaledMod(x: nat, p: nat, q: nat, m: nat) returns (low: nat, lost: nat)
    requires p > 0 && q > 0 && m == p * q
    ensures m > 0 && x * p % m == low * p && low * p + p <= m && x * p == low * p + lost * m
  {
    low, lost := x % q, x / q;
    Regroup(lost, q, low, p);
    ProductMono(low + 1, q, p);
    Regroup(0, 0, low + 1, p);
    Positive(p, q);
    QuotientUnique(x * p, lost, low * p, m);
  }

  lemma Positive(p: nat, q: nat)
    requires p > 0 && q > 0
    ensures p * q > 0
  {
  }

  lemma Regroup(d: nat, q: nat, r: nat, p: nat)
    ensures (d * q + r) * p == r * p + d * (p * q)
    ensures r > 0 ==> r * p == (r - 1) * p + p
  {
  }

  /** Or-ing bits above those of `a` into a word of n bits adds them; what is shifted out of the word is lost. */
  lemma OrWord(a: nat, x: nat, k: nat, n: nat)
    requires k <= n && a < Pow2(k)
    ensures Or(a % Pow2(n), x * Pow2(k) % Pow2(n)) == (a + x * Pow2(k)) % Pow2(n)
  {
    var p, m := Pow2(k), Pow2(n);
    Pow2Sum(k, n - k);
    var low, lost := ScaledMod(x, p, Pow2(n - k), m);
    OrAbove(a, low, k);
    CutSum(a, x * p, low * p, lost, m);
  }

  /** A sum loses what its second part loses. */
  lemma CutSum(a: nat, y: nat, rest: nat, lost: nat, m: nat)
    requires a + rest < m && y == rest + lost * m
    ensures a % m == a && (a + y) % m == a + rest
  {
    SmallMod(a, m);
    ModShift(a + rest, lost, m);
    SmallMod(a + rest, m);
  }

  /** x << 7 * k */
  ghost function Shifted(x: nat, k: nat): nat {
    if k == 0 then x else 128 * Shifted(x, k - 1)
  }

  lemma {:induction false} ShiftedIsProduct(x: nat, k: nat)
    ensures Shifted(x, k) == x * Pow128(k)
  {
    if k > 0 {
      ShiftedIsProduct(x, k - 1);
      assert 128 * (x * Pow128(k - 1)) == x * (128 * Pow128(k - 1));
    }
  }

  /** Base-128 value of a run of groups. */
  ghost function Sum(s: seq<Byte>): nat {
    if s == [] then 0 else Sum(s[..|s| - 1]) + Shifted(s[|s| - 1] % 128, |s| - 1)
  }

  /** The same, cut to a word. */
  ghost function Word(s: seq<Byte>, wide: bool): nat {
    if wide then Sum(s) % TWO64 else Sum(s) % TWO32
  }

  lemma {:induction false} SumFront(b: Byte, s: seq<Byte>)
    ensures Sum([b] + s) == b % 128 + 128 * Sum(s)
  {
    if s == [] {
      assert ([b] + s)[..0] == [];
    } else {
      var n := |s| - 1;
      SumFront(b, s[..n]);
      assert ([b] + s)[..n + 1] == [b] + s[..n];
    }
  }

  /** Reading `k` continuation bytes, and then a last one, the end of the data, or the end of the loop. */
  lemma UnVarintSum(s: seq<Byte>, k: nat, groups: nat)
    requires k <= groups && k <= |s| && forall i :: 0 <= i < k ==> s[i] >= 128
    ensures k == groups ==> UnVarint(s, groups) == Number(Sum(s[..k]), k)
    ensures k < groups && k == |s| ==> UnVarint(s, groups) == Cut
    ensures k < groups && k < |s| && s[k] < 128 ==> UnVarint(s, groups) == Number(Sum(s[..k + 1]), k + 1)
  {
    if k == groups {
      UnVarintEnds(s, k, groups);
    } else if k == |s| {
      UnVarintCut(s, groups);
    } else if s[k] < 128 {
      UnVarintEnds(s, k + 1, groups);
    }
  }

  lemma {:induction false} UnVarintEnds(s: seq<Byte>, n: nat, groups: nat)
    requires n <= |s| && n <= groups && (forall i :: 0 <= i < n - 1 ==> s[i] >= 128)
    requires n == 0 || s[n - 1] >= 128 ==> n == groups
    ensures UnVarint(s, groups) == Number(Sum(s[..n]), n)
    decreases n
  {
    if n > 0 {
      SumCons(s, n);
      if n > 1 || s[0] >= 128 {
        UnVarintEnds(s[1..], n - 1, groups - 1);
      }
    }
  }

  lemma {:induction false} UnVarintCut(s: seq<Byte>, groups: nat)
    requires |s| < groups && forall i :: 0 <= i < |s| ==> s[i] >= 128
    ensures UnVarint(s, groups) == Cut
    decreases |s|
  {
    if s != [] {
      UnVarintCut(s[1..], groups - 1);
    }
  }

  lemma SumCons(s: seq<Byte>, k: nat)
    requires 0 < k <= |s|
    ensures Sum(s[..k]) == s[0] % 128 + 128 * Sum(s[1..][..k - 1])
  {
    SumFront(s[0], s[1..][..k - 1]);
    assert s[..k] == [s[0]] + s[1..][..k - 1];
  }

  lemma {:induction false} SumBound(s: seq<Byte>)
    ensures Sum(s) < Pow128(|s|)
    decreases |s|
  {
    if s != [] {
      var n := |s| - 1;
      SumBound(s[..n]);
      ShiftedIsProduct(s[n] % 128, n);
      ProductMono(s[n] % 128, 127, Pow128(n));
    }
  }

  /** readUint32 and readUint64 (wide). */
  method ReadVarint(ba: ByteArray, wide: bool) returns (r: Outcome<nat>)
    requires ba.Valid()
    modifies ba`position, ba`cur
    ensures ba.Valid() && Moved(old(View(ba)), View(ba))
    ensures match UnVarint(Avail(old(View(ba))), if wide then 10 else 5)
            case Cut => r == Throws
            case Number(v, u) => r == Ok(if wide then v % TWO64 else v % TWO32) && ba.position == old(ba.position) + u
  {
    ba.BytesLength();
    ghost var start := View(ba);
    ghost var s := Avail(start);
    var groups := if wide then 10 else 5;
    var result, i := 0, 0;
    while i < groups
      invariant 0 <= i <= groups && i <= |s| && ba.Valid() && Moved(start, View(ba))
      invariant ba.position == start.position + i
      invariant forall j :: 0 <= j < i ==> s[j] >= 128
      invariant result == Word(s[..i], wide)
    {
      UnVarintSum(s, i, groups);
      var b;
      b, result := NextGroup(ba, wide, result, i, start);
      if !b.Ok? {
        return Throws;
      }
      if b.value < 0x80 {
        return Ok(result);
      }
      i := i + 1;
    }
    UnVarintSum(s, i, groups);
    return Ok(result);
  }

  /** The next byte, and its bits or-ed into `result`. */
  method NextGroup(ba: ByteArray, wide: bool, result: nat, i: nat, ghost start: Flat)
    returns (b: Outcome<Byte>, r: nat)
    requires ba.Valid() && Moved(start, View(ba)) && ba.position == start.position + i && 7 * i < Width(wide)
    requires i <= |Avail(start)| && result == Word(Avail(start)[..i], wide)
    modifies ba`position, ba`cur
    ensures ba.Valid() && Moved(start, View(ba))
    ensures if i == |Avail(start)| then b == Throws
            else && b == Ok(Avail(start)[i]) && ba.position == start.position + i + 1
                 && r == Word(Avail(start)[..i + 1], wide)
  {
    b := NextByte(ba, start, i);
    r := result;
    if b.Ok? {
      r := OrIn(result, b.value, i, wide, Avail(start));
    }
  }

  /** readFuint8, `i` bytes behind `start`. */
  method NextByte(ba: ByteArray, ghost start: Flat, ghost i: nat) returns (r: Outcome<Byte>)
    requires ba.Valid() && Moved(start, View(ba)) && ba.position == start.position + i
    modifies ba`position, ba`cur
    ensures ba.Valid() && Moved(start, View(ba)) && i <= |Avail(start)|
    ensures if i < |Avail(start)| then r == Ok(Avail(start)[i]) && ba.position == start.position + i + 1
            else r == Throws
  {
    AvailAfter(start, View(ba));
    var d := Get(ba, 1);
    r := if d.Data? then Ok(d.bytes[0]) else Throws;
  }

  /** The bits of a word. */
  function Width(wide: bool): nat {
    if wide then 64 else 32
  }

  /** result |= (b & 0x7f) << 7 * i */
  method OrIn(result: nat, b: Byte, i: nat, wide: bool, ghost s: seq<Byte>) returns (r: nat)
    requires i < |s| && b == s[i] && result == Word(s[..i], wide) && 7 * i < Width(wide)
    ensures r == Word(s[..i + 1], wide)
  {
    r := Or(result, b % 128 * Pow2(7 * i) % Pow2(Width(wide)));
    OrInAdds(s, i, wide);
  }

  /** One more group: the bits or-ed in are above all bits of `result`. */
  lemma OrInAdds(s: seq<Byte>, i: nat, wide: bool)
    requires i < |s| && 7 * i < Width(wide)
    ensures Or(Word(s[..i], wide), s[i] % 128 * Pow2(7 * i) % Pow2(Width(wide))) == Word(s[..i + 1], wide)
  {
    assert s[..i + 1][..i] == s[..i];
    WordBits();
    Pow128Bits(i);
    SumBound(s[..i]);
    ShiftedIsProduct(s[i] % 128, i);
    OrWord(Sum(s[..i]), s[i] % 128, 7 * i, Width(wide));
  }

  predicate EmptyString(v: Value) {
    (v.StringF? || v.StringVint?) && v.s == []
  }

  /** What the read member for a kind promises, from `start` on.  Besides too little data, one thing goes wrong: the
      body of an empty string is a zero-length `read`, which follows the null cursor when the length prefix ended at
      the capacity. */
  ghost predicate Answers(d: Decoded, start: Flat, now: Flat, r: Outcome<Value>) {
    match d
    case Short => r == Throws
    case Got(v, u) =>
      if EmptyString(v) && start.position + u == |start.bytes| then r == Null
      else r == Ok(v) && now.position == start.position + u
  }

  /** The read member for kind `k`. */
  method ReadValue(ba: ByteArray, host: bool, k: Kind) returns (r: Outcome<Value>)
    requires ba.Valid() && GoodKind(k)
    modifies ba`position, ba`cur
    ensures ba.Valid() && Moved(old(View(ba)), View(ba))
    ensures Answers(Decode(host, ba.littleEndian, k, Avail(old(View(ba)))), old(View(ba)), View(ba), r)
  {
    if k.KFixed? || k.KFixedSigned? || k.KStringF? {
      r := ReadFixedKind(ba, host, k);
    } else {
      r := ReadVarintKind(ba, host, k);
    }
  }

  method ReadFixedKind(ba: ByteArray, host: bool, k: Kind) returns (r: Outcome<Value>)
    requires ba.Valid() && GoodKind(k) && (k.KFixed? || k.KFixedSigned? || k.KStringF?)
    modifies ba`position, ba`cur
    ensures ba.Valid() && Moved(old(View(ba)), View(ba))
    ensures Answers(Decode(host, ba.littleEndian, k, Avail(old(View(ba)))), old(View(ba)), View(ba), r)
  {
    var x := ReadFixed(ba, host, k.w);
    if !x.Ok? {
      return Throws;
    }
    if k.KFixed? {
      return Ok(Fixed(k.w, x.value));
    } else if k.KFixedSigned? {
      return Ok(FixedSigned(k.w, ToSigned(x.value, Pow256(k.w))));
    } else {
      r := ReadBody(ba, k, x.value, k.w, old(View(ba)));
    }
  }

  method ReadVarintKind(ba: ByteArray, ghost host: bool, k: Kind) returns (r: Outcome<Value>)
    requires ba.Valid() && !(k.KFixed? || k.KFixedSigned? || k.KStringF?)
    modifies ba`position, ba`cur
    ensures ba.Valid() && Moved(old(View(ba)), View(ba))
    ensures Answers(Decode(host, ba.littleEndian, k, Avail(old(View(ba)))), old(View(ba)), View(ba), r)
  {
    ba.BytesLength();
    ghost var d := UnVarint(Avail(old(View(ba))), Groups(k));
    var x := ReadVarint(ba, !(k.KUint32? || k.KInt32?));
    if !x.Ok? {
      return Throws;
    }
    if k.KStringVint? {
      r := ReadBody(ba, k, x.value, ba.position - old(ba.position), old(View(ba)));
    } else {
      OfWordIs(k, d.value);
      r := Ok(OfWord(k, x.value));
    }
  }

  /** The conversion of a word that a varint reader returned. */
  function OfWord(k: Kind, x: nat): Value {
    match k
    case KUint32 => Uint32(x)
    case KInt32 => Int32(XorDecode(x, 32))
    case KInt64 => Int64(XorDecode(x, 64))
    case _ => Uint64(x)
  }

  lemma OfWordIs(k: Kind, x: nat)
    requires !k.KStringVint?
    ensures var word := if k.KUint32? || k.KInt32? then x % TWO32 else x % TWO64;
            OfWord(k, word) == OfNumber(k, x)
  {
    WordBits();
    if k.KInt32? {
      DecodeXor(x % TWO32, 32);
    } else if k.KInt64? {
      DecodeXor(x % TWO64, 64);
    }
  }

  method ReadBody(ba: ByteArray, k: Kind, len: nat, ghost at: nat, ghost start: Flat) returns (r: Outcome<Value>)
    requires ba.Valid() && (k.KStringF? || k.KStringVint?)
    requires Moved(start, View(ba)) && ba.position == start.position + at
    modifies ba`position, ba`cur
    ensures ba.Valid() && Moved(start, View(ba))
    ensures at <= |Avail(start)|
    ensures Answers(DecodeBody(k, Avail(start), at, len), start, View(ba), r)
  {
    ba.BytesLength();
    AvailAfter(start, View(ba));
    ghost var a := Avail(start);
    var d := Get(ba, len);
    match d
    case OutOfRange => r := Throws;
    case NullCursor => r := Null;
    case Data(t) =>
      assert a[at..][..len] == a[at..at + len];
      r := Ok(if k.KStringF? then StringF(k.w, t) else StringVint(t));
  }

  // ---- lists of values

  ghost predicate AllInRange(vs: seq<Value>) {
    forall i :: 0 <= i < |vs| ==> InRange(vs[i])
  }

  ghost function Encodings(host: bool, little: bool, vs: seq<Value>): (es: seq<seq<Byte>>)
    requires AllInRange(vs)
    ensures |es| == |vs|
    ensures forall i :: 0 <= i < |es| ==> |es[i]| > 0
  {
    seq(|vs|, i requires 0 <= i < |vs| => Encode(host, little, vs[i]))
  }

  ghost function EncodeAll(host: bool, little: bool, vs: seq<Value>): seq<Byte>
    requires AllInRange(vs)
  {
    Flatten(Encodings(host, little, vs))
  }

  method WriteAll(ba: ByteArray, host: bool, vs: seq<Value>)
    requires ba.Valid() && AllInRange(vs)
    modifies ba.Repr
    ensures ba.Valid() && fresh(ba.Repr - old(ba.Repr)) && ba.littleEndian == old(ba.littleEndian)
    ensures Appended(old(View(ba)), EncodeAll(host, ba.littleEndian, vs), View(ba))
  {
    ba.BytesLength();
    ghost var start, little, es := View(ba), ba.littleEndian, Encodings(host, ba.littleEndian, vs);
    for i := 0 to |vs|
      invariant ba.Valid() && fresh(ba.Repr - old(ba.Repr)) && ba.littleEndian == little
      invariant Appended(start, Flatten(es[..i]), View(ba))
    {
      WriteNext(ba, host, vs, i, start, es);
    }
    assert es[..|vs|] == es;
  }

  method WriteNext(ba: ByteArray, host: bool, vs: seq<Value>, i: nat, ghost start: Flat, ghost es: seq<seq<Byte>>)
    requires ba.Valid() && AllInRange(vs) && i < |vs| && es == Encodings(host, ba.littleEndian, vs)
    requires Appended(start, Flatten(es[..i]), View(ba))
    modifies ba.Repr
    ensures ba.Valid() && fresh(ba.Repr - old(ba.Repr)) && ba.littleEndian == old(ba.littleEndian)
    ensures Appended(start, Flatten(es[..i + 1]), View(ba))
  {
    ghost var mid := View(ba);
    WriteValue(ba, host, vs[i]);
    AppendedTwice(start, Flatten(es[..i]), mid, es[i], View(ba));
    assert es[..i + 1][..i] == es[..i];
  }

  /** The one list of values that cannot be read back: it ends in an empty string, right at the capacity. */
  predicate EndsBadly(vs: seq<Value>, end: nat, capacity: nat) {
    vs != [] && EmptyString(vs[|vs| - 1]) && end == capacity
  }

  /** `ends[i]` is where the encoding of value `i` starts among the readable bytes `a`. */
  ghost predicate Laid(h: bool, little: bool, vs: seq<Value>, ends: seq<nat>, a: seq<Byte>)
    requires AllInRange(vs)
  {
    && |ends| == |vs| + 1 && ends[0] == 0
    && forall i :: 0 <= i < |vs| ==> LaidAt(h, little, vs, ends, a, i)
  }

  ghost predicate LaidAt(h: bool, little: bool, vs: seq<Value>, ends: seq<nat>, a: seq<Byte>, i: nat)
    requires AllInRange(vs) && |ends| == |vs| + 1 && i < |vs|
  {
    && ends[i] + |Encode(h, little, vs[i])| == ends[i + 1] <= ends[|vs|] <= |a|
    && a[ends[i]..ends[i + 1]] == Encode(h, little, vs[i])
    && (i + 1 < |vs| ==> ends[i + 1] < ends[|vs|])
  }

  ghost predicate ChunksLaid(es: seq<seq<Byte>>, ends: seq<nat>, a: seq<Byte>) {
    && |ends| == |es| + 1 && ends[0] == 0 && ends[|es|] <= |a|
    && forall i {:trigger es[i]} :: 0 <= i < |es| ==>
         && ends[i] + |es[i]| == ends[i + 1] <= ends[|es|]
         && a[ends[i]..ends[i + 1]] == es[i]
         && (i + 1 < |es| ==> ends[i + 1] < ends[|es|])
  }

  lemma {:induction false} LayOutChunks(es: seq<seq<Byte>>, a: seq<Byte>) returns (ends: seq<nat>)
    requires Flatten(es) <= a && forall i :: 0 <= i < |es| ==> |es[i]| > 0
    ensures ChunksLaid(es, ends, a) && ends[|es|] == |Flatten(es)|
    decreases |es|
  {
    if es == [] {
      ends := [0];
    } else {
      var n := |es| - 1;
      var pre, e := Flatten(es[..n]), es[n];
      var ends' := LayOutChunks(es[..n], a);
      ends := ends' + [|pre| + |e|];
      assert a[|pre|..|pre| + |e|] == (pre + e)[|pre|..];
      forall i {:trigger es[i]} | 0 <= i < |es|
        ensures ends[i] + |es[i]| == ends[i + 1] <= ends[|es|]
        ensures a[ends[i]..ends[i + 1]] == es[i]
        ensures i + 1 < |es| ==> ends[i + 1] < ends[|es|]
      {
        if i < n {
          assert es[..n][i] == es[i] && ends[i] == ends'[i] && ends[i + 1] == ends'[i + 1];
        }
      }
    }
  }

  lemma LayOut(h: bool, little: bool, vs: seq<Value>, a: seq<Byte>) returns (ends: seq<nat>)
    requires AllInRange(vs) && EncodeAll(h, little, vs) <= a
    ensures Laid(h, little, vs, ends, a) && ends[|vs|] == |EncodeAll(h, little, vs)|
  {
    var es := Encodings(h, little, vs);
    ends := LayOutChunks(es, a);
    forall i | 0 <= i < |vs| ensures LaidAt(h, little, vs, ends, a, i) {
      assert es[i] == Encode(h, little, vs[i]);
    }
  }

  /** With the values before `i` read, the next one decodes; it can end at the capacity only if it is the last. */
  lemma NextAt(h1: bool, h2: bool, little: bool, vs: seq<Value>, ends: seq<nat>, i: nat, start: Flat, now: Flat)
    requires AllInRange(vs) && i < |vs| && Moved(start, now)
    requires Laid(h1, little, vs, ends, Avail(start)) && now.position == start.position + ends[i]
    ensures now.position + |Encode(h1, little, vs[i])| == start.position + ends[i + 1]
    ensures Decode(h2, little, KindOf(vs[i]), Avail(now)) == Got(vs[i], |Encode(h1, little, vs[i])|)
    ensures start.position + ends[i + 1] == |now.bytes| ==> i == |vs| - 1
  {
    var e, a := Encode(h1, little, vs[i]), Avail(start);
    assert LaidAt(h1, little, vs, ends, a, i);
    AvailAfter(start, now);
    var b := Avail(now);
    assert b == e + b[|e|..] by {
      assert b[..|e|] == a[ends[i]..ends[i + 1]];
    }
    DecodeEncode(h1, h2, little, vs[i], b[|e|..]);
  }

  /** One round of reading a list back. */
  method ReadNext(ba: ByteArray, host: bool, k: Kind,
                  ghost h1: bool, ghost vs: seq<Value>, ghost ends: seq<nat>, ghost i: nat, ghost start: Flat)
    returns (r: Outcome<Value>)
    requires ba.Valid() && AllInRange(vs) && i < |vs| && k == KindOf(vs[i]) && Moved(start, View(ba))
    requires Laid(h1, ba.littleEndian, vs, ends, Avail(start)) && ba.position == start.position + ends[i]
    modifies ba`position, ba`cur
    ensures ba.Valid() && Moved(start, View(ba))
    ensures if EmptyString(vs[i]) && start.position + ends[i + 1] == ba.capacity then r == Null && i == |vs| - 1
            else r == Ok(vs[i]) && ba.position == start.position + ends[i + 1]
  {
    ba.BytesLength();
    NextAt(h1, host, ba.littleEndian, vs, ends, i, start, View(ba));
    r := ReadValue(ba, host, k);
  }

  method ReadAll(ba: ByteArray, host: bool, kinds: seq<Kind>,
                 ghost h1: bool, ghost vs: seq<Value>, ghost ends: seq<nat>)
    returns (r: Outcome<seq<Value>>)
    requires ba.Valid() && AllInRange(vs) && |kinds| == |vs|
    requires forall i :: 0 <= i < |vs| ==> kinds[i] == KindOf(vs[i])
    requires ba.size <= |ba.Bytes()| && Laid(h1, ba.littleEndian, vs, ends, Avail(View(ba)))
    modifies ba`position, ba`cur
    ensures ba.Valid()
    ensures var end := old(ba.position) + ends[|vs|];
            if EndsBadly(vs, end, ba.capacity) then r == Null else r == Ok(vs) && ba.position == end
  {
    ghost var start := View(ba);
    var got: seq<Value> := [];
    for i := 0 to |kinds|
      invariant ba.Valid() && Moved(start, View(ba))
      invariant got == vs[..i] && ba.position == start.position + ends[i]
      invariant i > 0 ==> !(EmptyString(vs[i - 1]) && ba.position == ba.capacity)
    {
      var v := ReadNext(ba, host, kinds[i], h1, vs, ends, i, start);
      if !v.Ok? {
        return Null;
      }
      got := got + [v.value];
    }
    assert vs[..|vs|] == vs;
    return Ok(got);
  }

  lemma WrittenIsReadable(s: Flat, e: seq<Byte>, t: Flat, u: Flat)
    requires Appended(s, e, t) && t.size <= |t.bytes| && s.position <= s.size
    requires u == t.(position := s.position)
    ensures e <= Avail(u)
  {
    assert Avail(u)[..|e|] == t.bytes[s.position..s.position + |e|];
  }

  /** Writing a list and reading it back from the same place, on any two hosts, with any block size: the same list
      and the same final position, unless the list ends in an empty string exactly at the capacity. */
  method RoundTrip(ba: ByteArray, h1: bool, h2: bool, vs: seq<Value>) returns (r: Outcome<seq<Value>>)
    requires ba.Valid() && AllInRange(vs)
    modifies ba.Repr
    ensures ba.Valid() && fresh(ba.Repr - old(ba.Repr))
    ensures var end := old(ba.position) + |EncodeAll(h1, ba.littleEndian, vs)|;
            && (r == Ok(vs) <==> !EndsBadly(vs, end, ba.capacity))
            && (r == Ok(vs) ==> ba.position == end)
  {
    ba.BytesLength();
    var start := ba.position;
    WriteAll(ba, h1, vs);
    ba.BytesLength();
    ghost var wrote, e := View(ba), EncodeAll(h1, ba.littleEndian, vs);
    var ok := ba.SetPosition(start);
    WrittenIsReadable(old(View(ba)), e, wrote, View(ba));
    ghost var ends := LayOut(h1, ba.littleEndian, vs, Avail(View(ba)));
    var kinds := seq(|vs|, i requires 0 <= i < |vs| => KindOf(vs[i]));
    r := ReadAll(ba, h2, kinds, h1, vs, ends);
  }
}
