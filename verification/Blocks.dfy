/** Bytes held in fixed-size blocks, seen as one flat sequence.
    Everything here is about values; `ByteArray.dfy` puts the blocks on the heap. */
module Blocks {

  type Byte = b: int | 0 <= b < 256

  /** The blocks laid end to end. */
  ghost function Flatten(bs: seq<seq<Byte>>): seq<Byte> {
    if |bs| == 0 then [] else Flatten(bs[..|bs| - 1]) + bs[|bs| - 1]
  }

  ghost predicate Uniform(bs: seq<seq<Byte>>, base: nat) {
    forall i :: 0 <= i < |bs| ==> |bs[i]| == base
  }

  /** `s` with the bytes from `p` on replaced by `d`. */
  function Splice(s: seq<Byte>, p: nat, d: seq<Byte>): (r: seq<Byte>)
    requires p + |d| <= |s|
    ensures |r| == |s|
    ensures forall i :: 0 <= i < |s| ==> r[i] == if p <= i < p + |d| then d[i - p] else s[i]
  {
    s[..p] + d + s[p + |d|..]
  }

  /** `after` may be longer than `before`; it holds `d` at `p` and agrees with `before` elsewhere. */
  ghost predicate Overwrote(before: seq<Byte>, after: seq<Byte>, p: nat, d: seq<Byte>) {
    && p <= |before| <= |after|
    && p + |d| <= |after|
    && after[p..p + |d|] == d
    && forall i :: 0 <= i < |before| && !(p <= i < p + |d|) ==> after[i] == before[i]
  }

  lemma SpliceOverwrites(before: seq<Byte>, grown: seq<Byte>, p: nat, d: seq<Byte>)
    requires p <= |before| && before <= grown && p + |d| <= |grown|
    ensures Overwrote(before, Splice(grown, p, d), p, d)
  {
    var r := Splice(grown, p, d);
    assert r[p..p + |d|] == d;
  }

  lemma OverwroteTwice(a: seq<Byte>, b: seq<Byte>, c: seq<Byte>, p: nat, d: seq<Byte>, e: seq<Byte>)
    requires Overwrote(a, b, p, d) && Overwrote(b, c, p + |d|, e)
    ensures Overwrote(a, c, p, d + e)
  {
    var r := c[p..p + |d + e|];
    assert r[..|d|] == b[p..p + |d|];
    assert r[|d|..] == c[p + |d|..p + |d| + |e|];
  }

  /** Two writes one after the other are one write of the concatenation. */
  lemma SpliceSplice(s: seq<Byte>, p: nat, d: seq<Byte>, e: seq<Byte>)
    requires p + |d| + |e| <= |s|
    ensures Splice(Splice(s, p, d), p + |d|, e) == Splice(s, p, d + e)
  {
  }

  /** Copying the next `n` bytes of `buf` extends a copy of its first `i` bytes. */
  lemma SpliceMore(s: seq<Byte>, p: nat, buf: seq<Byte>, i: nat, n: nat)
    requires i + n <= |buf| && p + i + n <= |s|
    ensures Splice(Splice(s, p, buf[..i]), p + i, buf[i..i + n]) == Splice(s, p, buf[..i + n])
  {
    SpliceSplice(s, p, buf[..i], buf[i..i + n]);
    assert buf[..i] + buf[i..i + n] == buf[..i + n];
  }

  // ---- positions against blocks.  Written by repeated addition, so that proofs stay linear;
  //      PositionArithmetic says that these are product, quotient and remainder.

  /** Bytes in `k` blocks. */
  ghost function Span(k: nat, b: nat): nat {
    if k == 0 then 0 else Span(k - 1, b) + b
  }

  /** The block that position `p` falls in. */
  ghost function BlockOf(p: nat, b: nat): nat
    requires b > 0
  {
    if p < b then 0 else BlockOf(p - b, b) + 1
  }

  /** The place of position `p` inside its block. */
  ghost function OffsetOf(p: nat, b: nat): (o: nat)
    requires b > 0
    ensures o < b
  {
    if p < b then p else OffsetOf(p - b, b)
  }

  lemma {:induction false} SpanIsProduct(k: nat, b: nat)
    ensures Span(k, b) == k * b
  {
    if k > 0 {
      SpanIsProduct(k - 1, b);
      assert (k - 1) * b + b == k * b;
    }
  }

  lemma {:induction false} PositionArithmetic(p: nat, b: nat)
    requires b > 0
    ensures BlockOf(p, b) == p / b && OffsetOf(p, b) == p % b
  {
    if p >= b {
      PositionArithmetic(p - b, b);
      var q, r := (p - b) / b, (p - b) % b;
      assert p == (q + 1) * b + r;
      QuotientUnique(p, q + 1, r, b);
    }
  }

  lemma ProductMono(k: nat, m: nat, b: nat)
    requires k <= m
    ensures k * b <= m * b
  {
  }

  lemma QuotientUnique(x: nat, q: nat, r: nat, b: nat)
    requires r < b && x == q * b + r
    ensures x / b == q && x % b == r
  {
    var q', r' := x / b, x % b;
    assert q' * b + r' == x;
    assert (q' + 1) * b == q' * b + b && (q + 1) * b == q * b + b;
    if q' < q {
      ProductMono(q' + 1, q, b);
    } else if q' > q {
      ProductMono(q + 1, q', b);
    }
  }

  lemma {:induction false} SpanMono(k: nat, m: nat, b: nat)
    requires k <= m
    ensures Span(k, b) <= Span(m, b)
  {
    if k < m {
      SpanMono(k, m - 1, b);
    }
  }

  lemma {:induction false} SpanAdd(k: nat, m: nat, b: nat)
    ensures Span(k + m, b) == Span(k, b) + Span(m, b)
  {
    if m > 0 {
      SpanAdd(k, m - 1, b);
    }
  }

  lemma {:induction false} Locate(k: nat, o: nat, b: nat)
    requires o < b
    ensures BlockOf(Span(k, b) + o, b) == k && OffsetOf(Span(k, b) + o, b) == o
  {
    if k > 0 {
      Locate(k - 1, o, b);
    }
  }

  lemma {:induction false} Located(p: nat, b: nat)
    requires b > 0
    ensures p == Span(BlockOf(p, b), b) + OffsetOf(p, b)
  {
    if p >= b {
      Located(p - b, b);
    }
  }

  lemma BlockBelow(p: nat, m: nat, b: nat)
    requires b > 0
    ensures p < Span(m, b) <==> BlockOf(p, b) < m
  {
    var k := BlockOf(p, b);
    Located(p, b);
    if k < m {
      SpanMono(k + 1, m, b);
    } else {
      SpanMono(m, k, b);
    }
  }

  /** Moving `n` bytes inside one block either stays in it or ends exactly at the next one. */
  lemma BlockStep(p: nat, n: nat, b: nat)
    requires b > 0 && OffsetOf(p, b) + n <= b
    ensures OffsetOf(p, b) + n < b ==> BlockOf(p + n, b) == BlockOf(p, b) && OffsetOf(p + n, b) == OffsetOf(p, b) + n
    ensures OffsetOf(p, b) + n == b ==> BlockOf(p + n, b) == BlockOf(p, b) + 1 && OffsetOf(p + n, b) == 0
    ensures OffsetOf(p, b) + n == b ==> p + n == Span(BlockOf(p, b) + 1, b)
  {
    Located(p, b);
    if OffsetOf(p, b) + n < b {
      Locate(BlockOf(p, b), OffsetOf(p, b) + n, b);
    } else {
      Locate(BlockOf(p, b) + 1, 0, b);
    }
  }

  // ---- flat sequence against blocks

  lemma {:induction false} FlattenLength(bs: seq<seq<Byte>>, base: nat)
    requires Uniform(bs, base)
    ensures |Flatten(bs)| == Span(|bs|, base)
  {
    if |bs| > 0 {
      var n := |bs| - 1;
      FlattenLength(bs[..n], base);
    }
  }

  lemma {:induction false} FlattenConcat(a: seq<seq<Byte>>, b: seq<seq<Byte>>)
    ensures Flatten(a + b) == Flatten(a) + Flatten(b)
  {
    if |b| == 0 {
      assert a + b == a;
    } else {
      var b' := b[..|b| - 1];
      assert (a + b)[..|a + b| - 1] == a + b';
      FlattenConcat(a, b');
    }
  }

  lemma FlattenSplit(bs: seq<seq<Byte>>, k: nat)
    requires k < |bs|
    ensures Flatten(bs) == Flatten(bs[..k]) + bs[k] + Flatten(bs[k + 1..])
  {
    var a, b := bs[..k + 1], bs[k + 1..];
    FlattenConcat(a, b);
    assert a + b == bs;
    assert Flatten(a) == Flatten(bs[..k]) + bs[k] by {
      assert a[..|a| - 1] == bs[..k];
    }
  }

  /** Block `k` is the stretch of the flat sequence that starts at `Span(k, base)`. */
  lemma FlattenBlock(bs: seq<seq<Byte>>, base: nat, k: nat)
    requires Uniform(bs, base) && k < |bs|
    ensures Span(k, base) + base <= |Flatten(bs)| == Span(|bs|, base)
    ensures Flatten(bs)[Span(k, base)..Span(k, base) + base] == bs[k]
  {
    FlattenSplit(bs, k);
    FlattenLength(bs, base);
    FlattenLength(bs[..k], base);
    SpanMono(k + 1, |bs|, base);
  }

  lemma SliceOfSlice(s: seq<Byte>, a: nat, len: nat, o: nat, n: nat)
    requires a + len <= |s| && o + n <= len
    ensures s[a..a + len][o..o + n] == s[a + o..a + o + n]
  {
    var x, y := s[a..a + len][o..o + n], s[a + o..a + o + n];
    assert |x| == |y|;
    forall i | 0 <= i < n ensures x[i] == y[i] {
      assert s[a..a + len][o + i] == s[a + (o + i)];
    }
  }

  lemma SliceJoin(s: seq<Byte>, a: nat, m: nat, c: nat)
    requires a <= m <= c <= |s|
    ensures s[a..m] + s[m..c] == s[a..c]
  {
  }

  /** Reading inside one block reads the flat sequence. */
  lemma FlattenSlice(bs: seq<seq<Byte>>, base: nat, k: nat, o: nat, n: nat)
    requires Uniform(bs, base) && k < |bs| && o + n <= base
    ensures Span(k, base) + o + n <= |Flatten(bs)|
    ensures Flatten(bs)[Span(k, base) + o..Span(k, base) + o + n] == bs[k][o..o + n]
  {
    FlattenBlock(bs, base, k);
    SliceOfSlice(Flatten(bs), Span(k, base), base, o, n);
  }

  /** Storing inside one block splices the flat sequence and touches nothing else. */
  lemma FlattenStore(bs: seq<seq<Byte>>, base: nat, k: nat, o: nat, d: seq<Byte>)
    requires Uniform(bs, base) && k < |bs| && o + |d| <= base
    ensures Span(k, base) + o + |d| <= |Flatten(bs)|
    ensures Flatten(bs[k := Splice(bs[k], o, d)]) == Splice(Flatten(bs), Span(k, base) + o, d)
  {
    var b' := Splice(bs[k], o, d);
    var pre, post := Flatten(bs[..k]), Flatten(bs[k + 1..]);
    FlattenAround(bs, base, k, b');
    SpliceMiddle(pre, bs[k], post, o, d);
  }

  lemma FlattenAround(bs: seq<seq<Byte>>, base: nat, k: nat, b: seq<Byte>)
    requires Uniform(bs, base) && k < |bs|
    ensures |Flatten(bs[..k])| == Span(k, base)
    ensures Flatten(bs) == Flatten(bs[..k]) + bs[k] + Flatten(bs[k + 1..])
    ensures Flatten(bs[k := b]) == Flatten(bs[..k]) + b + Flatten(bs[k + 1..])
  {
    var bs' := bs[k := b];
    FlattenSplit(bs, k);
    FlattenSplit(bs', k);
    assert bs'[..k] == bs[..k] && bs'[k + 1..] == bs[k + 1..];
    FlattenLength(bs[..k], base);
  }

  lemma SpliceMiddle(pre: seq<Byte>, mid: seq<Byte>, post: seq<Byte>, o: nat, d: seq<Byte>)
    requires o + |d| <= |mid|
    ensures Splice(pre + mid + post, |pre| + o, d) == pre + Splice(mid, o, d) + post
  {
  }
}
