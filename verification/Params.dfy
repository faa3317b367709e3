/** The key/value parser of src/http/http.cpp, for query strings, form bodies and cookies. */
module Params {
  import opened Blocks
  import opened Texts
  import opened UrlCodec

  type Pair = (seq<Byte>, seq<Byte>)
  datatype List = Nil | Cons(head: Pair, tail: List)

  const AMPERSAND: Byte := 38
  const SEMICOLON: Byte := 59

  /** std::string::find of a character from a position: its place, or the length. */
  function Find(s: seq<Byte>, c: Byte, from: nat): (k: nat)
    requires from <= |s|
    ensures from <= k <= |s| && (k < |s| ==> s[k] == c)
    ensures forall i :: from <= i < k ==> s[i] != c
    decreases |s| - from
  {
    if from == |s| || s[from] == c then from else Find(s, c, from + 1)
  }

  /** The delimiters that Trim takes off: blank, tab, carriage return, line feed. */
  predicate Blank(c: Byte) {
    c == 32 || c == 9 || c == 13 || c == 10
  }

  function TrimLeft(s: seq<Byte>): (r: seq<Byte>)
    ensures |r| <= |s| && (r != [] ==> !Blank(r[0]))
    decreases |s|
  {
    if s != [] && Blank(s[0]) then TrimLeft(s[1..]) else s
  }

  function TrimEnd(s: seq<Byte>): (r: seq<Byte>)
    ensures r <= s && (r != [] ==> !Blank(r[|r| - 1]))
    decreases |s|
  {
    if s != [] && Blank(s[|s| - 1]) then TrimEnd(s[..|s| - 1]) else s
  }

  /** StringUtil::Trim. */
  function Trim(s: seq<Byte>): seq<Byte> {
    TrimEnd(TrimLeft(s))
  }

  /** What is inserted for the raw text of a key and of a value. */
  function DecodePair(raw: Pair, trim: bool): Pair {
    (Decode(if trim then Trim(raw.0) else raw.0, true), Decode(raw.1, true))
  }

  function DecodeAll(raw: List, trim: bool): List {
    match raw
    case Nil => Nil
    case Cons(p, rest) => Cons(DecodePair(p, trim), DecodeAll(rest, trim))
  }

  /** The raw pairs that PARSE_PARAM finds, in order, from a place on: a key ends at the next '=', its value at the
      separator after that. */
  function Split(s: seq<Byte>, from: nat, flag: Byte): List
    requires flag != EQUALS && from <= |s|
    decreases |s| - from
  {
    var k := Find(s, EQUALS, from);
    if k == |s| then Nil
    else
      var p := Find(s, flag, k);
      Cons((s[from..k], s[k + 1..p]), if p == |s| then Nil else Split(s, p + 1, flag))
  }

  /** What is found after a value that ends at `end`. */
  function Rest(s: seq<Byte>, end: nat, flag: Byte): List
    requires flag != EQUALS && end <= |s|
  {
    if end == |s| then Nil else Split(s, end + 1, flag)
  }

  /** What PARSE_PARAM inserts. */
  function Parse(s: seq<Byte>, flag: Byte, trim: bool): List
    requires flag != EQUALS
  {
    DecodeAll(Split(s, 0, flag), trim)
  }

  /** m after inserting the pairs of a list one by one. */
  function Inserted(m: seq<Pair>, ps: List): seq<Pair>
    decreases ps
  {
    match ps
    case Nil => m
    case Cons(p, rest) => Inserted(m + [p], rest)
  }

  function Length(ps: List): nat {
    match ps
    case Nil => 0
    case Cons(_, rest) => 1 + Length(rest)
  }

  /** Pair number i, from 0. */
  function Nth(ps: List, i: nat): Pair
    requires i < Length(ps)
    decreases ps
  {
    if i == 0 then ps.head else Nth(ps.tail, i - 1)
  }

  /** The pairs are inserted in their order. */
  lemma {:induction false} InsertedInOrder(m: seq<Pair>, ps: List)
    ensures |Inserted(m, ps)| == |m| + Length(ps)
    ensures forall k :: 0 <= k < |m| ==> Inserted(m, ps)[k] == m[k]
    ensures forall i :: 0 <= i < Length(ps) ==> Inserted(m, ps)[|m| + i] == Nth(ps, i)
    decreases ps
  {
    if ps.Cons? {
      var more := m + [ps.head];
      InsertedInOrder(more, ps.tail);
      assert forall k :: 0 <= k < |more| ==> Inserted(m, ps)[k] == more[k];
      forall i | 0 <= i < Length(ps) ensures Inserted(m, ps)[|m| + i] == Nth(ps, i) {
        if i > 0 {
          assert Inserted(more, ps.tail)[|more| + (i - 1)] == Nth(ps.tail, i - 1);
        }
      }
    }
  }

  /** What is still to be inserted when the search goes on at `from`; beyond the end there is nothing. */
  function Left(s: seq<Byte>, from: nat, flag: Byte, trim: bool): List
    requires flag != EQUALS
  {
    if from <= |s| then DecodeAll(Split(s, from, flag), trim) else Nil
  }

  /** The loop of PARSE_PARAM; it ends on every string, and inserts the pairs in order. */
  method ParseParam(str: seq<Byte>, flag: Byte, trim: bool) returns (m: seq<Pair>)
    requires flag != EQUALS
    ensures var ps := Parse(str, flag, trim);
            |m| == Length(ps) && forall i :: 0 <= i < |m| ==> m[i] == Nth(ps, i)
  {
    m := [];
    var pos := 0;
    ghost var all := Parse(str, flag, trim);
    ghost var todo := all;
    while true
      invariant 0 <= pos <= |str| && todo == Left(str, pos, flag, trim)
      invariant Inserted(m, todo) == Inserted([], all)
      decreases |str| - pos
    {
      var found, pair, end := NextPair(str, pos, flag, trim);
      if !found {
        break;
      }
      m := m + [pair];
      todo := todo.tail;
      if end == |str| {
        break;
      }
      pos := end + 1;
    }
    InsertedInOrder([], all);
  }

  /** One pass of that loop up to the insertion; `end` is where the value ends. */
  method NextPair(str: seq<Byte>, last: nat, flag: Byte, trim: bool) returns (found: bool, pair: Pair, end: nat)
    requires flag != EQUALS && last <= |str|
    ensures last <= end <= |str|
    ensures Left(str, last, flag, trim) == if found then Cons(pair, Left(str, end + 1, flag, trim)) else Nil
  {
    var pos := Find(str, EQUALS, last);
    if pos == |str| {
      return false, ([], []), pos;
    }
    var key := pos;
    pos := Find(str, flag, pos);
    LeftAt(str, last, key, pos, flag, trim);
    var text := str[last..key];
    var k := UrlDecode(if trim then Trim(text) else text, true);
    var v := UrlDecode(str[key + 1..pos], true);
    return true, (k, v), pos;
  }

  /** The key goes on to the '=' at k, and the value to p. */
  lemma SplitAt(s: seq<Byte>, from: nat, k: nat, p: nat, flag: Byte)
    requires flag != EQUALS && from <= |s| && k == Find(s, EQUALS, from) < |s| && p == Find(s, flag, k)
    ensures k < p && Split(s, from, flag) == Cons((s[from..k], s[k + 1..p]), Rest(s, p, flag))
  {
  }

  lemma LeftAt(s: seq<Byte>, from: nat, k: nat, p: nat, flag: Byte, trim: bool)
    requires flag != EQUALS && from <= |s| && k == Find(s, EQUALS, from) < |s| && p == Find(s, flag, k)
    ensures k < p
    ensures Left(s, from, flag, trim) == Cons(DecodePair((s[from..k], s[k + 1..p]), trim), Left(s, p + 1, flag, trim))
  {
    var raw, rest := (s[from..k], s[k + 1..p]), Rest(s, p, flag);
    SplitAt(s, from, k, p, flag);
    DecodeCons(raw, rest, trim);
    DecodeRest(s, p, flag, trim);
  }

  lemma DecodeCons(raw: Pair, rest: List, trim: bool)
    ensures DecodeAll(Cons(raw, rest), trim) == Cons(DecodePair(raw, trim), DecodeAll(rest, trim))
  {
  }

  lemma DecodeRest(s: seq<Byte>, end: nat, flag: Byte, trim: bool)
    requires flag != EQUALS && end <= |s|
    ensures DecodeAll(Rest(s, end, flag), trim) == Left(s, end + 1, flag, trim)
  {
  }

  // ---- the text that is split

  /** Raw pairs joined by a separator and padding. */
  function Join(es: List, flag: Byte, pad: seq<Byte>): seq<Byte>
    decreases es, 0
  {
    match es
    case Nil => []
    case Cons(e, rest) => e.0 + ([EQUALS] + (e.1 + After(rest, flag, pad)))
  }

  function After(rest: List, flag: Byte, pad: seq<Byte>): seq<Byte>
    decreases rest, 1
  {
    if rest.Nil? then [] else [flag] + (pad + Join(rest, flag, pad))
  }

  /** c ends the text a that stands at `off`. */
  lemma Located(s: seq<Byte>, off: nat, a: seq<Byte>, c: Byte)
    requires Stands(s, off, a) && c !in a && (off + |a| < |s| ==> s[off + |a|] == c)
    ensures Find(s, c, off) == off + |a|
  {
    forall i | off <= i < off + |a| ensures s[i] != c {
      assert s[i] == a[i - off] && a[i - off] in a;
    }
  }

  /** A key, '=' and a value stand at `off`, up to the separator or the end at p. */
  ghost predicate PairAt(s: seq<Byte>, off: nat, p: nat, key: seq<Byte>, value: seq<Byte>, flag: Byte) {
    && p == off + |key| + 1 + |value| <= |s|
    && Stands(s, off, key) && s[off + |key|] == EQUALS && Stands(s, off + |key| + 1, value)
    && (p < |s| ==> s[p] == flag)
  }

  lemma FindNext(s: seq<Byte>, c: Byte, from: nat)
    requires from < |s| && s[from] != c
    ensures Find(s, c, from) == Find(s, c, from + 1)
  {
  }

  /** The parser on a text in which a pair stands. */
  lemma SplitOne(s: seq<Byte>, off: nat, p: nat, key: seq<Byte>, value: seq<Byte>, flag: Byte)
    requires PairAt(s, off, p, key, value, flag) && EQUALS !in key && flag !in value && flag != EQUALS
    ensures Split(s, off, flag) == Cons((key, value), Rest(s, p, flag))
  {
    var k := off + |key|;
    Located(s, off, key, EQUALS);
    Located(s, k + 1, value, flag);
    FindNext(s, flag, k);
    SplitAt(s, off, k, p, flag);
    StandsSlice(s, off, key);
    StandsSlice(s, k + 1, value);
  }

  /** A pair, and what comes after it, after pre. */
  lemma PairInJoin(pre: seq<Byte>, key: seq<Byte>, value: seq<Byte>, flag: Byte, after: seq<Byte>)
    requires after == [] || after[0] == flag
    ensures PairAt(pre + (key + ([EQUALS] + (value + after))), |pre|, |pre| + |key| + 1 + |value|, key, value, flag)
    ensures pre + (key + ([EQUALS] + (value + after))) == ((pre + key) + ([EQUALS] + value)) + after
  {
    var s := pre + (key + ([EQUALS] + (value + after)));
    StandsIn(pre, key, [EQUALS] + (value + after));
    Assoc(pre, key, [EQUALS] + (value + after));
    assert s[|pre| + |key|] == ([EQUALS] + (value + after))[0];
    Assoc(pre + key, [EQUALS], value + after);
    StandsIn((pre + key) + [EQUALS], value, after);
    assert ((pre + key) + [EQUALS]) + (value + after) == ((pre + key) + ([EQUALS] + value)) + after;
  }

  /** The text of a list is that of its first pair, after which the text of the others comes. */
  lemma JoinFirst(pre: seq<Byte>, lead: seq<Byte>, e: Pair, rest: List, flag: Byte, pad: seq<Byte>)
    ensures var s := pre + (lead + Join(Cons(e, rest), flag, pad));
            var key := lead + e.0;
            var pre' := ((pre + key) + ([EQUALS] + e.1)) + [flag];
            var p := |pre| + |key| + 1 + |e.1|;
            && PairAt(s, |pre|, p, key, e.1, flag)
            && (if rest.Nil? then p == |s| else p < |s| && |pre'| == p + 1 && s == pre' + (pad + Join(rest, flag, pad)))
  {
    var key, after := lead + e.0, After(rest, flag, pad);
    Assoc(lead, e.0, [EQUALS] + (e.1 + after));
    PairInJoin(pre, key, e.1, flag, after);
    if rest.Cons? {
      Assoc((pre + key) + ([EQUALS] + e.1), [flag], pad + Join(rest, flag, pad));
    }
  }

  // ---- printing and parsing

  function EncodeAll(ps: List, b: bool): List {
    match ps
    case Nil => Nil
    case Cons(p, rest) => Cons((Encode(p.0, b), Encode(p.1, b)), EncodeAll(rest, b))
  }

  /** Encoded pairs joined by a separator and padding. */
  function Print(ps: List, b: bool, flag: Byte, pad: seq<Byte>): seq<Byte> {
    Join(EncodeAll(ps, b), flag, pad)
  }

  ghost predicate Padding(pad: seq<Byte>, trim: bool) {
    (forall i :: 0 <= i < |pad| ==> Blank(pad[i])) && (!trim ==> pad == [])
  }

  predicate CleanKeys(ps: List) {
    ps.Cons? ==> EQUALS !in ps.head.0 && CleanKeys(ps.tail)
  }

  predicate Blanks(s: seq<Byte>) {
    forall i :: 0 <= i < |s| ==> Blank(s[i])
  }

  lemma {:induction false} TrimLeftSkips(lead: seq<Byte>, s: seq<Byte>)
    requires Blanks(lead) && (s == [] || !Blank(s[0]))
    ensures TrimLeft(lead + s) == s
    decreases |lead|
  {
    if lead == [] {
      assert lead + s == s;
    } else {
      assert (lead + s)[1..] == lead[1..] + s && (lead + s)[0] == lead[0];
      TrimLeftSkips(lead[1..], s);
    }
  }

  lemma {:induction false} TrimEndSkips(s: seq<Byte>, tail: seq<Byte>)
    requires Blanks(tail) && (s == [] || !Blank(s[|s| - 1]))
    ensures TrimEnd(s + tail) == s
    decreases |tail|
  {
    if tail == [] {
      assert s + tail == s;
    } else {
      var n := |tail| - 1;
      assert (s + tail)[..|s| + n] == s + tail[..n] && (s + tail)[|s| + n] == tail[n];
      TrimEndSkips(s, tail[..n]);
    }
  }

  /** Trim takes exactly the blanks at both ends off: what is left begins and ends with something else, or is empty. */
  lemma TrimExact(lead: seq<Byte>, s: seq<Byte>, tail: seq<Byte>)
    requires Blanks(lead) && Blanks(tail) && (s != [] ==> !Blank(s[0]) && !Blank(s[|s| - 1]))
    ensures Trim((lead + s) + tail) == s
  {
    if s == [] {
      assert (lead + s) + tail == (lead + tail) + [];
      TrimLeftSkips(lead + tail, []);
    } else {
      assert (lead + s) + tail == lead + (s + tail);
      TrimLeftSkips(lead, s + tail);
      TrimEndSkips(s, tail);
    }
  }

  /** An encoded pair comes back, whatever blanks stand before it. */
  lemma PairComesBack(pad: seq<Byte>, p: Pair, b: bool, trim: bool)
    requires Padding(pad, trim)
    ensures DecodePair((pad + Encode(p.0, b), Encode(p.1, b)), trim) == p
  {
    EncodeSafe(p.0, b);
    DecodeEncode(p.0, b, true);
    DecodeEncode(p.1, b, true);
    if trim {
      TrimExact(pad, Encode(p.0, b), []);
      assert (pad + Encode(p.0, b)) + [] == pad + Encode(p.0, b);
    } else {
      assert pad + Encode(p.0, b) == Encode(p.0, b);
    }
  }

  lemma NoEquals(pad: seq<Byte>, trim: bool)
    requires Padding(pad, trim)
    ensures EQUALS !in pad
  {
  }

  lemma EncodeClean(s: seq<Byte>, b: bool, c: Byte)
    requires !Safe(c)
    ensures c !in Encode(s, b)
  {
    EncodeSafe(s, b);
  }

  // ---- keys with '=' in them

  lemma CutEncoding(key: seq<Byte>, n: nat, b: bool)
    requires n < |key| && key[n] == EQUALS
    ensures Encode(key, b) == Encode(key[..n], b) + ([EQUALS] + Encode(key[n + 1..], b))
  {
    var rest := key[n..];
    assert key == key[..n] + rest;
    EncodeConcat(key[..n], rest, b);
    assert rest[0] == EQUALS && rest[1..] == key[n + 1..];
  }

  /** The first key of a text ends at the first '='. */
  lemma FirstKey(s: seq<Byte>, off: nat, key: seq<Byte>, flag: Byte)
    requires Stands(s, off, key) && EQUALS !in key && flag != EQUALS && off + |key| < |s| && s[off + |key|] == EQUALS
    ensures Split(s, off, flag).Cons? && Split(s, off, flag).head.0 == key
  {
    Located(s, off, key, EQUALS);
    StandsSlice(s, off, key);
  }

  /** What is before the first '=' of a key. */
  function Cut(key: seq<Byte>): (r: seq<Byte>)
    ensures r <= key && EQUALS !in r && (r == key <==> EQUALS !in key) && (|r| < |key| ==> key[|r|] == EQUALS)
  {
    key[..Find(key, EQUALS, 0)]
  }

  /** The parser on a text in which a raw pair stands: a key with '=' in it is cut short at the first one. */
  lemma SplitCons(s: seq<Byte>, off: nat, end: nat, e: Pair, flag: Byte)
    requires PairAt(s, off, end, e.0, e.1, flag) && flag !in e.1 && flag != EQUALS
    ensures var r := Split(s, off, flag);
            if EQUALS in e.0 then r.Cons? && r.head.0 == Cut(e.0) else r == Cons(e, Rest(s, end, flag))
  {
    if EQUALS in e.0 {
      var n := |Cut(e.0)|;
      assert e.0 == e.0[..n] + e.0[n..];
      StandsPart(s, off, e.0[..n], e.0[n..]);
      FirstKey(s, off, Cut(e.0), flag);
    } else {
      SplitOne(s, off, end, e.0, e.1, flag);
    }
  }

  /** The raw pairs of a list are what is in the text from `off` on. */
  ghost predicate Laid(s: seq<Byte>, off: nat, raws: List, flag: Byte)
    decreases raws
  {
    raws.Cons? ==>
      var end := off + |raws.head.0| + 1 + |raws.head.1|;
      && PairAt(s, off, end, raws.head.0, raws.head.1, flag) && flag !in raws.head.1
      && (end == |s| <==> raws.tail.Nil?) && Laid(s, end + 1, raws.tail, flag)
  }

  /** r are the raw pairs up to the first key with '=' in it, and that key is cut. */
  ghost predicate UpToCut(r: List, raws: List)
    decreases raws
  {
    match raws
    case Nil => r.Nil?
    case Cons(e, rest) =>
      r.Cons? && if EQUALS in e.0 then r.head.0 == Cut(e.0) else r.head == e && UpToCut(r.tail, rest)
  }

  lemma {:induction false} SplitLaid(s: seq<Byte>, off: nat, raws: List, flag: Byte)
    requires raws.Cons? && Laid(s, off, raws, flag) && flag != EQUALS
    ensures off <= |s| && UpToCut(Split(s, off, flag), raws)
    decreases raws
  {
    var e, rest := raws.head, raws.tail;
    var end := off + |e.0| + 1 + |e.1|;
    SplitCons(s, off, end, e, flag);
    if rest.Cons? {
      SplitLaid(s, end + 1, rest, flag);
    }
  }

  /** The raw pairs of a printed list: the first key has `lead` before it, the others have the padding. */
  function Raws(ps: List, b: bool, lead: seq<Byte>, pad: seq<Byte>): List {
    match ps
    case Nil => Nil
    case Cons(p, rest) => Cons((lead + Encode(p.0, b), Encode(p.1, b)), Raws(rest, b, pad, pad))
  }

  /** All the text before the pairs that come after p. */
  function Before(pre: seq<Byte>, lead: seq<Byte>, p: Pair, b: bool, flag: Byte): seq<Byte> {
    ((pre + (lead + Encode(p.0, b))) + ([EQUALS] + Encode(p.1, b))) + [flag]
  }

  lemma PrintFirst(pre: seq<Byte>, lead: seq<Byte>, p: Pair, rest: List, b: bool, flag: Byte, pad: seq<Byte>)
    ensures var s := pre + (lead + Print(Cons(p, rest), b, flag, pad));
            var pre' := Before(pre, lead, p, b, flag);
            var end := |pre| + |lead + Encode(p.0, b)| + 1 + |Encode(p.1, b)|;
            && PairAt(s, |pre|, end, lead + Encode(p.0, b), Encode(p.1, b), flag)
            && (end == |s| <==> rest.Nil?)
            && (rest.Cons? ==> end + 1 == |pre'| && s == pre' + (pad + Print(rest, b, flag, pad)))
  {
    JoinFirst(pre, lead, (Encode(p.0, b), Encode(p.1, b)), EncodeAll(rest, b), flag, pad);
  }

  lemma {:induction false} PrintLaid(pre: seq<Byte>, lead: seq<Byte>, ps: List, b: bool, flag: Byte, pad: seq<Byte>)
    requires ps.Cons? && !Safe(flag)
    ensures Laid(pre + (lead + Print(ps, b, flag, pad)), |pre|, Raws(ps, b, lead, pad), flag)
    decreases ps
  {
    PrintFirst(pre, lead, ps.head, ps.tail, b, flag, pad);
    EncodeClean(ps.head.1, b, flag);
    if ps.tail.Cons? {
      PrintLaid(Before(pre, lead, ps.head, b, flag), pad, ps.tail, b, flag, pad);
    }
  }

  lemma RawKey(lead: seq<Byte>, key: seq<Byte>, b: bool, trim: bool)
    requires Padding(lead, trim)
    ensures EQUALS in lead + Encode(key, b) <==> EQUALS in key
    ensures Cut(lead + Encode(key, b)) == lead + Encode(Cut(key), b)
  {
    NoEquals(lead, trim);
    EqualsKept(key, b);
    var raw, n := lead + Encode(key, b), |Cut(key)|;
    if EQUALS in key {
      CutEncoding(key, n, b);
      EqualsKept(Cut(key), b);
      var cut := lead + Encode(Cut(key), b);
      assert raw == cut + ([EQUALS] + Encode(key[n + 1..], b));
      assert raw[|cut|] == EQUALS && EQUALS !in cut;
      CutIs(raw, |cut|);
      assert raw[..|cut|] == cut;
    }
  }

  lemma CutIs(key: seq<Byte>, n: nat)
    requires n < |key| && key[n] == EQUALS && EQUALS !in key[..n]
    ensures Cut(key) == key[..n]
  {
    forall i | 0 <= i < n ensures key[i] != EQUALS {
      assert key[i] == key[..n][i];
    }
  }

  /** What comes back for a key with '=' in it is the part of it before the first one. */
  lemma CutComesBack(lead: seq<Byte>, p: Pair, b: bool, trim: bool, raw: Pair)
    requires Padding(lead, trim) && EQUALS in p.0 && raw.0 == Cut(lead + Encode(p.0, b))
    ensures DecodePair(raw, trim).0 == Cut(p.0) && |Cut(p.0)| < |p.0|
  {
    RawKey(lead, p.0, b, trim);
    PairComesBack(lead, (Cut(p.0), []), b, trim);
  }

  /** The printed list comes back exactly when no key has an '=' in it. */
  lemma {:induction false} DecodeUpToCut(r: List, ps: List, b: bool, lead: seq<Byte>, pad: seq<Byte>, trim: bool)
    requires Padding(lead, trim) && Padding(pad, trim) && UpToCut(r, Raws(ps, b, lead, pad))
    ensures DecodeAll(r, trim) == ps <==> CleanKeys(ps)
    decreases ps
  {
    if ps.Cons? {
      RawKey(lead, ps.head.0, b, trim);
      if EQUALS in ps.head.0 {
        CutComesBack(lead, ps.head, b, trim, r.head);
      } else {
        PairComesBack(lead, ps.head, b, trim);
        DecodeUpToCut(r.tail, ps.tail, b, pad, pad, trim);
      }
    }
  }

  /** A key with '=' in it comes back as the part of it before the first one. */
  lemma ParseCut(p: Pair, rest: List, b: bool, flag: Byte, pad: seq<Byte>, trim: bool)
    requires Padding(pad, trim) && !Safe(flag) && EQUALS in p.0
    ensures var r := Parse(Print(Cons(p, rest), b, flag, pad), flag, trim);
            && r.Cons? && r.head.0 == Cut(p.0)
            && |Cut(p.0)| < |p.0| && p.0[|Cut(p.0)|] == EQUALS && EQUALS !in Cut(p.0)
  {
    var s, raws := Print(Cons(p, rest), b, flag, pad), Raws(Cons(p, rest), b, [], pad);
    PrintedUpToCut(Cons(p, rest), b, flag, pad);
    assert raws.head.0 == [] + Encode(p.0, b);
    RawKey([], p.0, b, trim);
    CutComesBack([], p, b, trim, Split(s, 0, flag).head);
  }

  lemma PrintedUpToCut(ps: List, b: bool, flag: Byte, pad: seq<Byte>)
    requires !Safe(flag)
    ensures UpToCut(Split(Print(ps, b, flag, pad), 0, flag), Raws(ps, b, [], pad))
  {
    var s := Print(ps, b, flag, pad);
    if ps.Cons? {
      PrintLaid([], [], ps, b, flag, pad);
      assert [] + ([] + s) == s;
      SplitLaid(s, 0, Raws(ps, b, [], pad), flag);
    }
  }

  lemma ParsePrinted(ps: List, b: bool, flag: Byte, pad: seq<Byte>, trim: bool)
    requires Padding(pad, trim) && !Safe(flag)
    ensures Parse(Print(ps, b, flag, pad), flag, trim) == ps <==> CleanKeys(ps)
  {
    PrintedUpToCut(ps, b, flag, pad);
    DecodeUpToCut(Split(Print(ps, b, flag, pad), 0, flag), ps, b, [], pad, trim);
  }

  /** A query string or form body printed from a list of pairs parses to that list, in order, exactly when no key has
      an '=' in it: the table leaves '=' unescaped.  Spaces may be written either way. */
  lemma QueryRoundTrip(ps: List, b: bool)
    ensures Parse(Print(ps, b, AMPERSAND, []), AMPERSAND, false) == ps <==> CleanKeys(ps)
  {
    ParsePrinted(ps, b, AMPERSAND, [], false);
  }

  /** The same for a cookie header, whose pairs are separated by a semicolon and any blanks. */
  lemma CookieRoundTrip(ps: List, b: bool, pad: seq<Byte>)
    requires Padding(pad, true)
    ensures Parse(Print(ps, b, SEMICOLON, pad), SEMICOLON, true) == ps <==> CleanKeys(ps)
  {
    ParsePrinted(ps, b, SEMICOLON, pad, true);
  }
}
