/** The log pattern parser, LogFormatter::init of src/log/log.cpp. */
module LogPattern {
  import opened Texts

  /** What the first loop collects: literal text, or an item with its name and its format. */
  datatype Entry = Text(s: string) | Item(name: string, fmt: string)
  datatype Entries = Nil | Cons(e: Entry, rest: Entries)

  /** What the second loop makes of an entry: text, or the formatter of that name. */
  datatype FormatItem = StringItem(s: string) | NamedItem(name: string, fmt: string)

  const PATTERN_ERROR := "<<pattern_error>>"

  predicate IsAlpha(c: char) {
    'a' <= c <= 'z' || 'A' <= c <= 'Z'
  }

  /** s_format_items. */
  predicate Known(name: string) {
    name in {"m", "p", "r", "c", "t", "n", "d", "f", "l", "T", "F"}
  }

  // ---- the first loop

  /** A name goes on over letters and closing braces. */
  predicate InName(c: char) {
    IsAlpha(c) || c == '}'
  }

  function NameEnd(p: string, n: nat): (k: nat)
    requires n <= |p|
    ensures n <= k <= |p| && (k < |p| ==> !InName(p[k]))
    ensures forall i :: n <= i < k ==> InName(p[i])
    decreases |p| - n
  {
    if n < |p| && InName(p[n]) then NameEnd(p, n + 1) else n
  }

  function CloseBrace(p: string, n: nat): (k: nat)
    requires n <= |p|
    ensures n <= k <= |p| && (k < |p| ==> p[k] == '}')
    ensures forall i :: n <= i < k ==> p[i] != '}'
    decreases |p| - n
  {
    if n < |p| && p[n] != '}' then CloseBrace(p, n + 1) else n
  }

  /** The item whose '%' is at i: its end, name and format; Open if its brace is not closed. */
  datatype Scan = Open | Closed(next: nat, name: string, fmt: string)

  function ScanItem(p: string, i: nat): (r: Scan)
    requires i < |p|
    ensures r.Closed? ==> i < r.next <= |p|
  {
    var a := NameEnd(p, i + 1);
    if a < |p| && p[a] == '{' then
      var c := CloseBrace(p, a + 1);
      if c < |p| then Closed(c + 1, p[i + 1..a], p[a + 1..c]) else Open
    else Closed(a, p[i + 1..a], "")
  }

  function Flushed(nstr: string, es: Entries): Entries {
    if nstr == "" then es else Cons(Text(nstr), es)
  }

  /** The entries from place i on, when the text before it that is not yet an entry is nstr. */
  function ParseFrom(p: string, i: nat, nstr: string): Entries
    requires i <= |p|
    decreases |p| - i
  {
    if i == |p| then Flushed(nstr, Nil)
    else if p[i] != '%' then ParseFrom(p, i + 1, nstr + [p[i]])
    else if i + 1 < |p| && p[i + 1] == '%' then ParseFrom(p, i + 1, nstr + ['%'])
    else
      match ScanItem(p, i)
      case Open => Cons(Text(PATTERN_ERROR), ParseFrom(p, i + 1, nstr))
      case Closed(next, name, fmt) => Flushed(nstr, Cons(Item(name, fmt), ParseFrom(p, next, "")))
  }

  /** Whether a brace is found open from place i on. */
  predicate OpenFrom(p: string, i: nat)
    requires i <= |p|
    decreases |p| - i
  {
    if i == |p| then false
    else if p[i] != '%' || (i + 1 < |p| && p[i + 1] == '%') then OpenFrom(p, i + 1)
    else
      match ScanItem(p, i)
      case Open => true
      case Closed(next, _, _) => OpenFrom(p, next)
  }

  // ---- the second loop

  predicate Unknown(e: Entry) {
    e.Item? && !Known(e.name)
  }

  predicate AnyUnknown(es: Entries) {
    es.Cons? && (Unknown(es.e) || AnyUnknown(es.rest))
  }

  function Format(e: Entry): FormatItem {
    match e
    case Text(s) => StringItem(s)
    case Item(name, fmt) => if Known(name) then NamedItem(name, fmt) else StringItem("<<error_format %" + name + ">>")
  }

  // ---- the program

  /** vec after pushing the entries of a list one by one. */
  function Pushed(vec: seq<Entry>, es: Entries): seq<Entry>
    decreases es
  {
    match es
    case Nil => vec
    case Cons(e, rest) => Pushed(vec + [e], rest)
  }

  function Length(es: Entries): nat {
    match es
    case Nil => 0
    case Cons(_, rest) => 1 + Length(rest)
  }

  /** Entry number i, from 0. */
  function Nth(es: Entries, i: nat): Entry
    requires i < Length(es)
    decreases es
  {
    if i == 0 then es.e else Nth(es.rest, i - 1)
  }

  predicate UnknownAt(es: Entries, i: nat)
    requires i < Length(es)
  {
    Unknown(Nth(es, i))
  }

  /** push_back keeps the order of the entries. */
  lemma {:induction false} PushedInOrder(vec: seq<Entry>, es: Entries)
    ensures |Pushed(vec, es)| == |vec| + Length(es)
    ensures forall k :: 0 <= k < |vec| ==> Pushed(vec, es)[k] == vec[k]
    ensures forall i :: 0 <= i < Length(es) ==> Pushed(vec, es)[|vec| + i] == Nth(es, i)
    decreases es
  {
    if es.Cons? {
      var more := vec + [es.e];
      PushedInOrder(more, es.rest);
      assert forall k :: 0 <= k < |more| ==> Pushed(vec, es)[k] == more[k];
      forall i | 0 <= i < Length(es) ensures Pushed(vec, es)[|vec| + i] == Nth(es, i) {
        if i > 0 {
          assert Pushed(more, es.rest)[|more| + (i - 1)] == Nth(es.rest, i - 1);
        }
      }
    }
  }

  class LogFormatter {
    const pattern: string
    var items: seq<FormatItem>
    var error: bool

    constructor (pattern: string)
      ensures this.pattern == pattern && items == [] && !error
    {
      this.pattern := pattern;
      items, error := [], false;
    }

    /** One item for each entry, in the order of the entries; and for a pattern that was printed from tokens with no
        two literals together, one item for each token. */
    method Init()
      requires items == [] && !error
      modifies this
      ensures var es := ParseFrom(pattern, 0, "");
              && |items| == Length(es) && (forall k :: 0 <= k < |items| ==> items[k] == Format(Nth(es, k)))
              && error == (OpenFrom(pattern, 0) || exists k :: 0 <= k < Length(es) && UnknownAt(es, k))
      ensures forall ts :: WellFormed(ts) && pattern == Print(ts) ==>
                && |items| == Length(Merged(ts, ""))
                && (forall k :: 0 <= k < |items| ==> items[k] == Format(Nth(Merged(ts, ""), k)))
                && error == SomeUnknown(ts)
      ensures forall ts :: WellFormed(ts) && Separated(ts) && pattern == Print(ts) ==>
                && |items| == Count(ts) && forall k :: 0 <= k < |items| ==> items[k] == ItemOf(TokenAt(ts, k))
    {
      ghost var es := ParseFrom(pattern, 0, "");
      PushedInOrder([], es);
      forall ts | WellFormed(ts) && pattern == Print(ts)
        ensures es == Merged(ts, "")
        ensures (OpenFrom(pattern, 0) || exists k :: 0 <= k < Length(es) && UnknownAt(es, k)) <==> SomeUnknown(ts)
      {
        PatternRoundTrip(ts);
        ErrorExact(ts);
      }
      forall ts | WellFormed(ts) && Separated(ts) && pattern == Print(ts)
        ensures Length(es) == Count(ts)
        ensures forall k :: 0 <= k < Count(ts) ==> Format(Nth(es, k)) == ItemOf(TokenAt(ts, k))
      {
        SeparatedItems(ts);
      }
      var vec := Collect();
      assert forall i :: 0 <= i < |vec| ==> vec[i] == Nth(es, i);
      var k := 0;
      while k < |vec|
        invariant 0 <= k <= |vec| && |items| == k && forall j :: 0 <= j < k ==> items[j] == Format(vec[j])
        invariant error == (OpenFrom(pattern, 0) || exists j :: 0 <= j < k && UnknownAt(es, j))
      {
        if vec[k].Text? {
          items := items + [StringItem(vec[k].s)];
        } else if !Known(vec[k].name) {
          items := items + [StringItem("<<error_format %" + vec[k].name + ">>")];
          assert UnknownAt(es, k);
          error := true;
        } else {
          items := items + [NamedItem(vec[k].name, vec[k].fmt)];
        }
        k := k + 1;
      }
    }

    /** The first loop of init. */
    method Collect() returns (vec: seq<Entry>)
      requires !error
      modifies this`error
      ensures var es := ParseFrom(pattern, 0, "");
              |vec| == Length(es) && forall i :: 0 <= i < |vec| ==> vec[i] == Nth(es, i)
      ensures error == OpenFrom(pattern, 0)
    {
      vec := [];
      var nstr := "";
      var i := 0;
      while i < |pattern|
        invariant 0 <= i <= |pattern|
        invariant Pushed(vec, ParseFrom(pattern, i, nstr)) == Pushed([], ParseFrom(pattern, 0, ""))
        invariant (error || OpenFrom(pattern, i)) == OpenFrom(pattern, 0)
        decreases |pattern| - i
      {
        if pattern[i] != '%' {
          nstr := nstr + [pattern[i]];
          i := i + 1;
          continue;
        }
        if i + 1 < |pattern| && pattern[i + 1] == '%' {
          nstr := nstr + ['%'];
          i := i + 1;
          continue;
        }
        var closed, n, str, fmt := ParseItem(i);
        if closed {
          if nstr != "" {
            vec := vec + [Text(nstr)];
            nstr := "";
          }
          vec := vec + [Item(str, fmt)];
          i := n;
        } else {
          error := true;
          vec := vec + [Text(PATTERN_ERROR)];
          i := i + 1;
        }
      }
      if nstr != "" {
        vec := vec + [Text(nstr)];
      }
      PushedInOrder([], ParseFrom(pattern, 0, ""));
    }

    /** The inner loop: from the '%' at i to the end of its item. */
    method ParseItem(i: nat) returns (closed: bool, n: nat, str: string, fmt: string)
      requires i < |pattern|
      ensures ScanItem(pattern, i) == if closed then Closed(n, str, fmt) else Open
    {
      n, str, fmt := i + 1, "", "";
      var status, begin := 0, 0;
      ghost var a := NameEnd(pattern, i + 1);
      while n < |pattern|
        invariant i + 1 <= n <= |pattern| && (status == 0 || status == 1) && fmt == ""
        invariant status == 0 ==> NameEnd(pattern, n) == a && str == if n == |pattern| then pattern[i + 1..] else ""
        invariant status == 1 ==> begin == a < n && pattern[a] == '{'
        invariant status == 1 ==> CloseBrace(pattern, a + 1) == CloseBrace(pattern, n)
        invariant status == 1 && n < |pattern| ==> str == pattern[i + 1..a]
      {
        if status == 0 && !IsAlpha(pattern[n]) && pattern[n] != '{' && pattern[n] != '}' {
          str := pattern[i + 1..n];
          return true, n, str, fmt;
        }
        if status == 0 {
          if pattern[n] == '{' {
            str := pattern[i + 1..n];
            status := 1;
            begin := n;
            n := n + 1;
            continue;
          }
        } else {
          if pattern[n] == '}' {
            fmt := pattern[begin + 1..n];
            return true, n + 1, str, fmt;
          }
        }
        n := n + 1;
        if n == |pattern| && str == "" {
          str := pattern[i + 1..];
        }
      }
      closed := status == 0;
    }
  }

  // ---- printing and parsing

  /** Literal text, an item %name, or an item %name{fmt}. */
  datatype Token = Literal(s: string) | Plain(name: string) | Braced(name: string, fmt: string)
  datatype Tokens = End | Then(t: Token, rest: Tokens)

  function Show(t: Token): string {
    match t
    case Literal(s) => s
    case Plain(name) => ['%'] + name
    case Braced(name, fmt) => (['%'] + name) + (['{'] + (fmt + ['}']))
  }

  function Print(ts: Tokens): string {
    match ts
    case End => ""
    case Then(t, rest) => Show(t) + Print(rest)
  }

  predicate Alphabetic(name: string) {
    forall i :: 0 <= i < |name| ==> IsAlpha(name[i])
  }

  /** What may come straight after an item without braces. */
  predicate Ends(text: string) {
    text == "" || !(IsAlpha(text[0]) || text[0] == '{' || text[0] == '}')
  }

  /** A literal without '%', a name of letters, a format without '}'; no letter or brace straight after %name. */
  predicate TokenFits(t: Token, after: string) {
    match t
    case Literal(s) => '%' !in s
    case Plain(name) => name != "" && Alphabetic(name) && Ends(after)
    case Braced(name, fmt) => Alphabetic(name) && '}' !in fmt
  }

  predicate WellFormed(ts: Tokens) {
    ts.Then? ==> TokenFits(ts.t, Print(ts.rest)) && WellFormed(ts.rest)
  }

  /** The entries, when those that come after token t are `es`. */
  function Entered(t: Token, nstr: string, es: Entries): Entries {
    match t
    case Literal(s) => es
    case Plain(name) => Flushed(nstr, Cons(Item(name, ""), es))
    case Braced(name, fmt) => Flushed(nstr, Cons(Item(name, fmt), es))
  }

  function Carry(t: Token, nstr: string): string {
    if t.Literal? then nstr + t.s else ""
  }

  /** The entries that the tokens stand for: adjacent literals are one text. */
  function Merged(ts: Tokens, nstr: string): Entries {
    match ts
    case End => Flushed(nstr, Nil)
    case Then(t, rest) => Entered(t, nstr, Merged(rest, Carry(t, nstr)))
  }

  /** Text without '%' goes to nstr. */
  lemma {:induction false} LiteralSkips(p: string, off: nat, s: string, k: nat, nstr: string)
    requires Stands(p, off, s) && '%' !in s && k <= |s|
    ensures ParseFrom(p, off + k, nstr) == ParseFrom(p, off + |s|, nstr + s[k..])
    ensures OpenFrom(p, off + k) == OpenFrom(p, off + |s|)
    decreases |s| - k
  {
    if k == |s| {
      assert nstr + s[k..] == nstr;
    } else {
      assert p[off + k] == s[k] && s[k] in s;
      LiteralSkips(p, off, s, k + 1, nstr + [s[k]]);
      assert nstr + [s[k]] + s[k + 1..] == nstr + s[k..];
    }
  }

  /** A name that stands after a '%' ends where it ends. */
  lemma NameFound(p: string, off: nat, name: string)
    requires Stands(p, off, name) && Alphabetic(name)
    requires off + |name| < |p| ==> !InName(p[off + |name|])
    ensures NameEnd(p, off) == off + |name| && p[off..off + |name|] == name
  {
    StandsSlice(p, off, name);
    forall i | off <= i < off + |name| ensures InName(p[i]) {
      assert p[i] == name[i - off];
    }
  }

  lemma BraceFound(p: string, off: nat, fmt: string)
    requires Stands(p, off, fmt) && '}' !in fmt && off + |fmt| < |p| && p[off + |fmt|] == '}'
    ensures CloseBrace(p, off) == off + |fmt| && p[off..off + |fmt|] == fmt
  {
    StandsSlice(p, off, fmt);
    forall i | off <= i < off + |fmt| ensures p[i] != '}' {
      assert p[i] == fmt[i - off] && fmt[i - off] in fmt;
    }
  }

  lemma ScanPlain(p: string, i: nat, name: string)
    requires Stands(p, i, ['%'] + name) && name != "" && Alphabetic(name)
    requires i + 1 + |name| < |p| ==> Ends([p[i + 1 + |name|]])
    ensures p[i] == '%' && p[i + 1] != '%' && ScanItem(p, i) == Closed(i + 1 + |name|, name, "")
  {
    StandsPart(p, i, ['%'], name);
    assert p[i] == ['%'][0] && p[i + 1] == name[0];
    NameFound(p, i + 1, name);
  }

  /** The parts of %name{fmt} stand from i on. */
  ghost predicate BracedAt(p: string, i: nat, name: string, fmt: string) {
    var a := i + 1 + |name|;
    && a + 1 + |fmt| < |p| && p[i] == '%' && Stands(p, i + 1, name)
    && p[a] == '{' && Stands(p, a + 1, fmt) && p[a + 1 + |fmt|] == '}'
  }

  lemma BracedParts(p: string, i: nat, name: string, fmt: string)
    requires Stands(p, i, (['%'] + name) + (['{'] + (fmt + ['}'])))
    ensures BracedAt(p, i, name, fmt)
  {
    var a := i + 1 + |name|;
    StandsPart(p, i, ['%'] + name, ['{'] + (fmt + ['}']));
    StandsPart(p, i, ['%'], name);
    StandsPart(p, a, ['{'], fmt + ['}']);
    StandsPart(p, a + 1, fmt, ['}']);
    assert p[i] == ['%'][0] && p[a] == ['{'][0] && p[a + 1 + |fmt|] == ['}'][0];
  }

  lemma ScanBraced(p: string, i: nat, name: string, fmt: string)
    requires BracedAt(p, i, name, fmt) && Alphabetic(name) && '}' !in fmt
    ensures p[i] == '%' && p[i + 1] != '%' && ScanItem(p, i) == Closed(i + |name| + |fmt| + 3, name, fmt)
  {
    assert name != "" ==> p[i + 1] == name[0];
    NameFound(p, i + 1, name);
    BraceFound(p, i + 2 + |name|, fmt);
  }

  lemma ParsePlain(p: string, i: nat, name: string, nstr: string)
    requires Stands(p, i, ['%'] + name) && name != "" && Alphabetic(name)
    requires i + 1 + |name| < |p| ==> Ends([p[i + 1 + |name|]])
    ensures ParseFrom(p, i, nstr) == Flushed(nstr, Cons(Item(name, ""), ParseFrom(p, i + 1 + |name|, "")))
    ensures OpenFrom(p, i) == OpenFrom(p, i + 1 + |name|)
  {
    ScanPlain(p, i, name);
  }

  lemma ParseBraced(p: string, i: nat, name: string, fmt: string, nstr: string)
    requires Stands(p, i, (['%'] + name) + (['{'] + (fmt + ['}']))) && Alphabetic(name) && '}' !in fmt
    ensures ParseFrom(p, i, nstr) == Flushed(nstr, Cons(Item(name, fmt), ParseFrom(p, i + |name| + |fmt| + 3, "")))
    ensures OpenFrom(p, i) == OpenFrom(p, i + |name| + |fmt| + 3)
  {
    BracedParts(p, i, name, fmt);
    ScanBraced(p, i, name, fmt);
  }

  lemma ParseLiteral(p: string, i: nat, s: string, nstr: string)
    requires Stands(p, i, s) && '%' !in s
    ensures ParseFrom(p, i, nstr) == ParseFrom(p, i + |s|, nstr + s)
    ensures OpenFrom(p, i) == OpenFrom(p, i + |s|)
  {
    LiteralSkips(p, i, s, 0, nstr);
    assert s[0..] == s;
  }

  /** The parser on a token that stands in the text, before `after`. */
  lemma ParseToken(p: string, i: nat, t: Token, after: string, nstr: string)
    requires Stands(p, i, Show(t)) && TokenFits(t, after)
    requires |p| == i + |Show(t)| + |after| && (after != "" ==> p[i + |Show(t)|] == after[0])
    ensures OpenFrom(p, i) == OpenFrom(p, i + |Show(t)|)
    ensures ParseFrom(p, i, nstr) == Entered(t, nstr, ParseFrom(p, i + |Show(t)|, Carry(t, nstr)))
  {
    match t
    case Literal(s) => ParseLiteral(p, i, s, nstr);
    case Plain(name) => ParsePlain(p, i, name, nstr);
    case Braced(name, fmt) => ParseBraced(p, i, name, fmt, nstr);
  }

  /** The printed tokens are what is in the text from i on. */
  ghost predicate Laid(p: string, i: nat, ts: Tokens)
    decreases ts
  {
    match ts
    case End => i == |p|
    case Then(t, rest) =>
      var after := Print(rest);
      && Stands(p, i, Show(t)) && |p| == i + |Show(t)| + |after|
      && (after != "" ==> p[i + |Show(t)|] == after[0])
      && Laid(p, i + |Show(t)|, rest)
  }

  lemma {:induction false} PrintLaid(pre: string, ts: Tokens)
    ensures Laid(pre + Print(ts), |pre|, ts)
    decreases ts
  {
    if ts.Then? {
      var text, after := Show(ts.t), Print(ts.rest);
      StandsIn(pre, text, after);
      Assoc(pre, text, after);
      assert after != "" ==> ((pre + text) + after)[|pre| + |text|] == after[0];
      PrintLaid(pre + text, ts.rest);
    }
  }

  /** What the parser makes of the text from i on: the entries, and whether a brace is found open. */
  function Outcome(p: string, i: nat, nstr: string): (Entries, bool)
    requires i <= |p|
  {
    (ParseFrom(p, i, nstr), OpenFrom(p, i))
  }

  lemma ParseFirst(p: string, i: nat, t: Token, rest: Tokens, nstr: string)
    requires TokenFits(t, Print(rest)) && Laid(p, i, Then(t, rest))
    ensures i + |Show(t)| <= |p| && Laid(p, i + |Show(t)|, rest)
    ensures var r := Outcome(p, i + |Show(t)|, Carry(t, nstr));
            Outcome(p, i, nstr) == (Entered(t, nstr, r.0), r.1)
  {
    LaidParts(p, i, t, rest);
    ParseToken(p, i, t, Print(rest), nstr);
  }

  lemma LaidParts(p: string, i: nat, t: Token, rest: Tokens)
    requires Laid(p, i, Then(t, rest))
    ensures var after := Print(rest);
            && Stands(p, i, Show(t)) && |p| == i + |Show(t)| + |after|
            && (after != "" ==> p[i + |Show(t)|] == after[0])
            && Laid(p, i + |Show(t)|, rest)
  {
  }

  lemma {:induction false} ParseLaid(p: string, i: nat, ts: Tokens, nstr: string)
    requires WellFormed(ts) && Laid(p, i, ts) && i <= |p|
    ensures Outcome(p, i, nstr) == (Merged(ts, nstr), false)
    decreases ts
  {
    match ts
    case End =>
    case Then(t, rest) =>
      ParseLaid(p, i + |Show(t)|, rest, Carry(t, nstr));
      ParseFirst(p, i, t, rest, nstr);
  }

  /** A printed pattern parses to its tokens, adjacent literals merged, and no brace is found open. */
  lemma PatternRoundTrip(ts: Tokens)
    requires WellFormed(ts)
    ensures ParseFrom(Print(ts), 0, "") == Merged(ts, "") && !OpenFrom(Print(ts), 0)
  {
    PrintLaid("", ts);
    assert "" + Print(ts) == Print(ts);
    ParseLaid(Print(ts), 0, ts, "");
  }

  predicate SomeUnknown(ts: Tokens) {
    ts.Then? && ((!ts.t.Literal? && !Known(ts.t.name)) || SomeUnknown(ts.rest))
  }

  lemma {:induction false} MergedUnknown(ts: Tokens, nstr: string)
    ensures AnyUnknown(Merged(ts, nstr)) <==> SomeUnknown(ts)
    decreases ts
  {
    if ts.Then? {
      MergedUnknown(ts.rest, Carry(ts.t, nstr));
    }
  }

  lemma {:induction false} UnknownSomewhere(es: Entries)
    ensures AnyUnknown(es) <==> exists k :: 0 <= k < Length(es) && UnknownAt(es, k)
    decreases es
  {
    if es.Cons? {
      UnknownSomewhere(es.rest);
      assert UnknownAt(es, 0) <==> Unknown(es.e);
      if AnyUnknown(es.rest) {
        var k :| 0 <= k < Length(es.rest) && UnknownAt(es.rest, k);
        assert UnknownAt(es, k + 1);
      } else {
        forall k | 0 < k < Length(es) ensures !UnknownAt(es, k) {
          assert !UnknownAt(es.rest, k - 1);
        }
      }
    }
  }

  /** init on a printed pattern sets m_error exactly when some name is unknown. */
  lemma ErrorExact(ts: Tokens)
    requires WellFormed(ts)
    ensures var es := ParseFrom(Print(ts), 0, "");
            (OpenFrom(Print(ts), 0) || exists k :: 0 <= k < Length(es) && UnknownAt(es, k)) <==> SomeUnknown(ts)
  {
    PatternRoundTrip(ts);
    UnknownSomewhere(Merged(ts, ""));
    MergedUnknown(ts, "");
  }

  // ---- one item for each token

  function Count(ts: Tokens): nat {
    match ts
    case End => 0
    case Then(_, rest) => 1 + Count(rest)
  }

  function TokenAt(ts: Tokens, i: nat): Token
    requires i < Count(ts)
    decreases ts
  {
    if i == 0 then ts.t else TokenAt(ts.rest, i - 1)
  }

  /** No literal is empty, and none follows another. */
  predicate Separated(ts: Tokens) {
    ts.Then? ==>
      && (ts.t.Literal? ==> ts.t.s != "" && !(ts.rest.Then? && ts.rest.t.Literal?))
      && Separated(ts.rest)
  }

  /** What a token is formatted by: its text, the formatter of its name with its format, or an error text. */
  function ItemOf(t: Token): FormatItem {
    match t
    case Literal(s) => StringItem(s)
    case Plain(name) => if Known(name) then NamedItem(name, "") else StringItem("<<error_format %" + name + ">>")
    case Braced(name, fmt) => if Known(name) then NamedItem(name, fmt) else StringItem("<<error_format %" + name + ">>")
  }

  lemma {:induction false} SeparatedMerged(ts: Tokens)
    requires Separated(ts)
    ensures Length(Merged(ts, "")) == Count(ts)
    ensures forall i :: 0 <= i < Count(ts) ==> Format(Nth(Merged(ts, ""), i)) == ItemOf(TokenAt(ts, i))
    decreases ts
  {
    if ts.Then? {
      var rest := Merged(ts.rest, "");
      SeparatedMerged(ts.rest);
      assert Merged(ts, "").Cons? && Merged(ts, "").rest == rest && Format(Merged(ts, "").e) == ItemOf(ts.t);
      forall i | 0 < i < Count(ts) ensures Format(Nth(Merged(ts, ""), i)) == ItemOf(TokenAt(ts, i)) {
        assert Nth(Merged(ts, ""), i) == Nth(rest, i - 1) && TokenAt(ts, i) == TokenAt(ts.rest, i - 1);
      }
    }
  }

  /** A printed pattern is parsed to one item for each token, in order. */
  lemma SeparatedItems(ts: Tokens)
    requires WellFormed(ts) && Separated(ts)
    ensures var es := ParseFrom(Print(ts), 0, "");
            && Length(es) == Count(ts)
            && forall i :: 0 <= i < Count(ts) ==> Format(Nth(es, i)) == ItemOf(TokenAt(ts, i))
  {
    PatternRoundTrip(ts);
    SeparatedMerged(ts);
  }

  function Percents(n: nat): (r: string)
    ensures |r| == n && forall i :: 0 <= i < n ==> r[i] == '%'
  {
    seq(n, _ => '%')
  }

  /** k percent signs stand from place i on, and no more. */
  predicate PercentsAt(p: string, i: nat, k: nat) {
    && i + k <= |p| && (forall j :: i <= j < i + k ==> p[j] == '%') && (i + k < |p| ==> p[i + k] != '%')
  }

  /** "%%" is not an escape, in any pattern: of k percent signs in a row all but the last go to the text, and the last
      one still begins an item. */
  lemma {:induction false} PercentsSkip(p: string, i: nat, k: nat, nstr: string)
    requires k >= 1 && PercentsAt(p, i, k)
    ensures ParseFrom(p, i, nstr) == ParseFrom(p, i + k - 1, nstr + Percents(k - 1))
    ensures OpenFrom(p, i) == OpenFrom(p, i + k - 1)
    decreases k
  {
    if k == 1 {
      assert nstr + Percents(0) == nstr;
    } else {
      assert p[i] == '%' && p[i + 1] == '%';
      PercentsSkip(p, i + 1, k - 1, nstr + ['%']);
      assert nstr + ['%'] + Percents(k - 2) == nstr + Percents(k - 1);
    }
  }

  /** What k percent signs in a row are parsed to: k - 1 of them as text, and an item; and unless a letter or a brace
      follows, that item has no name, and is unknown. */
  lemma PercentsParse(p: string, i: nat, k: nat, nstr: string)
    requires k >= 1 && PercentsAt(p, i, k)
    ensures match ScanItem(p, i + k - 1)
            case Open => ParseFrom(p, i, nstr) ==
                         Cons(Text(PATTERN_ERROR), ParseFrom(p, i + k, nstr + Percents(k - 1))) && OpenFrom(p, i)
            case Closed(next, name, fmt) =>
              ParseFrom(p, i, nstr) ==
              Flushed(nstr + Percents(k - 1), Cons(Item(name, fmt), ParseFrom(p, next, "")))
    ensures i + k == |p| || Ends([p[i + k]]) ==>
              ScanItem(p, i + k - 1) == Closed(i + k, "", "") && AnyUnknown(ParseFrom(p, i, nstr))
  {
    PercentsSkip(p, i, k, nstr);
    var last := i + k - 1;
    assert p[last] == '%' && (last + 1 < |p| ==> p[last + 1] != '%');
    assert p[last + 1..last + 1] == "";
  }

  /** A witness: "%%" alone is the text "%" and an item without a name. */
  lemma DoublePercent()
    ensures ParseFrom("%%", 0, "") == Cons(Text("%"), Cons(Item("", ""), Nil))
  {
    PercentsParse("%%", 0, 2, "");
    assert "" + Percents(1) == "%";
  }
}
