/** URL percent-coding (src/utils/util.cpp): the two loops with their lazily made buffer, against the plain byte-by-byte
    maps of section 2.1 of RFC 3986. */
module UrlCodec {
  import opened Blocks
  import opened Texts

  const SPACE: Byte := 32
  const PERCENT: Byte := 37
  const PLUS: Byte := 43
  const EQUALS: Byte := 61

  /** uri_chars: the letters, the digits, and - . = _ ~ */
  predicate Unreserved(c: Byte) {
    c == 45 || c == 46 || 48 <= c <= 57 || c == EQUALS || 65 <= c <= 90 || c == 95 || 97 <= c <= 122 || c == 126
  }

  function HexDigit(n: nat): Byte
    requires n < 16
  {
    if n < 10 then 48 + n else 55 + n
  }

  predicate IsHexDigit(c: Byte) {
    48 <= c <= 57 || 65 <= c <= 70 || 97 <= c <= 102
  }

  /** xdigit_chars, on the characters that isxdigit accepts. */
  function HexValue(c: Byte): (n: nat)
    requires IsHexDigit(c)
    ensures n < 16
  {
    if c <= 57 then c - 48 else if c <= 70 then c - 55 else c - 87
  }

  function EncodeByte(c: Byte, plus: bool): seq<Byte> {
    if Unreserved(c) then [c]
    else if c == SPACE && plus then [PLUS]
    else [PERCENT, HexDigit(c / 16), HexDigit(c % 16)]
  }

  function Encode(s: seq<Byte>, plus: bool): seq<Byte>
    decreases |s|
  {
    if s == [] then [] else EncodeByte(s[0], plus) + Encode(s[1..], plus)
  }

  /** An escape at the front of s. */
  predicate Escape(s: seq<Byte>) {
    |s| >= 3 && s[0] == PERCENT && IsHexDigit(s[1]) && IsHexDigit(s[2])
  }

  function Decode(s: seq<Byte>, plus: bool): seq<Byte>
    decreases |s|
  {
    if s == [] then []
    else if s[0] == PLUS && plus then [SPACE] + Decode(s[1..], plus)
    else if Escape(s) then [16 * HexValue(s[1]) + HexValue(s[2])] + Decode(s[3..], plus)
    else [s[0]] + Decode(s[1..], plus)
  }

  // ---- the program

  /** UrlEncode; with no byte to escape it returns its argument and never makes a buffer. */
  method UrlEncode(str: seq<Byte>, plus: bool) returns (r: seq<Byte>)
    ensures r == Encode(str, plus)
  {
    var made := false;
    var ss: seq<Byte> := [];
    var c := 0;
    while c < |str|
      invariant 0 <= c <= |str| && (if made then ss else str[..c]) == Encode(str[..c], plus)
    {
      EncodeNext(str, c, plus);
      if !Unreserved(str[c]) {
        if !made {
          made, ss := true, str[..c];
        }
        ss := AppendEscaped(ss, str[c], plus);
      } else if made {
        ss := ss + [str[c]];
      } else {
        StillPlain(str, c, plus);
      }
      c := c + 1;
    }
    r := if made then ss else str;
    assert str[..c] == str;
  }

  method AppendEscaped(ss: seq<Byte>, c: Byte, plus: bool) returns (r: seq<Byte>)
    requires !Unreserved(c)
    ensures r == ss + EncodeByte(c, plus)
  {
    if c == SPACE && plus {
      r := ss + [PLUS];
    } else {
      r := ss + [PERCENT];
      r := r + [HexDigit(c / 16)];
      r := r + [HexDigit(c % 16)];
    }
  }

  lemma StillPlain(s: seq<Byte>, c: nat, plus: bool)
    requires c < |s| && s[..c] == Encode(s[..c], plus) && Unreserved(s[c])
    ensures s[..c + 1] == Encode(s[..c + 1], plus)
  {
    EncodeNext(s, c, plus);
    assert s[..c + 1] == s[..c] + [s[c]];
  }

  lemma EncodeNext(s: seq<Byte>, c: nat, plus: bool)
    requires c < |s|
    ensures Encode(s[..c + 1], plus) == Encode(s[..c], plus) + EncodeByte(s[c], plus)
  {
    assert s[..c + 1] == s[..c] + [s[c]];
    EncodeConcat(s[..c], [s[c]], plus);
    assert [s[c]][1..] == [] && Encode([], plus) == [];
  }

  /** UrlDecode. */
  method UrlDecode(str: seq<Byte>, plus: bool) returns (r: seq<Byte>)
    ensures r == Decode(str, plus)
  {
    var made := false;
    var ss: seq<Byte> := [];
    var c := 0;
    while c < |str|
      invariant 0 <= c <= |str|
      invariant (if made then ss else str[..c]) + Decode(str[c..], plus) == Decode(str, plus)
    {
      ghost var before := if made then ss else str[..c];
      ghost var from := c;
      var out: Byte := str[c];
      if str[c] == PLUS && plus {
        if !made {
          made, ss := true, str[..c];
        }
        out := SPACE;
        ss := ss + [SPACE];
      } else if str[c] == PERCENT && c + 2 < |str| && IsHexDigit(str[c + 1]) && IsHexDigit(str[c + 2]) {
        if !made {
          made, ss := true, str[..c];
        }
        out := 16 * HexValue(str[c + 1]) + HexValue(str[c + 2]);
        ss := ss + [out];
        c := c + 2;
      } else if made {
        ss := ss + [str[c]];
      }
      c := c + 1;
      assert (if made then ss else str[..c]) == before + [out];
      assert Decode(str[from..], plus) == [out] + Decode(str[c..], plus) by {
        assert str[from..][c - from..] == str[c..];
      }
      Assoc(before, [out], Decode(str[c..], plus));
    }
    r := if made then ss else str;
    assert str[..c] == str && str[c..] == [];
  }

  // ---- round trip

  /** Decoding undoes the encoding of one byte, whatever follows; a '+' that stands for a space must be read as one. */
  lemma DecodeByte(c: Byte, b: bool, d: bool, rest: seq<Byte>)
    requires d || !b || c != SPACE
    ensures Decode(EncodeByte(c, b) + rest, d) == [c] + Decode(rest, d)
  {
    var s := EncodeByte(c, b) + rest;
    if |EncodeByte(c, b)| == 1 {
      assert s[1..] == rest;
    } else {
      assert s[3..] == rest;
      assert s[0] == PERCENT && s[1] == HexDigit(c / 16) && s[2] == HexDigit(c % 16);
      assert HexValue(s[1]) == c / 16 && HexValue(s[2]) == c % 16;
    }
  }

  /** Every byte string survives, with either treatment of spaces, the same on both sides or only on the decoding
      one. */
  lemma {:induction false} DecodeEncode(s: seq<Byte>, b: bool, d: bool)
    requires d || !b || SPACE !in s
    ensures Decode(Encode(s, b), d) == s
    decreases |s|
  {
    if s != [] {
      DecodeEncode(s[1..], b, d);
      DecodeByte(s[0], b, d, Encode(s[1..], b));
    }
  }

  /** Spaces written as '+' and read as '+' come back as '+'; everything else comes back. */
  function Plussed(s: seq<Byte>): (r: seq<Byte>)
    ensures |r| == |s| && forall i :: 0 <= i < |s| ==> r[i] == if s[i] == SPACE then PLUS else s[i]
    decreases |s|
  {
    if s == [] then [] else [if s[0] == SPACE then PLUS else s[0]] + Plussed(s[1..])
  }

  lemma {:induction false} DecodePlussed(s: seq<Byte>)
    ensures Decode(Encode(s, true), false) == Plussed(s)
    decreases |s|
  {
    if s != [] {
      DecodePlussed(s[1..]);
      if s[0] == SPACE {
        assert (EncodeByte(s[0], true) + Encode(s[1..], true))[1..] == Encode(s[1..], true);
      } else {
        DecodeByte(s[0], true, false, Encode(s[1..], true));
      }
    }
  }

  /** When encoding and decoding round-trip, for all four combinations of the flags. */
  lemma RoundTripExact(s: seq<Byte>, b: bool, d: bool)
    ensures Decode(Encode(s, b), d) == s <==> d || !b || SPACE !in s
  {
    if d || !b || SPACE !in s {
      DecodeEncode(s, b, d);
    } else {
      DecodePlussed(s);
      var i :| 0 <= i < |s| && s[i] == SPACE;
      assert Plussed(s)[i] == PLUS;
    }
  }

  /** What encoded text is made of. */
  predicate Safe(c: Byte) {
    Unreserved(c) || c == PERCENT || c == PLUS
  }

  lemma {:induction false} EncodeSafe(s: seq<Byte>, b: bool)
    ensures forall i :: 0 <= i < |Encode(s, b)| ==> Safe(Encode(s, b)[i])
    decreases |s|
  {
    if s != [] {
      EncodeSafe(s[1..], b);
    }
  }

  lemma {:induction false} EncodeConcat(s: seq<Byte>, t: seq<Byte>, b: bool)
    ensures Encode(s + t, b) == Encode(s, b) + Encode(t, b)
    decreases |s|
  {
    if s == [] {
      assert s + t == t;
    } else {
      EncodeConcat(s[1..], t, b);
      assert (s + t)[0] == s[0] && (s + t)[1..] == s[1..] + t;
      Assoc(EncodeByte(s[0], b), Encode(s[1..], b), Encode(t, b));
    }
  }

  /** '=' is the one byte that stays itself and appears for nothing else. */
  lemma {:induction false} EqualsKept(s: seq<Byte>, b: bool)
    ensures EQUALS in Encode(s, b) <==> EQUALS in s
    decreases |s|
  {
    if s != [] {
      EqualsKept(s[1..], b);
      assert s == [s[0]] + s[1..];
      assert EQUALS in EncodeByte(s[0], b) <==> s[0] == EQUALS by {
        assert EncodeByte(s[0], b)[0] == s[0] || s[0] != EQUALS;
      }
    }
  }

  /** The digits 0 to 9, and a to f in either case. */
  predicate Denotes(c: Byte, n: nat) {
    if n < 10 then c == 48 + n else n < 16 && (c == 65 + (n - 10) || c == 97 + (n - 10))
  }

  /** Any byte may be escaped, with digits of either case, although UrlEncode writes capitals only. */
  lemma EscapeEitherCase(b: Byte, high: Byte, low: Byte, rest: seq<Byte>, plus: bool)
    requires Denotes(high, b / 16) && Denotes(low, b % 16)
    ensures Decode([PERCENT, high, low] + rest, plus) == [b] + Decode(rest, plus)
  {
    var s := [PERCENT, high, low] + rest;
    assert s[3..] == rest && s[0] == PERCENT && s[1] == high && s[2] == low;
    assert HexValue(high) == b / 16 && HexValue(low) == b % 16;
  }

  /** A percent sign that two digits do not follow stays itself. */
  lemma StrayPercent(s: seq<Byte>, plus: bool)
    requires s != [] && s[0] == PERCENT
    requires |s| < 3 || (forall n: nat :: !Denotes(s[1], n)) || (forall n: nat :: !Denotes(s[2], n))
    ensures Decode(s, plus) == [PERCENT] + Decode(s[1..], plus)
  {
    if Escape(s) {
      assert Denotes(s[1], HexValue(s[1])) && Denotes(s[2], HexValue(s[2]));
    }
  }

  /** What stays itself: letters, digits, and five other characters. */
  predicate Plain(ch: char) {
    'A' <= ch <= 'Z' || 'a' <= ch <= 'z' || '0' <= ch <= '9' || ch in {'-', '.', '_', '~', '='}
  }

  /** What one byte is encoded as: itself, or '+' for a space if that is asked for, or a percent sign and the two digits
      of its number, in capitals. */
  lemma EscapeExact(c: Byte, plus: bool)
    ensures var e, ch := EncodeByte(c, plus), c as char;
            if Plain(ch) then e == [c]
            else if ch == ' ' && plus then e == ['+' as int]
            else |e| == 3 && e[0] as char == '%'
                 && Denotes(e[1], c / 16) && Denotes(e[2], c % 16) && e[1] as char < 'a' && e[2] as char < 'a'
  {
  }
}
