/** Text inside a longer text, by position. */
module Texts {

  /** The text a stands in s at `off`. */
  ghost predicate Stands<T>(s: seq<T>, off: nat, a: seq<T>) {
    off + |a| <= |s| && forall j :: off <= j < off + |a| ==> s[j] == a[j - off]
  }

  lemma StandsSlice<T>(s: seq<T>, off: nat, a: seq<T>)
    requires Stands(s, off, a)
    ensures s[off..off + |a|] == a
  {
  }

  lemma StandsIn<T>(pre: seq<T>, a: seq<T>, post: seq<T>)
    ensures Stands(pre + (a + post), |pre|, a)
  {
    var s := pre + (a + post);
    forall j | |pre| <= j < |pre| + |a| ensures s[j] == a[j - |pre|] {
      assert s[j] == (a + post)[j - |pre|];
    }
  }

  lemma StandsPart<T>(s: seq<T>, off: nat, a: seq<T>, b: seq<T>)
    requires Stands(s, off, a + b)
    ensures Stands(s, off, a) && Stands(s, off + |a|, b)
  {
    forall j | off <= j < off + |a| ensures s[j] == a[j - off] {
      assert (a + b)[j - off] == a[j - off];
    }
    forall j | off + |a| <= j < off + |a| + |b| ensures s[j] == b[j - off - |a|] {
      assert (a + b)[j - off] == b[j - off - |a|];
    }
  }

  lemma Assoc<T>(a: seq<T>, b: seq<T>, c: seq<T>)
    ensures a + b + c == a + (b + c)
  {
  }
}
