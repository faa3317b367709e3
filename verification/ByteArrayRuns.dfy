/** Whole runs of a `ByteArray` against a flat byte sequence with a cursor. */
module ByteArrayRuns {
  import opened Blocks
  import opened ByteArrays

  /** What a user can tell apart: the bytes of the capacity, the cursor, and how far data goes. */
  datatype Flat = Flat(bytes: seq<Byte>, position: nat, size: nat)

  datatype Op =
    | Write(data: seq<Byte>)
    | Read(n: nat)
    | SetPosition(v: nat)
    | Clear
    | GetWriteBuffers(n: nat)

  ghost function Max(a: nat, b: nat): nat { if a > b then a else b }

  /** A read gives the next bytes, fails when there are too few, and breaks only when it asks for nothing at
      the very end of the capacity. */
  ghost function ReadAnswer(s: Flat, n: nat): ReadResult
    requires s.position <= s.size <= |s.bytes|
  {
    if n > s.size - s.position then OutOfRange
    else if n == 0 && s.position == |s.bytes| then NullCursor
    else Data(s.bytes[s.position..s.position + n])
  }

  /** The flat machine.  It knows nothing of blocks, except that the capacity grows and is reset in units of
      `base`; bytes never written are not determined.  `out` is what the caller gets back. */
  ghost predicate FlatStep(base: nat, s: Flat, op: Op, out: ReadResult, t: Flat)
    requires base > 0
  {
    s.position <= s.size <= |s.bytes| &&
    match op
    case Write(d) =>
      && out == Data([])
      && Overwrote(s.bytes, t.bytes, s.position, d)
      && |t.bytes| == GrownCapacity(base, |s.bytes|, s.position, |d|)
      && t.position == s.position + |d|
      && t.size == Max(s.size, t.position)
    case Read(n) =>
      && out == ReadAnswer(s, n)
      && t == if out.Data? then s.(position := s.position + n) else s
    case SetPosition(v) =>
      && out == (if v <= |s.bytes| then Data([]) else OutOfRange)
      && t == if v <= |s.bytes| then s.(position := v, size := Max(s.size, v)) else s
    case Clear =>
      out == Data([]) && t.bytes <= s.bytes && |t.bytes| == base && t.position == 0 && t.size == 0
    case GetWriteBuffers(n) =>
      && out == Data([])
      && s.bytes <= t.bytes
      && |t.bytes| == GrownCapacity(base, |s.bytes|, s.position, n)
      && t.position == s.position && t.size == s.size
  }

  ghost predicate FlatRun(base: nat, states: seq<Flat>, ops: seq<Op>, outs: seq<ReadResult>) {
    && base > 0
    && |states| == |ops| + 1 && |outs| == |ops|
    && forall i :: 0 <= i < |ops| ==> FlatStep(base, states[i], ops[i], outs[i], states[i + 1])
  }

  ghost function View(ba: ByteArray): Flat
    reads ba`blocks, ba`position, ba`size
  {
    Flat(ba.Bytes(), ba.position, ba.size)
  }

  /** One operation on the chain of blocks is one step of the flat machine. */
  method Perform(ba: ByteArray, op: Op) returns (out: ReadResult)
    requires ba.Valid()
    modifies ba.Repr
    ensures ba.Valid() && fresh(ba.Repr - old(ba.Repr))
    ensures FlatStep(ba.baseSize, old(View(ba)), op, out, View(ba))
  {
    ba.BytesLength();
    out := Data([]);
    match op
    case Write(d) => ba.Write(d); ba.BytesLength();
    case Read(n) => out := ba.Read(n);
    case SetPosition(v) =>
      var ok := ba.SetPosition(v);
      if !ok {
        out := OutOfRange;
      }
    case Clear => ba.Clear(); ba.BytesLength();
    case GetWriteBuffers(n) => var _, _ := ba.GetWriteBuffers(n); ba.BytesLength();
  }

  /** Every run of operations, from any valid store, is a run of the flat machine. */
  method Replay(ba: ByteArray, ops: seq<Op>) returns (outs: seq<ReadResult>, ghost states: seq<Flat>)
    requires ba.Valid()
    modifies ba.Repr
    ensures ba.Valid() && fresh(ba.Repr - old(ba.Repr))
    ensures FlatRun(ba.baseSize, states, ops, outs)
    ensures states[0] == old(View(ba)) && states[|ops|] == View(ba)
  {
    outs, states := [], [View(ba)];
    for i := 0 to |ops|
      invariant ba.Valid() && fresh(ba.Repr - old(ba.Repr))
      invariant FlatRun(ba.baseSize, states, ops[..i], outs)
      invariant states[0] == old(View(ba)) && states[i] == View(ba)
    {
      var out := Perform(ba, ops[i]);
      outs := outs + [out];
      states := states + [View(ba)];
    }
    assert ops[..|ops|] == ops;
  }

  /** The operations that may change byte `i`. */
  ghost predicate Touches(s: Flat, op: Op, i: nat) {
    (op.Write? && s.position <= i < s.position + |op.data|) || (op.Clear?)
  }

  /** A byte changes only under a write that covers it: it survives any run in between. */
  lemma {:induction false} UntouchedBytesSurvive(
    base: nat, states: seq<Flat>, ops: seq<Op>, outs: seq<ReadResult>, i: nat)
    requires FlatRun(base, states, ops, outs) && i < |states[0].bytes|
    requires forall k :: 0 <= k < |ops| ==> !Touches(states[k], ops[k], i)
    ensures i < |states[|ops|].bytes| && states[|ops|].bytes[i] == states[0].bytes[i]
    ensures states[0].size <= states[|ops|].size
  {
    if |ops| > 0 {
      var n := |ops| - 1;
      forall k | 0 <= k < n
        ensures FlatStep(base, states[..n + 1][k], ops[..n][k], outs[..n][k], states[..n + 1][k + 1])
      {
        assert FlatStep(base, states[k], ops[k], outs[k], states[k + 1]);
      }
      UntouchedBytesSurvive(base, states[..n + 1], ops[..n], outs[..n], i);
      assert FlatStep(base, states[n], ops[n], outs[n], states[n + 1]) && !Touches(states[n], ops[n], i);
    }
  }

  /** Data written comes back from its place after any run that neither clears nor overwrites it. */
  lemma WrittenDataComesBack(base: nat, states: seq<Flat>, ops: seq<Op>, outs: seq<ReadResult>, d: seq<Byte>)
    requires FlatRun(base, states, ops, outs) && |ops| >= 3 && |d| > 0
    requires ops[0] == Write(d)
    requires ops[|ops| - 2] == SetPosition(states[0].position) && ops[|ops| - 1] == Read(|d|)
    requires forall k, i :: 1 <= k < |ops| - 2 && states[0].position <= i < states[0].position + |d|
               ==> !Touches(states[k], ops[k], i)
    ensures outs[|ops| - 1] == Data(d)
  {
    var p, m := states[0].position, |ops| - 2;
    assert FlatStep(base, states[0], ops[0], outs[0], states[1]);
    assert FlatStep(base, states[m], ops[m], outs[m], states[m + 1]);
    assert FlatStep(base, states[m + 1], ops[m + 1], outs[m + 1], states[m + 2]);
    assert FlatRun(base, states[1..m + 1], ops[1..m], outs[1..m]) by {
      forall k | 0 <= k < m - 1
        ensures FlatStep(base, states[1..m + 1][k], ops[1..m][k], outs[1..m][k], states[1..m + 1][k + 1])
      {
        assert FlatStep(base, states[k + 1], ops[k + 1], outs[k + 1], states[k + 2]);
      }
    }
    forall i | p <= i < p + |d|
      ensures i < |states[m].bytes| && states[m].bytes[i] == d[i - p]
    {
      UntouchedBytesSurvive(base, states[1..m + 1], ops[1..m], outs[1..m], i);
      assert states[1].bytes[p..p + |d|][i - p] == d[i - p];
    }
    UntouchedBytesSurvive(base, states[1..m + 1], ops[1..m], outs[1..m], p + |d| - 1);
    assert states[m].bytes[p..p + |d|] == d;
  }
}
