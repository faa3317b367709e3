/** The block-list byte store of src/net/bytearray.cpp.

    `ByteArray` is a chain of equally sized heap blocks with a cursor.  Its abstract value is the flat
    sequence `Bytes()` (one byte per byte of capacity), the position and the size.  `Valid()` ties the
    chain to that value, and every method states the new abstract value. */
module ByteArrays {
  import opened Blocks

  class Node {
    const ptr: array<Byte>
    const size: nat
    var next: Node?

    constructor (s: nat)
      ensures ptr.Length == s && size == s && next == null
      ensures fresh(ptr)
    {
      ptr := new Byte[s];
      size := s;
      next := null;
    }
  }

  /** One entry of a gather/scatter list: `len` bytes of `buf` from `off` on. */
  datatype Iovec = Iovec(buf: array<Byte>, off: nat, len: nat)

  /** Outcome of a read: the bytes, the out_of_range exception, or the access through a null `m_cur`
      that a zero-length read makes when the cursor stands at the end of the capacity. */
  datatype ReadResult = Data(bytes: seq<Byte>) | OutOfRange | NullCursor

  method Memcpy(dst: array<Byte>, at: nat, src: seq<Byte>)
    requires at + |src| <= dst.Length
    modifies dst
    ensures dst[..] == Splice(old(dst[..]), at, src)
  {
    forall i | 0 <= i < |src| {
      dst[at + i] := src[i];
    }
  }

  function CeilDiv(n: nat, b: nat): (q: nat)
    requires b > 0
  {
    (n + b - 1) / b
  }

  lemma CeilDivCovers(n: nat, b: nat)
    requires b > 0
    ensures n <= Span(CeilDiv(n, b), b) < n + b
  {
    PositionArithmetic(n + b - 1, b);
    Located(n + b - 1, b);
  }

  class ByteArray {
    const baseSize: nat
    const root: Node
    var position: nat
    var capacity: nat
    var size: nat
    var littleEndian: bool
    var cur: Node?
    ghost var chain: seq<Node>           // the nodes, from root on
    ghost var blocks: seq<seq<Byte>>     // what their memory holds
    ghost var Repr: set<object>

    ghost function NodeAt(i: nat): Node?
      reads this`chain
    {
      if i < |chain| then chain[i] else null
    }

    /** The shape of the chain, without the cursor. */
    ghost predicate Chained()
      reads this`chain, this`capacity, this`blocks, this`Repr, Repr
    {
      && this in Repr
      && (forall i :: 0 <= i < |chain| ==> chain[i] in Repr && chain[i].ptr in Repr)
      && baseSize > 0
      && |chain| > 0
      && chain[0] == root
      && (forall i :: 0 <= i < |chain| ==> chain[i].size == baseSize == chain[i].ptr.Length)
      && (forall i {:trigger chain[i].next} :: 0 <= i < |chain| ==> chain[i].next == NodeAt(i + 1))
      && (forall i, j :: 0 <= i < j < |chain| ==> chain[i] != chain[j] && chain[i].ptr != chain[j].ptr)
      && capacity == Span(|chain|, baseSize)
      && |blocks| == |chain|
      && (forall i :: 0 <= i < |chain| ==> chain[i].ptr[..] == blocks[i])
    }

    /** The cursor node is block number position / base, and null exactly at the end of the capacity. */
    ghost predicate CursorAt(p: nat, c: Node?)
      requires baseSize > 0
      reads this`chain
    {
      c == NodeAt(BlockOf(p, baseSize))
    }

    ghost predicate Valid()
      reads this, Repr
    {
      && Chained()
      && position <= size <= capacity
      && CursorAt(position, cur)
    }

    /** The abstract contents: every byte of the capacity, in order. */
    ghost function Bytes(): seq<Byte>
      reads this`blocks
    {
      Flatten(blocks)
    }

    lemma BytesLength()
      requires Chained()
      ensures |Bytes()| == capacity && Uniform(blocks, baseSize)
    {
      FlattenLength(blocks, baseSize);
    }

    /** Null exactly when the cursor has used up the capacity. */
    lemma CursorNull()
      requires Valid()
      ensures cur == null <==> position == capacity
      ensures cur != null ==> position / baseSize < |chain| && cur == chain[position / baseSize]
      ensures capacity == |chain| * baseSize
    {
      PositionArithmetic(position, baseSize);
      SpanIsProduct(|chain|, baseSize);
      BlockBelow(position, |chain|, baseSize);
    }

    constructor (base: nat)
      requires base > 0
      ensures Valid() && fresh(Repr)
      ensures baseSize == base && position == 0 && size == 0 && capacity == base && !littleEndian
    {
      baseSize := base;
      position, size, capacity := 0, 0, base;
      littleEndian := false;
      root := new Node(base);
      cur := root;
      chain := [root];
      new;
      Repr := {this, root, root.ptr};
      blocks := [root.ptr[..]];
      assert Span(1, base) == base;
    }

    function ReadSize(): nat
      requires Valid()
      reads this, Repr
    {
      size - position
    }

    /** `m_position % m_baseSize`. */
    method Offset() returns (npos: nat)
      requires baseSize > 0
      ensures npos == OffsetOf(position, baseSize)
    {
      npos := position % baseSize;
      PositionArithmetic(position, baseSize);
    }

    /** Where a cursor `c` at `p` goes when `n` more bytes of its block are used. */
    lemma NextCursor(p: nat, c: Node?, n: nat)
      requires Chained() && CursorAt(p, c) && p < capacity
      requires OffsetOf(p, baseSize) + n <= baseSize
      ensures p + n <= capacity && c != null && c.size == baseSize && BlockOf(p, baseSize) < |chain|
      ensures CursorAt(p + n, if OffsetOf(p, baseSize) + n == baseSize then c.next else c)
      ensures OffsetOf(p, baseSize) + n == baseSize ==> OffsetOf(p + n, baseSize) == 0
      ensures p + n < capacity ==> BlockOf(p + n, baseSize) < |chain|
    {
      BlockBelow(p + n, |chain|, baseSize);
      BlockBelow(p, |chain|, baseSize);
      BlockStep(p, n, baseSize);
      Located(p, baseSize);
      var k := BlockOf(p, baseSize);
      SpanMono(k + 1, |chain|, baseSize);
      assert chain[k].next == NodeAt(k + 1);
    }

    /** `memcpy` to the cursor, inside the current block. */
    method StoreHere(npos: nat, d: seq<Byte>)
      requires Chained() && CursorAt(position, cur) && cur != null
      requires npos == OffsetOf(position, baseSize) && npos + |d| <= baseSize
      modifies this`blocks, cur.ptr
      ensures Chained()
      ensures position + |d| <= |old(Bytes())|
      ensures Bytes() == Splice(old(Bytes()), position, d)
    {
      Located(position, baseSize);
      Store(cur.ptr, npos, d, this, BlockOf(position, baseSize));
    }

    method AddCapacity(n: nat)
      requires Valid()
      modifies Repr
      ensures Valid() && fresh(Repr - old(Repr))
      ensures position == old(position) && size == old(size) && littleEndian == old(littleEndian)
      ensures old(Bytes()) <= Bytes()
      ensures capacity == GrownCapacity(baseSize, old(capacity), old(position), n)
      ensures n <= capacity - position
    {
      var oldCap := capacity - position;
      if n == 0 || oldCap >= n {
        return;
      }
      var count := CeilDiv(n - oldCap, baseSize);
      CeilDivCovers(n - oldCap, baseSize);
      var first := Append(count);
      ghost var k := |chain| - count;
      BlockBelow(position, k, baseSize);
      if oldCap == 0 {
        cur := first;
        Locate(k, 0, baseSize);
      }
    }

    /** The two loops of the growing path: walk to the last block, then hang `count` fresh ones behind it. */
    method Append(count: nat) returns (first: Node?)
      requires Chained()
      modifies this`chain, this`capacity, this`blocks, this`Repr, chain
      ensures Chained() && |chain| == |old(chain)| + count && old(chain) <= chain
      ensures old(Repr) <= Repr && fresh(Repr - old(Repr))
      ensures first == if count == 0 then null else chain[|old(chain)|]
      ensures capacity == old(capacity) + Span(count, baseSize)
      ensures old(Bytes()) <= Bytes()
    {
      var tmp := root;
      ghost var k := 0;
      while tmp.next != null
        invariant k < |chain| && tmp == chain[k]
        decreases |chain| - k
      {
        assert chain[k].next == NodeAt(k + 1);
        tmp := tmp.next;
        k := k + 1;
      }
      assert chain[k].next == NodeAt(k + 1);
      first := null;
      var i := 0;
      while i < count
        invariant 0 <= i <= count
        invariant Chained() && |chain| == |old(chain)| + i && old(chain) <= chain
        invariant old(Repr) <= Repr && fresh(Repr - old(Repr))
        invariant tmp == chain[|chain| - 1] && (tmp in old(chain) || fresh(tmp))
        invariant first == if i == 0 then null else chain[|old(chain)|]
        invariant capacity == old(capacity) + Span(i, baseSize)
        invariant old(Bytes()) <= Bytes()
      {
        tmp := AppendNode(tmp);
        if first == null {
          first := tmp;
        }
        i := i + 1;
      }
    }

    /** One round of the growing loop: a fresh block behind `last`. */
    method AppendNode(last: Node) returns (n: Node)
      requires Chained() && last == chain[|chain| - 1]
      modifies this`chain, this`capacity, this`blocks, this`Repr, last`next
      ensures fresh(n) && chain == old(chain) + [n]
      ensures old(Repr) <= Repr && fresh(Repr - old(Repr))
      ensures Chained() && capacity == old(capacity) + baseSize
      ensures old(Bytes()) <= Bytes()
    {
      n := new Node(baseSize);
      last.next := n;
      chain := chain + [n];
      capacity := capacity + baseSize;
      blocks := blocks + [n.ptr[..]];
      Repr := Repr + {n, n.ptr};
      assert blocks[..|blocks| - 1] == old(blocks);
    }

    method Write(buf: seq<Byte>)
      requires Valid()
      modifies Repr
      ensures Valid() && fresh(Repr - old(Repr))
      ensures position == old(position) + |buf| && littleEndian == old(littleEndian)
      ensures size == if position > old(size) then position else old(size)
      ensures capacity == GrownCapacity(baseSize, old(capacity), old(position), |buf|)
      ensures Overwrote(old(Bytes()), Bytes(), old(position), buf)
    {
      BytesLength();
      if |buf| == 0 {
        return;
      }
      AddCapacity(|buf|);
      BytesLength();
      ghost var grown := Bytes();
      FillFrom(buf);
      if position > size {
        size := position;
      }
      SpliceOverwrites(old(Bytes()), grown, old(position), buf);
    }

    /** The copying loop of `write`, once the capacity is there. */
    method FillFrom(buf: seq<Byte>)
      requires Chained() && CursorAt(position, cur) && 0 < |buf| <= capacity - position
      modifies this`position, this`cur, this`blocks, set n: Node | n in chain :: n.ptr
      ensures Chained() && CursorAt(position, cur) && position == old(position) + |buf|
      ensures old(position) + |buf| <= |old(Bytes())|
      ensures Bytes() == Splice(old(Bytes()), old(position), buf)
    {
      BytesLength();
      BlockBelow(position, |chain|, baseSize);
      ghost var start := Bytes();
      var npos := Offset();
      var ncap := cur.size - npos;
      var bpos: nat, left: nat := 0, |buf|;
      while left > 0
        invariant Chained() && bpos + left == |buf| && position == old(position) + bpos
        invariant CursorAt(position, cur)
        invariant left > 0 ==> npos == OffsetOf(position, baseSize) && ncap == baseSize - npos
        invariant Bytes() == Splice(start, old(position), buf[..bpos])
        decreases left
      {
        var n := if ncap >= left then left else ncap;
        CopyChunk(npos, buf, bpos, n, start);
        bpos := bpos + n;
        left := left - n;
        if left > 0 {
          ncap := cur.size;
          npos := 0;
        }
      }
      assert buf[..bpos] == buf;
    }

    /** The chunk `buf[bpos..bpos + n]`, when the bytes before it are already copied. */
    method CopyChunk(npos: nat, buf: seq<Byte>, bpos: nat, n: nat, ghost start: seq<Byte>)
      requires Chained() && CursorAt(position, cur) && position < capacity && bpos + n <= |buf|
      requires npos == OffsetOf(position, baseSize) && npos + n <= baseSize
      requires bpos <= position && |start| == capacity
      requires Bytes() == Splice(start, position - bpos, buf[..bpos])
      modifies this`position, this`cur, this`blocks, set n: Node | n in chain :: n.ptr
      ensures Chained() && CursorAt(position, cur) && position == old(position) + n <= capacity
      ensures position < capacity ==> cur != null && cur.size == baseSize
      ensures npos + n == baseSize ==> OffsetOf(position, baseSize) == 0
      ensures Bytes() == Splice(start, old(position) - bpos, buf[..bpos + n])
    {
      BytesLength();
      NextCursor(position, cur, n);
      PutChunk(npos, buf[bpos..bpos + n]);
      SpliceMore(start, old(position) - bpos, buf, bpos, n);
    }

    /** One round of the copying loop: the bytes go to the cursor, which moves on to the next block
        when this one is used up. */
    method PutChunk(npos: nat, d: seq<Byte>)
      requires Chained() && CursorAt(position, cur) && position < capacity
      requires npos == OffsetOf(position, baseSize) && npos + |d| <= baseSize
      modifies this`position, this`cur, this`blocks, set n: Node | n in chain :: n.ptr
      ensures Chained() && CursorAt(position, cur) && position == old(position) + |d|
      ensures old(position) + |d| <= |old(Bytes())|
      ensures Bytes() == Splice(old(Bytes()), old(position), d)
    {
      NextCursor(position, cur, |d|);
      StoreHere(npos, d);
      if cur.size == npos + |d| {
        cur := cur.next;
      }
      position := position + |d|;
    }

    method Read(n: nat) returns (r: ReadResult)
      requires Valid()
      modifies this`position, this`cur
      ensures Valid()
      ensures r == OutOfRange <==> n > old(ReadSize())
      ensures r == NullCursor <==> n == 0 && old(position) == capacity
      ensures r.Data? ==> old(position) + n <= |Bytes()| && r.bytes == Bytes()[old(position)..old(position) + n]
      ensures position == old(position) + if r.Data? then n else 0
    {
      BytesLength();
      if n > size - position {
        return OutOfRange;
      }
      if cur == null {
        // m_cur->size is read before `size` is looked at
        BlockBelow(position, |chain|, baseSize);
        return NullCursor;
      }
      BlockBelow(position, |chain|, baseSize);
      var data := ReadOut(n);
      return Data(data);
    }

    /** The copying loop of `read`, once the length is checked. */
    method ReadOut(n: nat) returns (data: seq<Byte>)
      requires Chained() && CursorAt(position, cur) && cur != null && n <= capacity - position
      modifies this`position, this`cur
      ensures CursorAt(position, cur) && position == old(position) + n <= |Bytes()|
      ensures data == Bytes()[old(position)..position]
    {
      BytesLength();
      BlockBelow(position, |chain|, baseSize);
      var npos := Offset();
      var ncap := cur.size - npos;
      data := [];
      var left: nat := n;
      while left > 0
        invariant |data| + left == n && position == old(position) + |data| && CursorAt(position, cur)
        invariant left > 0 ==> npos == OffsetOf(position, baseSize) && ncap == baseSize - npos
        invariant data == Bytes()[old(position)..position]
        decreases left
      {
        var m := if ncap >= left then left else ncap;
        ghost var p := position;
        var chunk := GetChunk(npos, m);
        SliceJoin(Bytes(), old(position), p, position);
        data := data + chunk;
        left := left - m;
        if left > 0 {
          ncap := cur.size;
          npos := 0;
        }
      }
    }

    /** What stands at the cursor in the current block is what stands there in the flat contents. */
    lemma ChunkBytes(n: nat)
      requires Chained() && CursorAt(position, cur) && cur != null && OffsetOf(position, baseSize) + n <= baseSize
      ensures position + n <= |Bytes()| && cur.ptr.Length == baseSize
      ensures Bytes()[position..position + n]
           == cur.ptr[OffsetOf(position, baseSize)..OffsetOf(position, baseSize) + n]
    {
      BytesLength();
      Located(position, baseSize);
      var k, o := BlockOf(position, baseSize), OffsetOf(position, baseSize);
      FlattenSlice(blocks, baseSize, k, o, n);
      assert blocks[k][o..o + n] == cur.ptr[o..o + n];
    }

    /** One round of the reading loop. */
    method GetChunk(npos: nat, n: nat) returns (d: seq<Byte>)
      requires Chained() && CursorAt(position, cur) && position < capacity
      requires npos == OffsetOf(position, baseSize) && npos + n <= baseSize
      modifies this`position, this`cur
      ensures CursorAt(position, cur) && position == old(position) + n <= capacity
      ensures position < capacity ==> cur != null && cur.size == baseSize
      ensures npos + n == baseSize ==> OffsetOf(position, baseSize) == 0
      ensures position <= |Bytes()| && d == Bytes()[old(position)..position]
    {
      NextCursor(position, cur, n);
      ChunkBytes(n);
      d := cur.ptr[npos..npos + n];
      if cur.size == npos + n {
        cur := cur.next;
      }
      position := position + n;
    }

    /** Fails exactly beyond the capacity; otherwise moves the cursor, and the size up to it. */
    method SetPosition(v: nat) returns (ok: bool)
      requires Valid()
      modifies this`position, this`size, this`cur
      ensures Valid()
      ensures ok <==> v <= capacity
      ensures ok ==> position == v && size == if v > old(size) then v else old(size)
      ensures !ok ==> position == old(position) && size == old(size)
    {
      if v > capacity {
        return false;
      }
      position := v;
      if position > size {
        size := position;
      }
      cur := Seek(v);
      return true;
    }

    /** The walk of `setPosition` to the block of position `v`. */
    method Seek(v: nat) returns (c: Node?)
      requires Chained() && v <= capacity
      ensures CursorAt(v, c)
    {
      c := root;
      var rest := v;
      ghost var k := 0;
      while rest > c.size
        invariant k < |chain| && c == chain[k] && rest + Span(k, baseSize) == v && 0 <= rest
        decreases |chain| - k
      {
        assert Span(k + 1, baseSize) == Span(k, baseSize) + baseSize;
        assert chain[k].next == NodeAt(k + 1);
        rest := rest - c.size;
        c := c.next;
        k := k + 1;
      }
      if rest == c.size {
        assert chain[k].next == NodeAt(k + 1);
        c := c.next;
        Locate(k + 1, 0, baseSize);
      } else {
        Locate(k, rest, baseSize);
      }
    }

    /** Back to one block, whose memory is kept. */
    method Clear()
      requires Valid()
      modifies this, root`next
      ensures Valid() && Repr <= old(Repr)
      ensures position == 0 && size == 0 && capacity == baseSize && littleEndian == old(littleEndian)
      ensures Bytes() <= old(Bytes())
    {
      BytesLength();
      FlattenBlock(blocks, baseSize, 0);
      position, size, capacity := 0, 0, baseSize;
      // the nodes that the source deletes while walking from here are simply dropped
      cur := root;
      root.next := null;
      chain, blocks := [root], [blocks[0]];
      assert Flatten([]) == [] && blocks[..0] == [];
      assert Span(1, baseSize) == baseSize;
    }

    /** The gather/scatter list for the `n` bytes from the cursor on. */
    method Iovecs(n: nat) returns (iovs: seq<Iovec>)
      requires Valid() && 0 < n <= capacity - position
      ensures Covers(chain, baseSize, iovs, position, n)
    {
      BlockBelow(position, |chain|, baseSize);
      var npos := Offset();
      var ncap := cur.size - npos;
      iovs := [];
      var c, left: nat := cur, n;
      ghost var p := position;
      while left > 0
        invariant p + left == position + n && Covers(chain, baseSize, iovs, position, p - position)
        invariant left > 0 ==> npos == OffsetOf(p, baseSize) && ncap == baseSize - npos && CursorAt(p, c)
        decreases left
      {
        var m := if ncap >= left then left else ncap;
        NextCursor(p, c, m);
        var v := Iovec(c.ptr, npos, m);
        CoversMore(chain, baseSize, iovs, position, p - position, v);
        iovs := iovs + [v];
        left := left - m;
        p := p + m;
        if left > 0 {
          c := c.next;
          ncap := c.size;
          npos := 0;
        }
      }
    }

    method GetReadBuffers(len: nat) returns (iovs: seq<Iovec>, n: nat)
      requires Valid()
      ensures n == if len > ReadSize() then ReadSize() else len
      ensures n == 0 ==> iovs == []
      ensures n > 0 ==> Covers(chain, baseSize, iovs, position, n)
    {
      n := if len > size - position then size - position else len;
      if n == 0 {
        return [], 0;
      }
      iovs := Iovecs(n);
    }

    method GetWriteBuffers(len: nat) returns (iovs: seq<Iovec>, n: nat)
      requires Valid()
      modifies Repr
      ensures Valid() && fresh(Repr - old(Repr))
      ensures position == old(position) && size == old(size) && littleEndian == old(littleEndian)
      ensures n == len && len <= capacity - position
      ensures capacity == GrownCapacity(baseSize, old(capacity), old(position), len)
      ensures old(Bytes()) <= Bytes()
      ensures len == 0 ==> iovs == []
      ensures len > 0 ==> Covers(chain, baseSize, iovs, position, len)
    {
      if len == 0 {
        return [], 0;
      }
      AddCapacity(len);
      iovs := Iovecs(len);
      n := len;
    }
  }

  /** `memcpy` into block `k` of `ba`: the flat contents are spliced at the block's place. */
  method Store(buf: array<Byte>, o: nat, d: seq<Byte>, ghost ba: ByteArray, ghost k: nat)
    requires ba.Chained() && k < |ba.chain| && buf == ba.chain[k].ptr && o + |d| <= ba.baseSize
    modifies ba`blocks, buf
    ensures ba.Chained()
    ensures Span(k, ba.baseSize) + o + |d| <= |old(ba.Bytes())|
    ensures ba.Bytes() == Splice(old(ba.Bytes()), Span(k, ba.baseSize) + o, d)
  {
    ba.BytesLength();
    FlattenStore(ba.blocks, ba.baseSize, k, o, d);
    Memcpy(buf, o, d);
    ba.blocks := ba.blocks[k := Splice(ba.blocks[k], o, d)];
  }

  /** `v` is the stretch of one block that starts at flat position `p`. */
  ghost predicate Piece(nodes: seq<Node>, base: nat, v: Iovec, p: nat)
    requires base > 0
  {
    && BlockOf(p, base) < |nodes|
    && v.buf == nodes[BlockOf(p, base)].ptr
    && v.off == OffsetOf(p, base)
    && 0 < v.len <= base - v.off
  }

  /** The list names exactly the flat positions `p` to `p + n`, in order. */
  ghost predicate Covers(nodes: seq<Node>, base: nat, iovs: seq<Iovec>, p: nat, n: nat)
    decreases |iovs|
  {
    base > 0 &&
    if iovs == [] then n == 0
    else
      && Piece(nodes, base, iovs[0], p)
      && iovs[0].len <= n
      && Covers(nodes, base, iovs[1..], p + iovs[0].len, n - iovs[0].len)
  }

  lemma {:induction false} CoversMore(nodes: seq<Node>, base: nat, iovs: seq<Iovec>, p: nat, n: nat, v: Iovec)
    requires Covers(nodes, base, iovs, p, n) && Piece(nodes, base, v, p + n)
    ensures Covers(nodes, base, iovs + [v], p, n + v.len)
    decreases |iovs|
  {
    if iovs == [] {
      assert (iovs + [v])[1..] == [];
    } else {
      CoversMore(nodes, base, iovs[1..], p + iovs[0].len, n - iovs[0].len, v);
      assert (iovs + [v])[1..] == iovs[1..] + [v];
    }
  }

  /** Capacity after `addCapacity(n)`: enough whole blocks, and no block more than needed. */
  ghost function GrownCapacity(base: nat, capacity: nat, position: nat, n: nat): nat
    requires base > 0 && position <= capacity
  {
    if n <= capacity - position then capacity
    else capacity + Span(CeilDiv(n - (capacity - position), base), base)
  }
}
