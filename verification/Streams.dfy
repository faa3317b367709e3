/** Fixed-size transfers of a `ByteArray` over a socket that sends and receives in arbitrary pieces
    (src/streams/stream.cpp, src/streams/socket_stream.cpp). */
module Streams {
  import opened Blocks
  import opened ByteArrays

  predicate InBounds(iovs: seq<Iovec>) {
    forall i :: 0 <= i < |iovs| ==> iovs[i].off + iovs[i].len <= iovs[i].buf.Length
  }

  /** The bytes that a gather list names, in order. */
  function Gather(iovs: seq<Iovec>): (d: seq<Byte>)
    requires InBounds(iovs)
    reads set v | v in iovs :: v.buf
    ensures |d| == TotalLength(iovs)
  {
    if iovs == [] then [] else iovs[0].buf[iovs[0].off..iovs[0].off + iovs[0].len] + Gather(iovs[1..])
  }

  function TotalLength(iovs: seq<Iovec>): nat {
    if iovs == [] then 0 else iovs[0].len + TotalLength(iovs[1..])
  }

  lemma {:induction false} CoversLength(nodes: seq<Node>, base: nat, iovs: seq<Iovec>, p: nat, n: nat)
    requires Covers(nodes, base, iovs, p, n)
    ensures TotalLength(iovs) == n
    decreases |iovs|
  {
    if iovs != [] {
      CoversLength(nodes, base, iovs[1..], p + iovs[0].len, n - iovs[0].len);
    }
  }

  lemma PieceBytes(ba: ByteArray, v: Iovec, p: nat)
    requires ba.Chained() && Piece(ba.chain, ba.baseSize, v, p)
    ensures v.off + v.len <= v.buf.Length && p + v.len <= |ba.Bytes()|
    ensures v.buf[v.off..v.off + v.len] == ba.Bytes()[p..p + v.len]
  {
    var b, k := ba.baseSize, BlockOf(p, ba.baseSize);
    ba.BytesLength();
    Located(p, b);
    FlattenSlice(ba.blocks, b, k, v.off, v.len);
    assert v.buf[v.off..v.off + v.len] == ba.blocks[k][v.off..v.off + v.len];
  }

  /** A list that covers a range gathers exactly the bytes of that range, whatever the block size. */
  lemma {:induction false} GatherCovered(ba: ByteArray, iovs: seq<Iovec>, p: nat, n: nat)
    requires ba.Chained() && Covers(ba.chain, ba.baseSize, iovs, p, n) && p + n <= ba.capacity
    ensures InBounds(iovs) && p + n <= |ba.Bytes()|
    ensures Gather(iovs) == ba.Bytes()[p..p + n]
    decreases |iovs|
  {
    ba.BytesLength();
    if iovs != [] {
      var v := iovs[0];
      PieceBytes(ba, v, p);
      GatherCovered(ba, iovs[1..], p + v.len, n - v.len);
      GatherCons(iovs);
      SliceJoin(ba.Bytes(), p, p + v.len, p + n);
    }
  }

  lemma GatherCons(iovs: seq<Iovec>)
    requires iovs != [] && iovs[0].off + iovs[0].len <= iovs[0].buf.Length && InBounds(iovs[1..])
    ensures InBounds(iovs)
    ensures Gather(iovs) == iovs[0].buf[iovs[0].off..iovs[0].off + iovs[0].len] + Gather(iovs[1..])
  {
    forall i | 0 <= i < |iovs| ensures iovs[i].off + iovs[i].len <= iovs[i].buf.Length {
      assert i > 0 ==> iovs[i] == iovs[1..][i - 1];
    }
  }

  lemma SlicePrefix(s: seq<Byte>, p: nat, n: nat, k: nat)
    requires p + n <= |s| && k <= n
    ensures s[p..p + n][..k] == s[p..p + k]
  {
  }

  /** What recvmsg does with the bytes it got: fill the entries of the list one after the other. */
  method Scatter(iovs: seq<Iovec>, data: seq<Byte>, ghost ba: ByteArray, ghost p: nat, ghost n: nat)
    requires ba.Chained() && Covers(ba.chain, ba.baseSize, iovs, p, n) && p + n <= ba.capacity
    requires |data| <= n
    modifies ba`blocks, set v | v in iovs :: v.buf
    ensures ba.Chained() && p + n <= |old(ba.Bytes())|
    ensures ba.Bytes() == Splice(old(ba.Bytes()), p, data)
    decreases |iovs|
  {
    ba.BytesLength();
    if |data| == 0 {
      return;
    }
    var v := iovs[0];
    if |data| <= v.len {
      Fill(v, data, ba, p);
    } else {
      Fill(v, data[..v.len], ba, p);
      Scatter(iovs[1..], data[v.len..], ba, p + v.len, n - v.len);
      SpliceSplice(old(ba.Bytes()), p, data[..v.len], data[v.len..]);
      assert data[..v.len] + data[v.len..] == data;
    }
  }

  /** Bytes into one entry of the list, from its beginning. */
  method Fill(v: Iovec, data: seq<Byte>, ghost ba: ByteArray, ghost p: nat)
    requires ba.Chained() && Piece(ba.chain, ba.baseSize, v, p) && |data| <= v.len
    modifies ba`blocks, v.buf
    ensures ba.Chained() && p + |data| <= |old(ba.Bytes())|
    ensures ba.Bytes() == Splice(old(ba.Bytes()), p, data)
  {
    Located(p, ba.baseSize);
    Store(v.buf, v.off, data, ba, BlockOf(p, ba.baseSize));
  }

  /** One use of a socket: it was found not connected, or it was asked to move so many bytes, and answered. */
  datatype Part = Down | Asked(room: nat, rt: int)

  function Answer(p: Part): int {
    if p.Down? then -1 else p.rt
  }

  function Least(a: nat, b: nat): nat {
    if a <= b then a else b
  }

  predicate AllWent(parts: seq<Part>) {
    forall i :: 0 <= i < |parts| ==> Answer(parts[i]) > 0
  }

  /** The bytes that the parts moved. */
  function MovedBy(parts: seq<Part>): nat {
    if parts == [] then 0
    else
      var last := parts[|parts| - 1];
      MovedBy(parts[..|parts| - 1]) + if Answer(last) > 0 then Answer(last) else 0
  }

  /** Each part asks for all that is left, when `length` bytes are wanted and `most` are to be had. */
  ghost predicate AsksForRest(parts: seq<Part>, length: nat, most: nat) {
    forall i :: 0 <= i < |parts| ==> parts[i].Asked? ==> parts[i].room == Least(length, most) - MovedBy(parts[..i])
  }

  /** What a fixed-size transfer of `length` bytes does with its socket: it goes on after a part that moved something,
      and ends with the first one that did not, whose answer it gives. */
  ghost predicate Transferred(before: seq<Part>, after: seq<Part>, length: nat, most: nat, moved: nat, r: int) {
    before <= after &&
    var parts := after[|before|..];
    && MovedBy(parts) == moved && AsksForRest(parts, length, most)
    && (forall i :: 0 <= i < |parts| - 1 ==> Answer(parts[i]) > 0)
    && (r == length <==> AllWent(parts))
    && (r != length ==> parts != [] && r == Answer(parts[|parts| - 1]))
  }

  /** All parts so far have moved something. */
  ghost predicate Transferring(before: seq<Part>, after: seq<Part>, length: nat, most: nat, left: nat) {
    before <= after &&
    var parts := after[|before|..];
    left + MovedBy(parts) == length && AsksForRest(parts, length, most) && AllWent(parts)
  }

  /** The socket has been used once more. */
  ghost predicate UsedOnce(before: seq<Part>, after: seq<Part>, room: nat, rt: int) {
    && |after| == |before| + 1 && before <= after && Answer(after[|before|]) == rt
    && (after[|before|].Asked? ==> after[|before|].room == room)
  }

  lemma NothingYet(parts: seq<Part>, length: nat, most: nat)
    ensures Transferring(parts, parts, length, most, length)
  {
  }

  lemma AllDone(before: seq<Part>, after: seq<Part>, length: nat, most: nat)
    requires Transferring(before, after, length, most, 0)
    ensures Transferred(before, after, length, most, length, length)
  {
  }

  lemma OnePart(before: seq<Part>, mid: seq<Part>, after: seq<Part>, length: nat, most: nat, left: nat, rt: int)
    requires Transferring(before, mid, length, most, left) && 0 < left && rt <= left
    requires length - left <= most && UsedOnce(mid, after, Least(left, most - (length - left)), rt)
    ensures rt > 0 ==> Transferring(before, after, length, most, left - rt)
    ensures rt <= 0 ==> Transferred(before, after, length, most, length - left, rt)
  {
    var parts, more := mid[|before|..], after[|before|..];
    assert more[..|parts|] == parts && more[|parts|] == after[|mid|];
    forall i | 0 <= i < |more| ensures more[..i] == parts[..i] && (i < |parts| ==> more[i] == parts[i]) {
    }
    assert more[..|parts|] == parts[..|parts|] == parts;
  }

  /** One end of a connection: `sent` is what this end has put on the wire, `inbox` everything the peer will
      ever put on it, of which the first `taken` bytes have been received; `parts` records its uses. */
  class Socket {
    var sent: seq<Byte>
    var inbox: seq<Byte>
    var taken: nat
    ghost var parts: seq<Part>

    ghost predicate Valid()
      reads this
    {
      taken <= |inbox|
    }

    method IsConnected() returns (b: bool)
      modifies this`parts
      ensures parts == old(parts) + if b then [] else [Down]
    {
      b := *;
      parts := parts + if b then [] else [Down];
    }

    /** sendmsg: any prefix of the gathered bytes, or a failure. */
    method Send(iovs: seq<Iovec>) returns (rt: int)
      requires InBounds(iovs)
      modifies this`sent, this`parts
      ensures rt <= TotalLength(iovs) && parts == old(parts) + [Asked(TotalLength(iovs), rt)]
      ensures sent == old(sent) + if rt > 0 then old(Gather(iovs))[..rt] else []
    {
      rt := *;
      if rt > TotalLength(iovs) {
        rt := TotalLength(iovs);
      }
      if rt > 0 {
        sent := sent + Gather(iovs)[..rt];
      }
      parts := parts + [Asked(TotalLength(iovs), rt)];
    }

    /** recvmsg: any prefix of what is still to come, scattered over the list in order, or a failure. */
    method Recv(iovs: seq<Iovec>, ghost ba: ByteArray, ghost p: nat, ghost n: nat) returns (rt: int)
      requires Valid() && ba.Chained() && Covers(ba.chain, ba.baseSize, iovs, p, n) && p + n <= ba.capacity
      requires this !in ba.Repr
      modifies this`taken, this`parts, ba`blocks, set v | v in iovs :: v.buf
      ensures Valid() && ba.Chained() && parts == old(parts) + [Asked(n, rt)]
      ensures rt <= n && taken == old(taken) + if rt > 0 then rt else 0
      ensures p + n <= |old(ba.Bytes())|
      ensures ba.Bytes() == Splice(old(ba.Bytes()), p, inbox[old(taken)..taken])
    {
      ba.BytesLength();
      CoversLength(ba.chain, ba.baseSize, iovs, p, n);
      rt := *;
      if rt > TotalLength(iovs) || rt > |inbox| - taken {
        rt := -1;
      }
      if rt > 0 {
        Scatter(iovs, inbox[taken..taken + rt], ba, p, n);
        taken := taken + rt;
      }
      parts := parts + [Asked(n, rt)];
    }
  }

  /** The bufs of a covering list belong to the array. */
  lemma {:induction false} CoveredBuffers(nodes: seq<Node>, base: nat, iovs: seq<Iovec>, p: nat, n: nat)
    requires Covers(nodes, base, iovs, p, n)
    ensures forall v :: v in iovs ==> exists k :: 0 <= k < |nodes| && v.buf == nodes[k].ptr
    decreases |iovs|
  {
    if iovs != [] {
      CoveredBuffers(nodes, base, iovs[1..], p + iovs[0].len, n - iovs[0].len);
    }
  }

  class SocketStream {
    const socket: Socket

    constructor (s: Socket)
      ensures socket == s
    {
      socket := s;
    }

    /** SocketStream::write(ba, length): one partial send of at most the readable bytes, and the cursor moves by as
        much. */
    method Write(ba: ByteArray, length: nat) returns (rt: int)
      requires ba.Valid() && socket !in ba.Repr
      modifies socket`sent, socket`parts, ba`position, ba`size, ba`cur
      ensures ba.Valid() && rt <= length && rt <= old(ba.ReadSize())
      ensures UsedOnce(old(socket.parts), socket.parts, Least(length, old(ba.ReadSize())), rt)
      ensures ba.size == old(ba.size) && ba.position == old(ba.position) + if rt > 0 then rt else 0
      ensures ba.position <= |ba.Bytes()|
      ensures socket.sent == old(socket.sent) + ba.Bytes()[old(ba.position)..ba.position]
    {
      ba.BytesLength();
      var up := socket.IsConnected();
      if !up {
        return -1;
      }
      rt := SendFrom(ba, length);
      if rt > 0 {
        var ok := ba.SetPosition(ba.position + rt);
      }
    }

    method SendFrom(ba: ByteArray, length: nat) returns (rt: int)
      requires ba.Valid() && socket !in ba.Repr
      modifies socket`sent, socket`parts
      ensures rt <= length && rt <= ba.ReadSize() && ba.size <= |ba.Bytes()|
      ensures socket.parts == old(socket.parts) + [Asked(Least(length, ba.ReadSize()), rt)]
      ensures socket.sent == old(socket.sent) + ba.Bytes()[ba.position..ba.position + if rt > 0 then rt else 0]
    {
      var iovs, n := ba.GetReadBuffers(length);
      assert Covers(ba.chain, ba.baseSize, iovs, ba.position, n);
      GatherCovered(ba, iovs, ba.position, n);
      ba.BytesLength();
      rt := socket.Send(iovs);
      if rt > 0 {
        SlicePrefix(ba.Bytes(), ba.position, n, rt);
      }
    }

    /** SocketStream::read(ba, length): one partial receive into the write buffers. */
    method Read(ba: ByteArray, length: nat) returns (rt: int)
      requires ba.Valid() && socket.Valid() && socket !in ba.Repr
      modifies socket`taken, socket`parts, ba.Repr
      ensures ba.Valid() && socket.Valid() && fresh(ba.Repr - old(ba.Repr))
      ensures rt <= length && socket.taken == old(socket.taken) + if rt > 0 then rt else 0
      ensures UsedOnce(old(socket.parts), socket.parts, length, rt)
      ensures ba.position == old(ba.position) + if rt > 0 then rt else 0
      ensures ba.size == if ba.position > old(ba.size) then ba.position else old(ba.size)
      ensures rt > 0 ==> ba.capacity == GrownCapacity(ba.baseSize, old(ba.capacity), old(ba.position), length)
      ensures Overwrote(old(ba.Bytes()), ba.Bytes(), old(ba.position), socket.inbox[old(socket.taken)..socket.taken])
    {
      ba.BytesLength();
      var up := socket.IsConnected();
      if !up {
        return -1;
      }
      rt := RecvInto(ba, length);
      if rt > 0 {
        var ok := ba.SetPosition(ba.position + rt);
      }
    }

    method RecvInto(ba: ByteArray, length: nat) returns (rt: int)
      requires ba.Valid() && socket.Valid() && socket !in ba.Repr
      modifies socket`taken, socket`parts, ba.Repr
      ensures ba.Valid() && socket.Valid() && fresh(ba.Repr - old(ba.Repr))
      ensures rt <= length <= ba.capacity - ba.position && socket.parts == old(socket.parts) + [Asked(length, rt)]
      ensures socket.taken == old(socket.taken) + if rt > 0 then rt else 0
      ensures ba.position == old(ba.position) && ba.size == old(ba.size)
      ensures ba.capacity == GrownCapacity(ba.baseSize, old(ba.capacity), old(ba.position), length)
      ensures Overwrote(old(ba.Bytes()), ba.Bytes(), old(ba.position), socket.inbox[old(socket.taken)..socket.taken])
    {
      ba.BytesLength();
      var iovs, n := ba.GetWriteBuffers(length);
      assert Covers(ba.chain, ba.baseSize, iovs, ba.position, length);
      CoveredBuffers(ba.chain, ba.baseSize, iovs, ba.position, length);
      ba.BytesLength();
      ghost var grown := ba.Bytes();
      rt := socket.Recv(iovs, ba, ba.position, length);
      SpliceOverwrites(old(ba.Bytes()), grown, old(ba.position), socket.inbox[old(socket.taken)..socket.taken]);
    }

    /** Stream::writeFixSize(ba, length).  Whatever the pieces, the bytes on the wire are the bytes the cursor
        passed, in order; on success they are exactly the next `length` ones, and there is none when fewer are
        readable.  The loop goes on after every partial send, and fails exactly when one of them moves nothing, with
        the answer of that one. */
    method WriteFixSize(ba: ByteArray, length: nat) returns (r: int)
      requires ba.Valid() && socket !in ba.Repr
      modifies socket`sent, socket`parts, ba`position, ba`size, ba`cur
      ensures ba.Valid() && ba.size == old(ba.size)
      ensures old(ba.position) <= ba.position <= old(ba.position) + length
      ensures ba.position <= |ba.Bytes()| && (r == length ==> length <= old(ba.ReadSize()))
      ensures socket.sent == old(socket.sent) + ba.Bytes()[old(ba.position)..ba.position]
      ensures if ba.position == old(ba.position) + length then r == length else r <= 0
      ensures Transferred(old(socket.parts), socket.parts, length, old(ba.ReadSize()),
                          ba.position - old(ba.position), r)
    {
      ba.BytesLength();
      var left := length;
      NothingYet(socket.parts, length, ba.ReadSize());
      while left > 0
        invariant ba.Valid() && ba.size == old(ba.size)
        invariant 0 <= left <= length && ba.position + left == old(ba.position) + length
        invariant Transferring(old(socket.parts), socket.parts, length, old(ba.ReadSize()), left)
        invariant socket.sent == old(socket.sent) + ba.Bytes()[old(ba.position)..ba.position]
      {
        ghost var p := ba.position;
        var len := WritePart(ba, left, length, old(socket.parts), old(ba.ReadSize()));
        SliceJoin(ba.Bytes(), old(ba.position), p, ba.position);
        if len <= 0 {
          return len;
        }
        left := left - len;
      }
      AllDone(old(socket.parts), socket.parts, length, old(ba.ReadSize()));
      return length;
    }

    /** The partial send of one round of that loop. */
    method WritePart(ba: ByteArray, left: nat, ghost length: nat, ghost before: seq<Part>, ghost most: nat)
      returns (len: int)
      requires ba.Valid() && socket !in ba.Repr && 0 < left <= length
      requires Transferring(before, socket.parts, length, most, left) && ba.ReadSize() + (length - left) == most
      modifies socket`sent, socket`parts, ba`position, ba`size, ba`cur
      ensures ba.Valid() && ba.size == old(ba.size) && len <= left
      ensures ba.position == old(ba.position) + if len > 0 then len else 0
      ensures len > 0 ==> Transferring(before, socket.parts, length, most, left - len)
      ensures len <= 0 ==> Transferred(before, socket.parts, length, most, length - left, len)
      ensures ba.position <= |ba.Bytes()|
      ensures socket.sent == old(socket.sent) + ba.Bytes()[old(ba.position)..ba.position]
    {
      ghost var mid := socket.parts;
      len := Write(ba, left);
      OnePart(before, mid, socket.parts, length, most, left, len);
    }

    /** Stream::readFixSize(ba, length).  On success the array is as after one `Write` of the received bytes:
        same contents, position, size and capacity.  The loop goes on and ends as in `WriteFixSize`. */
    method ReadFixSize(ba: ByteArray, length: nat) returns (r: int)
      requires ba.Valid() && socket.Valid() && socket !in ba.Repr
      modifies socket`taken, socket`parts, ba.Repr
      ensures ba.Valid() && socket.Valid() && fresh(ba.Repr - old(ba.Repr))
      ensures old(socket.taken) <= socket.taken <= old(socket.taken) + length
      ensures if socket.taken == old(socket.taken) + length then r == length else r <= 0
      ensures Transferred(old(socket.parts), socket.parts, length, length, socket.taken - old(socket.taken), r)
      ensures ba.position == old(ba.position) + (socket.taken - old(socket.taken))
      ensures ba.size == if ba.position > old(ba.size) then ba.position else old(ba.size)
      ensures r == length ==> ba.capacity == GrownCapacity(ba.baseSize, old(ba.capacity), old(ba.position), length)
      ensures Overwrote(old(ba.Bytes()), ba.Bytes(), old(ba.position), socket.inbox[old(socket.taken)..socket.taken])
    {
      ba.BytesLength();
      var left := length;
      ghost var p0, t0, inbox := ba.position, socket.taken, socket.inbox;
      NothingYet(socket.parts, length, length);
      while left > 0
        invariant socket.Valid() && socket !in ba.Repr && fresh(ba.Repr - old(ba.Repr))
        invariant 0 <= left <= length && socket.taken + left == t0 + length
        invariant Transferring(old(socket.parts), socket.parts, length, length, left)
        invariant ba.capacity == if left == length then old(ba.capacity)
                                 else GrownCapacity(ba.baseSize, old(ba.capacity), p0, length)
        invariant Received(ba, socket.taken, t0, inbox, t0, p0, old(ba.Bytes()), old(ba.size))
      {
        var len := ReadPart(ba, left, t0, inbox, p0, old(ba.Bytes()), old(ba.size), length, old(socket.parts));
        if len <= 0 {
          return len;
        }
        GrownEnough(ba.baseSize, old(ba.capacity), p0, length);
        left := left - len;
      }
      AllDone(old(socket.parts), socket.parts, length, length);
      return length;
    }

    /** The partial receive of one round of that loop. */
    method ReadPart(ba: ByteArray, left: nat, ghost t0: nat, ghost inbox: seq<Byte>, ghost p: nat,
                    ghost bytes: seq<Byte>, ghost size: nat, ghost length: nat, ghost before: seq<Part>)
      returns (len: int)
      requires socket.Valid() && socket !in ba.Repr && 0 < left <= length && inbox == socket.inbox
      requires Received(ba, socket.taken, t0, inbox, t0, p, bytes, size)
      requires Transferring(before, socket.parts, length, length, left)
      modifies socket`taken, socket`parts, ba.Repr
      ensures socket.Valid() && fresh(ba.Repr - old(ba.Repr)) && len <= left
      ensures socket.taken == old(socket.taken) + if len > 0 then len else 0
      ensures len > 0 ==> ba.capacity == GrownCapacity(ba.baseSize, old(ba.capacity), old(ba.position), left)
      ensures Received(ba, socket.taken, t0, inbox, t0, p, bytes, size)
      ensures len > 0 ==> Transferring(before, socket.parts, length, length, left - len)
      ensures len <= 0 ==> Transferred(before, socket.parts, length, length, length - left, len)
    {
      ghost var mid := socket.parts;
      len := RecvPart(ba, this, left, t0, inbox, t0, p, bytes, size);
      OnePart(before, mid, socket.parts, length, length, left, len);
    }
  }

  lemma GrownEnough(base: nat, capacity: nat, position: nat, n: nat)
    requires base > 0 && position <= capacity
    ensures position + n <= GrownCapacity(base, capacity, position, n)
  {
    if n > capacity - position {
      CeilDivCovers(n - (capacity - position), base);
    }
  }

  /** The peer's inbox, from `t0` on, holds the bytes of `src` from `pa` on. */
  ghost predicate Carries(peer: Socket, t0: nat, src: seq<Byte>, pa: nat)
    reads peer`inbox
  {
    t0 <= |peer.inbox| && pa + (|peer.inbox| - t0) <= |src| && peer.inbox[t0..] == src[pa..pa + (|peer.inbox| - t0)]
  }

  /** One round of the sending loop, with the wire: what is sent is what the peer will receive. */
  method SendPart(a: ByteArray, tx: SocketStream, peer: Socket, left: nat, ghost t0: nat, ghost pa: nat)
    returns (len: int)
    requires a.Valid() && {tx.socket, peer} !! a.Repr && tx.socket != peer
    requires Carries(peer, t0, a.Bytes(), pa) && a.position - pa == |peer.inbox| - t0
    modifies tx.socket`sent, tx.socket`parts, peer`inbox, a`position, a`size, a`cur
    ensures a.Valid() && a.size == old(a.size) && len <= left
    ensures UsedOnce(old(tx.socket.parts), tx.socket.parts, Least(left, old(a.ReadSize())), len)
    ensures a.position == old(a.position) + if len > 0 then len else 0
    ensures |old(peer.inbox)| <= |peer.inbox|
    ensures Carries(peer, t0, a.Bytes(), pa) && a.position - pa == |peer.inbox| - t0
  {
    var k := |tx.socket.sent|;
    len := tx.Write(a, left);
    peer.inbox := peer.inbox + tx.socket.sent[k..];
    assert tx.socket.sent[k..] == a.Bytes()[old(a.position)..a.position];
    SliceJoin(a.Bytes(), pa, old(a.position), a.position);
    assert peer.inbox[t0..] == old(peer.inbox)[t0..] + tx.socket.sent[k..];
  }

  /** The receiver's side of a transfer of `src` from `pa` on, after the bytes up to `taken`. */
  ghost predicate Received(b: ByteArray, taken: nat, t0: nat,
                           src: seq<Byte>, pa: nat, pb: nat, before: seq<Byte>, size0: nat)
    reads b, b.Repr
  {
    && b.Valid()
    && t0 <= taken && b.position == pb + (taken - t0)
    && b.size == (if b.position > size0 then b.position else size0)
    && pa + (taken - t0) <= |src|
    && Overwrote(before, b.Bytes(), pb, src[pa..pa + (taken - t0)])
  }

  lemma CarriedSlice(inbox: seq<Byte>, t0: nat, src: seq<Byte>, pa: nat, i: nat, j: nat)
    requires t0 <= |inbox| && pa + (|inbox| - t0) <= |src| && i <= j <= |inbox| - t0
    requires inbox[t0..] == src[pa..pa + (|inbox| - t0)]
    ensures inbox[t0 + i..t0 + j] == src[pa + i..pa + j]
  {
    var m := |inbox| - t0;
    SliceOfSlice(inbox, t0, m, i, j - i);
    SliceOfSlice(src, pa, m, i, j - i);
    assert inbox[t0..t0 + m] == inbox[t0..];
  }

  /** One round of the receiving loop. */
  method RecvPart(b: ByteArray, rx: SocketStream, left: nat,
                  ghost t0: nat, ghost src: seq<Byte>, ghost pa: nat,
                  ghost pb: nat, ghost before: seq<Byte>, ghost size0: nat)
    returns (len: int)
    requires rx.socket.Valid() && rx.socket !in b.Repr
    requires Carries(rx.socket, t0, src, pa) && Received(b, rx.socket.taken, t0, src, pa, pb, before, size0)
    modifies rx.socket`taken, rx.socket`parts, b.Repr
    ensures rx.socket.Valid() && fresh(b.Repr - old(b.Repr)) && len <= left
    ensures UsedOnce(old(rx.socket.parts), rx.socket.parts, left, len)
    ensures rx.socket.taken == old(rx.socket.taken) + if len > 0 then len else 0
    ensures len > 0 ==> b.capacity == GrownCapacity(b.baseSize, old(b.capacity), old(b.position), left)
    ensures Received(b, rx.socket.taken, t0, src, pa, pb, before, size0)
  {
    ghost var mid, t, inbox := b.Bytes(), rx.socket.taken, rx.socket.inbox;
    len := rx.Read(b, left);
    ReceivedMore(before, mid, b.Bytes(), pb, inbox, t0, src, pa, t - t0, rx.socket.taken - t0);
  }

  /** The receiver holds i bytes of the source and takes those up to j from its inbox. */
  lemma ReceivedMore(before: seq<Byte>, mid: seq<Byte>, after: seq<Byte>, pb: nat,
                     inbox: seq<Byte>, t0: nat, src: seq<Byte>, pa: nat, i: nat, j: nat)
    requires t0 <= |inbox| && pa + (|inbox| - t0) <= |src| && i <= j <= |inbox| - t0
    requires inbox[t0..] == src[pa..pa + (|inbox| - t0)]
    requires Overwrote(before, mid, pb, src[pa..pa + i]) && Overwrote(mid, after, pb + i, inbox[t0 + i..t0 + j])
    ensures Overwrote(before, after, pb, src[pa..pa + j])
  {
    CarriedSlice(inbox, t0, src, pa, i, j);
    OverwroteTwice(before, mid, after, pb, src[pa..pa + i], src[pa + i..pa + j]);
    SliceJoin(src, pa, pa + i, pa + j);
  }

  /** What is fixed when a transfer starts. */
  datatype Start = Start(src: seq<Byte>, pa: nat, sizeA: nat, before: seq<Byte>, pb: nat, sizeB: nat, t0: nat)

  ghost predicate Midway(a: ByteArray, b: ByteArray, tx: Socket, rx: Socket, st: Start)
    reads a, a.Repr, b, b.Repr, rx
  {
    && a.Repr !! b.Repr && {tx, rx} !! (a.Repr + b.Repr) && tx != rx
    && a.Valid() && a.Bytes() == st.src && a.size == st.sizeA
    && rx.Valid()
    && Carries(rx, st.t0, st.src, st.pa) && a.position - st.pa == |rx.inbox| - st.t0
    && Received(b, rx.taken, st.t0, st.src, st.pa, st.pb, st.before, st.sizeB)
  }

  method SenderRound(a: ByteArray, b: ByteArray, tx: SocketStream, rx: SocketStream, left: nat,
                     ghost st: Start, ghost sends: seq<Part>)
    returns (len: int)
    requires Midway(a, b, tx.socket, rx.socket, st) && WentSince(sends, tx.socket.parts)
    modifies tx.socket`sent, tx.socket`parts, rx.socket`inbox, a`position, a`size, a`cur
    ensures Midway(a, b, tx.socket, rx.socket, st) && len <= left
    ensures sends <= tx.socket.parts && (WentSince(sends, tx.socket.parts) <==> len > 0)
    ensures a.position == old(a.position) + if len > 0 then len else 0
  {
    ghost var mid, room := tx.socket.parts, Least(left, a.ReadSize());
    len := SendPart(a, tx, rx.socket, left, st.t0, st.pa);
    WentOnceMore(sends, mid, tx.socket.parts, room, len);
  }

  method ReceiverRound(a: ByteArray, b: ByteArray, tx: SocketStream, rx: SocketStream, left: nat,
                       ghost st: Start, ghost receives: seq<Part>)
    returns (len: int)
    requires Midway(a, b, tx.socket, rx.socket, st) && WentSince(receives, rx.socket.parts)
    modifies rx.socket`taken, rx.socket`parts, b.Repr
    ensures Midway(a, b, tx.socket, rx.socket, st) && fresh(b.Repr - old(b.Repr)) && len <= left
    ensures receives <= rx.socket.parts && (WentSince(receives, rx.socket.parts) <==> len > 0)
    ensures rx.socket.taken == old(rx.socket.taken) + if len > 0 then len else 0
  {
    ghost var mid := rx.socket.parts;
    len := RecvPart(b, rx, left, st.t0, st.src, st.pa, st.pb, st.before, st.sizeB);
    WentOnceMore(receives, mid, rx.socket.parts, left, len);
  }

  /** Both ends together, in every interleaving of the two loops: whatever the block sizes and however the
      transfer is cut, if both sides complete then the sender's next `n` bytes stand at the receiver's cursor,
      and nothing else of the receiver has changed; and they complete exactly if every send and every receive moves
      something. */
  method Transfer(a: ByteArray, b: ByteArray, tx: SocketStream, rx: SocketStream, n: nat) returns (done: bool)
    requires a.Valid() && b.Valid() && a.Repr !! b.Repr
    requires {tx.socket, rx.socket} !! (a.Repr + b.Repr) && tx.socket != rx.socket
    requires rx.socket.taken == |rx.socket.inbox|
    modifies tx.socket, rx.socket, a`position, a`size, a`cur, b.Repr
    ensures a.Valid() && b.Valid() && (done ==> n <= old(a.ReadSize()) && old(a.position) + n <= |old(a.Bytes())|)
    ensures done ==> a.position == old(a.position) + n && b.position == old(b.position) + n
    ensures done ==> b.size == if b.position > old(b.size) then b.position else old(b.size)
    ensures done ==> Overwrote(old(b.Bytes()), b.Bytes(), old(b.position),
                               old(a.Bytes())[old(a.position)..old(a.position) + n])
    ensures EndedWell(old(tx.socket.parts), tx.socket.parts, old(rx.socket.parts), rx.socket.parts, done)
  {
    a.BytesLength();
    b.BytesLength();
    ghost var st := Start(a.Bytes(), a.position, a.size, b.Bytes(), b.position, b.size, rx.socket.taken);
    done := Pump(a, b, tx, rx, n, st);
  }

  /** The two loops, one round of either at a time, in any order. */
  method Pump(a: ByteArray, b: ByteArray, tx: SocketStream, rx: SocketStream, n: nat, ghost st: Start)
    returns (done: bool)
    requires Midway(a, b, tx.socket, rx.socket, st)
    modifies tx.socket, rx.socket, a`position, a`size, a`cur, b.Repr
    ensures Midway(a, b, tx.socket, rx.socket, st)
    ensures done ==> a.position == old(a.position) + n && rx.socket.taken == old(rx.socket.taken) + n
    ensures EndedWell(old(tx.socket.parts), tx.socket.parts, old(rx.socket.parts), rx.socket.parts, done)
  {
    var toSend, toRead := n, n;
    done := true;
    while done && (toSend > 0 || toRead > 0)
      invariant Midway(a, b, tx.socket, rx.socket, st) && fresh(b.Repr - old(b.Repr))
      invariant 0 <= toSend <= n && a.position + toSend == old(a.position) + n
      invariant 0 <= toRead <= n && rx.socket.taken + toRead == old(rx.socket.taken) + n
      invariant EndedWell(old(tx.socket.parts), tx.socket.parts, old(rx.socket.parts), rx.socket.parts, done)
      decreases done, toSend + toRead
    {
      var s, r := Round(a, b, tx, rx, toSend, toRead, st, old(tx.socket.parts), old(rx.socket.parts));
      toSend, toRead, done := toSend - s, toRead - r, s + r > 0;
    }
  }

  /** A transfer has ended well exactly when every use of either socket moved something. */
  ghost predicate EndedWell(sends: seq<Part>, sends': seq<Part>, receives: seq<Part>, receives': seq<Part>, done: bool)
  {
    && sends <= sends' && receives <= receives'
    && (done <==> WentSince(sends, sends') && WentSince(receives, receives'))
  }

  /** Every use of a socket since `before` has moved something. */
  predicate WentSince(before: seq<Part>, after: seq<Part>) {
    before <= after && AllWent(after[|before|..])
  }

  lemma WentOnceMore(before: seq<Part>, mid: seq<Part>, after: seq<Part>, room: nat, rt: int)
    requires WentSince(before, mid) && UsedOnce(mid, after, room, rt)
    ensures before <= after && (WentSince(before, after) <==> rt > 0)
  {
    var parts, more := mid[|before|..], after[|before|..];
    assert more[|parts|] == after[|mid|] && forall i :: 0 <= i < |parts| ==> more[i] == parts[i];
  }

  /** One round of one of the two loops; `s` bytes sent or `r` bytes received, none on a failure. */
  method Round(a: ByteArray, b: ByteArray, tx: SocketStream, rx: SocketStream,
               toSend: nat, toRead: nat, ghost st: Start, ghost sends: seq<Part>, ghost receives: seq<Part>)
    returns (s: nat, r: nat)
    requires Midway(a, b, tx.socket, rx.socket, st) && toSend + toRead > 0
    requires EndedWell(sends, tx.socket.parts, receives, rx.socket.parts, true)
    modifies tx.socket, rx.socket, a`position, a`size, a`cur, b.Repr
    ensures Midway(a, b, tx.socket, rx.socket, st) && fresh(b.Repr - old(b.Repr))
    ensures s <= toSend && r <= toRead
    ensures EndedWell(sends, tx.socket.parts, receives, rx.socket.parts, s + r > 0)
    ensures a.position == old(a.position) + s && rx.socket.taken == old(rx.socket.taken) + r
  {
    var senderMoves: bool := *;
    s, r := 0, 0;
    if toSend > 0 && (senderMoves || toRead == 0) {
      var len := SenderRound(a, b, tx, rx, toSend, st, sends);
      s := if len > 0 then len else 0;
    } else {
      var len := ReceiverRound(a, b, tx, rx, toRead, st, receives);
      r := if len > 0 then len else 0;
    }
  }
}
