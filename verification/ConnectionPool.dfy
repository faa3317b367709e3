/** The connection pool of src/http/http_connection.cpp, with any number of getConnection and ReleasePtr calls under
    way at once.  A step is a locked region, an update of the atomic total, a `new` or a `delete`. */
module ConnectionPools {
  import opened Options

  type Conn = nat

  /** Where a connection is: in the list, in the hands of call number i of the pool, with a user, or deleted. */
  datatype Place = Pooled | Held(i: nat) | Out | Gone

  /** `requests` is m_request; `uses` counts how often the connection was handed out; `kept` is when ReleasePtr last
      decided to keep it. */
  datatype Obj = Obj(created: nat, requests: nat, uses: nat, kept: Option<nat>, place: Place)

  /** A call under way.
      Fetching: getConnection after its locked region, with the invalid connections still to delete, the number
      already deleted, and the one it found.  Settled: the total has been reduced.  Made: has a new connection that
      is not counted yet.  Dropping and Dropped: ReleasePtr before and after its delete.  Returning: ReleasePtr
      before it puts the connection back.  Closed: over. */
  datatype Call = Fetching(left: seq<Conn>, n: nat, found: Option<Conn>) | Settled(found: Option<Conn>) | Made(c: Conn)
                | Dropping(c: Conn) | Dropped | Returning(c: Conn) | Closed

  datatype State = State(conns: seq<Conn>, objs: map<Conn, Obj>, calls: seq<Call>, total: int,
                         maxAlive: nat, maxRequest: nat)

  /** `live` are the connections for which isConnected() answers true at that moment, `connected` is its answer. */
  datatype Event =
    | Get(now: nat, live: set<Conn>)
    | DeleteInvalid(i: nat)
    | Subtract(i: nat)
    | Connect(i: nat, ok: bool, created: nat)
    | CountNew(i: nat)
    | HandOut(i: nat)
    | Release(c: Conn, now: nat, connected: bool)
    | DeleteReleased(i: nat)
    | Decrement(i: nat)
    | PutBack(i: nat)

  /** Crash: a connection that has been deleted is used or deleted again. */
  datatype Outcome = Disabled | Crash | Went(s: State)

  /** getConnection keeps a connection that is connected and, as the code has it, whose lifetime is over. */
  predicate Usable(s: State, c: Conn, now: nat, live: set<Conn>) {
    c in live && c in s.objs && !(s.objs[c].created + s.maxAlive > now)
  }

  /** The first usable connection of the list, or the length. */
  function FirstUsable(s: State, now: nat, live: set<Conn>, from: nat): (k: nat)
    requires from <= |s.conns|
    ensures from <= k <= |s.conns|
    ensures forall i :: from <= i < k ==> !Usable(s, s.conns[i], now, live)
    ensures k < |s.conns| ==> Usable(s, s.conns[k], now, live)
    decreases |s.conns| - from
  {
    if from == |s.conns| || Usable(s, s.conns[from], now, live) then from else FirstUsable(s, now, live, from + 1)
  }

  /** The locked region takes the list up to and including the first usable connection. */
  function Taken(s: State, k: nat): (m: nat)
    ensures m <= |s.conns|
  {
    if k < |s.conns| then k + 1 else |s.conns|
  }

  /** Call i takes some connections. */
  function Grab(objs: map<Conn, Obj>, taken: seq<Conn>, i: nat): (r: map<Conn, Obj>)
    ensures r.Keys == objs.Keys
    ensures forall c :: c in objs ==> r[c] == if c in taken then objs[c].(place := Held(i)) else objs[c]
  {
    map c | c in objs :: if c in taken then objs[c].(place := Held(i)) else objs[c]
  }

  /** What getConnection holds when the first usable connection is number k. */
  function Fetched(conns: seq<Conn>, k: nat): Call
    requires k <= |conns|
  {
    Fetching(conns[..k], 0, if k < |conns| then Some(conns[k]) else None)
  }

  predicate AllAlive(s: State, m: nat)
    requires m <= |s.conns|
  {
    forall i :: 0 <= i < m ==> IsAlive(s, s.conns[i])
  }

  function GetStep(s: State, now: nat, live: set<Conn>): Outcome {
    var k := FirstUsable(s, now, live, 0);
    var m := Taken(s, k);
    if !AllAlive(s, m) then Crash
    else Went(s.(conns := s.conns[m..], objs := Grab(s.objs, s.conns[..m], |s.calls|),
                 calls := s.calls + [Fetched(s.conns, k)]))
  }

  predicate IsAlive(s: State, c: Conn) {
    c in s.objs && !s.objs[c].place.Gone?
  }

  function SetCall(s: State, i: nat, call: Call): State
    requires i < |s.calls|
  {
    s.(calls := s.calls[i := call])
  }

  function SetPlace(s: State, c: Conn, p: Place): State
    requires c in s.objs
  {
    s.(objs := s.objs[c := s.objs[c].(place := p)])
  }

  predicate DeletesInvalid(s: State, i: nat) {
    i < |s.calls| && s.calls[i].Fetching? && s.calls[i].left != []
  }

  /** The call after one more deletion. */
  function Shorter(call: Call): Call
    requires call.Fetching? && call.left != []
  {
    Fetching(call.left[1..], call.n + 1, call.found)
  }

  function DeleteInvalidStep(s: State, i: nat): Outcome {
    if !DeletesInvalid(s, i) then Disabled
    else if !IsAlive(s, s.calls[i].left[0]) then Crash
    else Went(SetCall(SetPlace(s, s.calls[i].left[0], Gone), i, Shorter(s.calls[i])))
  }

  function SubtractStep(s: State, i: nat): Outcome {
    if i < |s.calls| && s.calls[i].Fetching? && s.calls[i].left == []
    then Went(SetCall(s, i, Settled(s.calls[i].found)).(total := s.total - s.calls[i].n))
    else Disabled
  }

  /** With nothing found, getConnection makes a connection, or fails and returns null. */
  function ConnectStep(s: State, i: nat, ok: bool, created: nat): Outcome {
    if !(i < |s.calls| && s.calls[i] == Settled(None)) then Disabled
    else if !ok then Went(SetCall(s, i, Closed))
    else
      var c := |s.objs|;
      Went(SetCall(s, i, Made(c)).(objs := s.objs[c := Obj(created, 0, 0, None, Held(i))]))
  }

  function CountNewStep(s: State, i: nat): Outcome {
    if i < |s.calls| && s.calls[i].Made? then Went(SetCall(s, i, Settled(Some(s.calls[i].c))).(total := s.total + 1))
    else Disabled
  }

  function HandOutStep(s: State, i: nat): Outcome {
    if !(i < |s.calls| && s.calls[i].Settled? && s.calls[i].found.Some?) then Disabled
    else
      var c := s.calls[i].found.value;
      if !IsAlive(s, c) then Crash
      else Went(SetCall(s, i, Closed).(objs := s.objs[c := s.objs[c].(place := Out, uses := s.objs[c].uses + 1)]))
  }

  /** ReleasePtr, called when the last reference of a user goes away.  It keeps a connection that is connected, whose
      lifetime is over, as the code has it, and that may be used again. */
  function ReleaseStep(s: State, c: Conn, now: nat, connected: bool): Outcome {
    if !(c in s.objs && s.objs[c].place.Out?) then Disabled
    else
      var o := s.objs[c].(requests := s.objs[c].requests + 1, place := Held(|s.calls|));
      var discard := !connected || o.created + s.maxAlive >= now || o.requests >= s.maxRequest;
      Went(s.(objs := s.objs[c := if discard then o else o.(kept := Some(now))],
              calls := s.calls + [if discard then Dropping(c) else Returning(c)]))
  }

  function DeleteReleasedStep(s: State, i: nat): Outcome {
    if !(i < |s.calls| && s.calls[i].Dropping?) then Disabled
    else if !IsAlive(s, s.calls[i].c) then Crash
    else Went(SetCall(SetPlace(s, s.calls[i].c, Gone), i, Dropped))
  }

  function DecrementStep(s: State, i: nat): Outcome {
    if i < |s.calls| && s.calls[i].Dropped? then Went(SetCall(s, i, Closed).(total := s.total - 1)) else Disabled
  }

  function PutBackStep(s: State, i: nat): Outcome {
    if !(i < |s.calls| && s.calls[i].Returning?) then Disabled
    else if !IsAlive(s, s.calls[i].c) then Crash
    else Went(SetCall(SetPlace(s, s.calls[i].c, Pooled), i, Closed).(conns := s.conns + [s.calls[i].c]))
  }

  function Step(s: State, e: Event): Outcome {
    match e
    case Get(now, live) => GetStep(s, now, live)
    case DeleteInvalid(i) => DeleteInvalidStep(s, i)
    case Subtract(i) => SubtractStep(s, i)
    case Connect(i, ok, created) => ConnectStep(s, i, ok, created)
    case CountNew(i) => CountNewStep(s, i)
    case HandOut(i) => HandOutStep(s, i)
    case Release(c, now, connected) => ReleaseStep(s, c, now, connected)
    case DeleteReleased(i) => DeleteReleasedStep(s, i)
    case Decrement(i) => DecrementStep(s, i)
    case PutBack(i) => PutBackStep(s, i)
  }

  function Init(maxAlive: nat, maxRequest: nat): State {
    State([], map[], [], 0, maxAlive, maxRequest)
  }

  function Run(s: State, events: seq<Event>): Outcome
    decreases |events|
  {
    if events == [] then Went(s)
    else
      match Step(s, events[0])
      case Went(t) => Run(t, events[1..])
      case Crash => Crash
      case Disabled => Disabled
  }

  // ---- the invariant

  /** The connections in the hands of a call. */
  function Owned(call: Call): seq<Conn> {
    match call
    case Fetching(left, _, found) => if found.Some? then left + [found.value] else left
    case Settled(found) => if found.Some? then [found.value] else []
    case Made(c) => [c]
    case Dropping(c) => [c]
    case Returning(c) => [c]
    case Dropped => []
    case Closed => []
  }

  predicate Distinct(q: seq<Conn>) {
    forall i, j :: 0 <= i < j < |q| ==> q[i] != q[j]
  }

  ghost predicate ListSound(conns: seq<Conn>, objs: map<Conn, Obj>) {
    Distinct(conns) && forall c :: c in conns <==> c in objs && objs[c].place.Pooled?
  }

  ghost predicate CallsSound(calls: seq<Call>, objs: map<Conn, Obj>) {
    && (forall i :: 0 <= i < |calls| ==> Distinct(Owned(calls[i])))
    && (forall i :: 0 <= i < |calls| ==> forall c :: c in Owned(calls[i]) <==> c in objs && objs[c].place == Held(i))
    && (forall c :: c in objs && objs[c].place.Held? ==> objs[c].place.i < |calls|)
  }

  /** How far the total is off because of a call: deleted but not subtracted, or made but not added. */
  function Owed(call: Call): int {
    match call
    case Fetching(_, n, _) => n
    case Made(_) => -1
    case Dropped => 1
    case _ => 0
  }

  function AllOwed(calls: seq<Call>, n: nat): int
    requires n <= |calls|
  {
    if n == 0 then 0 else AllOwed(calls, n - 1) + Owed(calls[n - 1])
  }

  ghost function Alive(objs: map<Conn, Obj>): set<Conn> {
    set c | c in objs && !objs[c].place.Gone?
  }

  ghost predicate Counted(s: State) {
    s.total == |Alive(s.objs)| + AllOwed(s.calls, |s.calls|)
  }

  /** The connection may be handed out again. */
  predicate MayStay(o: Obj, maxRequest: nat) {
    o.requests == 0 || o.requests < maxRequest
  }

  ghost predicate UsesSound(o: Obj, calls: seq<Call>, maxRequest: nat) {
    && o.uses <= Bound(maxRequest)
    && o.uses == o.requests + (if o.place.Out? then 1 else 0)
    && (o.place.Pooled? ==> MayStay(o, maxRequest))
    && (o.place.Held? && o.place.i < |calls| && !calls[o.place.i].Dropping? ==> MayStay(o, maxRequest))
  }

  ghost predicate UsesBounded(s: State) {
    && (forall c :: c in s.objs ==> UsesSound(s.objs[c], s.calls, s.maxRequest))
    && (forall c :: c in s.objs ==> c < |s.objs|)
  }

  function Bound(maxRequest: nat): nat {
    if maxRequest > 1 then maxRequest else 1
  }

  ghost predicate Inv(s: State) {
    ListSound(s.conns, s.objs) && CallsSound(s.calls, s.objs) && Counted(s) && UsesBounded(s)
  }

  lemma InitInv(maxAlive: nat, maxRequest: nat)
    ensures Inv(Init(maxAlive, maxRequest))
  {
    assert Alive(map[]) == {};
  }

  // ---- how the parts of the invariant follow the steps

  lemma {:induction false} OwedAt(calls: seq<Call>, i: nat, call: Call, n: nat)
    requires i < |calls| && n <= |calls|
    ensures AllOwed(calls[i := call], n) == AllOwed(calls, n) + if i < n then Owed(call) - Owed(calls[i]) else 0
  {
    if n > 0 {
      OwedAt(calls, i, call, n - 1);
    }
  }

  lemma {:induction false} OwedMore(calls: seq<Call>, call: Call, n: nat)
    requires n <= |calls|
    ensures AllOwed(calls + [call], n) == AllOwed(calls, n)
  {
    if n > 0 {
      OwedMore(calls, call, n - 1);
    }
  }

  lemma AliveAt(objs: map<Conn, Obj>, c: Conn, o: Obj)
    ensures |Alive(objs[c := o])| ==
            |Alive(objs)| + (if o.place.Gone? then 0 else 1) - (if c in Alive(objs) then 1 else 0)
  {
    assert Alive(objs[c := o]) == if o.place.Gone? then Alive(objs) - {c} else Alive(objs) + {c};
    assert c in Alive(objs) ==> Alive(objs) + {c} == Alive(objs) && Alive(objs) == (Alive(objs) - {c}) + {c};
  }

  /** A connection outside the list that stays outside it. */
  lemma ListSame(conns: seq<Conn>, objs: map<Conn, Obj>, c: Conn, o: Obj)
    requires ListSound(conns, objs) && !o.place.Pooled? && (c in objs ==> !objs[c].place.Pooled?)
    ensures ListSound(conns, objs[c := o])
  {
  }

  lemma Rest(was: seq<Conn>, rest: seq<Conn>, c: Conn)
    requires was == [c] + rest && Distinct(was)
    ensures Distinct(rest) && c in was && forall x :: x in rest <==> x in was && x != c
  {
    assert was[0] == c && forall k :: 0 <= k < |rest| ==> rest[k] == was[k + 1];
  }

  /** Call i gives up connection c. */
  lemma Leaves(calls: seq<Call>, objs: map<Conn, Obj>, i: nat, call: Call, c: Conn, o: Obj)
    requires CallsSound(calls, objs) && i < |calls| && Owned(calls[i]) == [c] + Owned(call) && !o.place.Held?
    ensures CallsSound(calls[i := call], objs[c := o])
  {
    Rest(Owned(calls[i]), Owned(call), c);
    var calls', objs' := calls[i := call], objs[c := o];
    forall j | 0 <= j < |calls'|
      ensures Distinct(Owned(calls'[j]))
      ensures forall x :: x in Owned(calls'[j]) <==> x in objs' && objs'[x].place == Held(j)
    {
      assert Distinct(Owned(calls[j]));
    }
  }

  /** Call i gets a new connection. */
  lemma Fills(calls: seq<Call>, objs: map<Conn, Obj>, i: nat, call: Call, c: Conn, o: Obj)
    requires CallsSound(calls, objs) && i < |calls| && Owned(calls[i]) == [] && Owned(call) == [c]
    requires c !in objs && o.place == Held(i)
    ensures CallsSound(calls[i := call], objs[c := o])
  {
  }

  /** A new call has connection c, which no other call had. */
  lemma Enters(calls: seq<Call>, objs: map<Conn, Obj>, call: Call, c: Conn, o: Obj)
    requires CallsSound(calls, objs) && c in objs && !objs[c].place.Held?
    requires Owned(call) == [c] && o.place == Held(|calls|)
    ensures CallsSound(calls + [call], objs[c := o])
  {
    var calls', objs' := calls + [call], objs[c := o];
    forall j | 0 <= j < |calls'|
      ensures Distinct(Owned(calls'[j]))
      ensures forall x :: x in Owned(calls'[j]) <==> x in objs' && objs'[x].place == Held(j)
    {
      assert j < |calls| ==> calls'[j] == calls[j];
    }
  }

  lemma SameOwned(calls: seq<Call>, objs: map<Conn, Obj>, i: nat, call: Call)
    requires CallsSound(calls, objs) && i < |calls| && Owned(call) == Owned(calls[i])
    ensures CallsSound(calls[i := call], objs)
  {
  }

  // ---- every step keeps the invariant

  lemma UsesAt(s: State, i: nat, call: Call, c: Conn, o: Obj)
    requires UsesBounded(s) && i < |s.calls| && c in s.objs
    requires UsesSound(o, s.calls[i := call], s.maxRequest) && (s.calls[i].Dropping? || !call.Dropping?)
    requires forall x :: x in s.objs && s.objs[x].place == Held(i) && x != c ==> !s.calls[i].Dropping?
    ensures UsesBounded(s.(calls := s.calls[i := call], objs := s.objs[c := o]))
  {
    var s' := s.(calls := s.calls[i := call], objs := s.objs[c := o]);
    assert s'.objs.Keys == s.objs.Keys;
    assert |s'.objs| == |s.objs|;
    forall x | x in s'.objs ensures UsesSound(s'.objs[x], s'.calls, s.maxRequest) {
      if x != c {
        assert UsesSound(s.objs[x], s.calls, s.maxRequest);
      }
    }
  }

  /** Call i gives up connection c, which goes elsewhere: what all such steps have in common. */
  lemma GivesUp(s: State, i: nat, call: Call, o: Obj, c: Conn)
    requires Inv(s) && i < |s.calls| && Owned(s.calls[i]) == [c] + Owned(call) && !call.Dropping?
    requires !o.place.Held? && o.uses == o.requests + (if o.place.Out? then 1 else 0)
    requires c in s.objs ==> o.requests == s.objs[c].requests
    requires !o.place.Gone? ==> !s.calls[i].Dropping?
    ensures IsAlive(s, c) && s.objs[c].place == Held(i)
    ensures var s' := s.(calls := s.calls[i := call], objs := s.objs[c := o]);
            && CallsSound(s'.calls, s'.objs) && UsesBounded(s')
            && |Alive(s'.objs)| == |Alive(s.objs)| - (if o.place.Gone? then 1 else 0)
            && AllOwed(s'.calls, |s'.calls|) == AllOwed(s.calls, |s.calls|) + Owed(call) - Owed(s.calls[i])
            && (!o.place.Pooled? ==> ListSound(s.conns, s'.objs))
  {
    assert c == Owned(s.calls[i])[0] && c in Owned(s.calls[i]);
    Leaves(s.calls, s.objs, i, call, c, o);
    AliveAt(s.objs, c, o);
    OwedAt(s.calls, i, call, |s.calls|);
    assert UsesSound(s.objs[c], s.calls, s.maxRequest);
    forall x | x in s.objs && s.objs[x].place == Held(i) && x != c ensures !s.calls[i].Dropping? {
      assert x in Owned(s.calls[i]);
    }
    UsesAt(s, i, call, c, o);
    if !o.place.Pooled? {
      ListSame(s.conns, s.objs, c, o);
    }
  }

  lemma NextInvalid(call: Call)
    requires call.Fetching? && call.left != []
    ensures Owned(call) == [call.left[0]] + Owned(Shorter(call))
    ensures call.left[0] in Owned(call)
  {
    assert Owned(call)[0] == call.left[0];
    assert call.left == [call.left[0]] + call.left[1..];
  }

  /** Call i deletes connection c. */
  lemma GoneKeeps(s: State, i: nat, call: Call, c: Conn)
    requires Inv(s) && i < |s.calls| && Owned(s.calls[i]) == [c] + Owned(call)
    requires !call.Dropping? && Owed(call) == Owed(s.calls[i]) + 1
    ensures IsAlive(s, c) && Inv(SetCall(SetPlace(s, c, Gone), i, call))
  {
    assert c == Owned(s.calls[i])[0] && c in Owned(s.calls[i]);
    GivesUp(s, i, call, s.objs[c].(place := Gone), c);
  }

  lemma DeleteInvalidKeeps(s: State, i: nat)
    requires Inv(s)
    ensures var o := DeleteInvalidStep(s, i); !o.Crash? && (o.Went? ==> Inv(o.s))
  {
    if DeletesInvalid(s, i) {
      NextInvalid(s.calls[i]);
      GoneKeeps(s, i, Shorter(s.calls[i]), s.calls[i].left[0]);
    }
  }

  lemma DeleteReleasedKeeps(s: State, i: nat)
    requires Inv(s)
    ensures var o := DeleteReleasedStep(s, i); !o.Crash? && (o.Went? ==> Inv(o.s))
  {
    if i < |s.calls| && s.calls[i].Dropping? {
      GoneKeeps(s, i, Dropped, s.calls[i].c);
    }
  }

  lemma HandOutKeeps(s: State, i: nat)
    requires Inv(s)
    ensures var o := HandOutStep(s, i); !o.Crash? && (o.Went? ==> Inv(o.s))
  {
    if i < |s.calls| && s.calls[i].Settled? && s.calls[i].found.Some? {
      var c := s.calls[i].found.value;
      assert c in Owned(s.calls[i]) && Owned(s.calls[i]) == [c] + Owned(Closed);
      assert UsesSound(s.objs[c], s.calls, s.maxRequest);
      GivesUp(s, i, Closed, s.objs[c].(place := Out, uses := s.objs[c].uses + 1), c);
    }
  }

  lemma PutBackKeeps(s: State, i: nat)
    requires Inv(s)
    ensures var o := PutBackStep(s, i); !o.Crash? && (o.Went? ==> Inv(o.s))
  {
    if i < |s.calls| && s.calls[i].Returning? {
      var c := s.calls[i].c;
      assert c in Owned(s.calls[i]) && Owned(s.calls[i]) == [c] + Owned(Closed);
      assert UsesSound(s.objs[c], s.calls, s.maxRequest);
      GivesUp(s, i, Closed, s.objs[c].(place := Pooled), c);
      var conns := s.conns + [c];
      assert forall x :: x in conns <==> x in s.conns || x == c;
      assert Distinct(conns);
    }
  }

  /** A call goes on with what it has. */
  lemma GoesOn(s: State, s': State, i: nat, call: Call)
    requires Inv(s) && i < |s.calls| && Owned(call) == Owned(s.calls[i])
    requires s' == s.(calls := s.calls[i := call], total := s.total + Owed(call) - Owed(s.calls[i]))
    requires !s.calls[i].Dropping? && !call.Dropping?
    ensures Inv(s')
  {
    SameOwned(s.calls, s.objs, i, call);
    OwedAt(s.calls, i, call, |s.calls|);
    forall c | c in s.objs ensures UsesSound(s.objs[c], s'.calls, s.maxRequest) {
      assert UsesSound(s.objs[c], s.calls, s.maxRequest);
    }
  }

  lemma NewUses(s: State, i: nat, call: Call, o: Obj)
    requires UsesBounded(s) && i < |s.calls| && !call.Dropping? && !s.calls[i].Dropping?
    requires o.requests == o.uses == 0 && o.place == Held(i)
    ensures |s.objs| !in s.objs && UsesBounded(s.(calls := s.calls[i := call], objs := s.objs[|s.objs| := o]))
  {
    var c := |s.objs|;
    var s' := s.(calls := s.calls[i := call], objs := s.objs[c := o]);
    assert s'.objs.Keys == s.objs.Keys + {c};
    forall x | x in s'.objs ensures UsesSound(s'.objs[x], s'.calls, s.maxRequest) && x < |s'.objs| {
      assert x != c ==> UsesSound(s.objs[x], s.calls, s.maxRequest);
    }
  }

  lemma MadeKeeps(s: State, i: nat, created: nat)
    requires Inv(s) && i < |s.calls| && s.calls[i] == Settled(None)
    ensures Inv(ConnectStep(s, i, true, created).s)
  {
    var c, o := |s.objs|, Obj(created, 0, 0, None, Held(i));
    NewUses(s, i, Made(c), o);
    Fills(s.calls, s.objs, i, Made(c), c, o);
    ListSame(s.conns, s.objs, c, o);
    AliveAt(s.objs, c, o);
    OwedAt(s.calls, i, Made(c), |s.calls|);
  }

  lemma ConnectKeeps(s: State, i: nat, ok: bool, created: nat)
    requires Inv(s)
    ensures var o := ConnectStep(s, i, ok, created); !o.Crash? && (o.Went? ==> Inv(o.s))
  {
    if i < |s.calls| && s.calls[i] == Settled(None) {
      if !ok {
        GoesOn(s, ConnectStep(s, i, ok, created).s, i, Closed);
      } else {
        MadeKeeps(s, i, created);
      }
    }
  }

  lemma ReleaseKeeps(s: State, c: Conn, now: nat, connected: bool)
    requires Inv(s)
    ensures var o := ReleaseStep(s, c, now, connected); !o.Crash? && (o.Went? ==> Inv(o.s))
  {
    if c in s.objs && s.objs[c].place.Out? {
      var s' := ReleaseStep(s, c, now, connected).s;
      var o, call := s'.objs[c], s'.calls[|s.calls|];
      Enters(s.calls, s.objs, call, c, o);
      ListSame(s.conns, s.objs, c, o);
      AliveAt(s.objs, c, o);
      OwedMore(s.calls, call, |s.calls|);
      assert s'.objs.Keys == s.objs.Keys;
      assert |s'.objs| == |s.objs|;
      assert UsesSound(s.objs[c], s.calls, s.maxRequest);
      forall x | x in s'.objs ensures UsesSound(s'.objs[x], s'.calls, s.maxRequest) {
        assert x != c ==> UsesSound(s.objs[x], s.calls, s.maxRequest);
        assert x in s.objs && s.objs[x].place.Held? ==> s.objs[x].place.i < |s.calls|;
      }
    }
  }

  // ---- getConnection's locked region

  lemma FetchedOwns(conns: seq<Conn>, k: nat, m: nat)
    requires k <= |conns| && m == (if k < |conns| then k + 1 else |conns|)
    ensures Owned(Fetched(conns, k)) == conns[..m]
  {
  }

  lemma Prefix(conns: seq<Conn>, m: nat)
    requires Distinct(conns) && m <= |conns|
    ensures Distinct(conns[..m]) && Distinct(conns[m..])
    ensures forall c :: c in conns[m..] <==> c in conns && c !in conns[..m]
    ensures forall c :: c in conns[..m] ==> c in conns
  {
    assert conns == conns[..m] + conns[m..];
    forall c | c in conns[m..] ensures c !in conns[..m] {
      var j :| 0 <= j < |conns[m..]| && conns[m..][j] == c;
      assert conns[m + j] == c;
    }
  }

  lemma GetCalls(s: State, objs: map<Conn, Obj>, call: Call, m: nat)
    requires CallsSound(s.calls, s.objs) && ListSound(s.conns, s.objs) && m <= |s.conns| && Owned(call) == s.conns[..m]
    requires objs.Keys == s.objs.Keys
    requires forall c :: c in objs ==>
               objs[c].place == if c in s.conns[..m] then Held(|s.calls|) else s.objs[c].place
    ensures CallsSound(s.calls + [call], objs)
  {
    Prefix(s.conns, m);
    var calls := s.calls + [call];
    forall j | 0 <= j < |calls|
      ensures Distinct(Owned(calls[j]))
      ensures forall x :: x in Owned(calls[j]) <==> x in objs && objs[x].place == Held(j)
    {
      if j < |s.calls| {
        assert calls[j] == s.calls[j];
      }
    }
  }

  lemma GetUses(s: State, taken: seq<Conn>, call: Call)
    requires UsesBounded(s) && CallsSound(s.calls, s.objs) && !call.Dropping?
    requires forall c :: c in taken ==> c in s.objs && s.objs[c].place.Pooled?
    ensures UsesBounded(s.(objs := Grab(s.objs, taken, |s.calls|), calls := s.calls + [call]))
    ensures |Alive(Grab(s.objs, taken, |s.calls|))| == |Alive(s.objs)|
  {
    var objs, calls := Grab(s.objs, taken, |s.calls|), s.calls + [call];
    assert Alive(objs) == Alive(s.objs);
    assert |objs| == |s.objs|;
    forall x | x in objs ensures UsesSound(objs[x], calls, s.maxRequest) {
      assert UsesSound(s.objs[x], s.calls, s.maxRequest);
      assert s.objs[x].place.Held? ==> s.objs[x].place.i < |s.calls|;
    }
  }

  lemma GetList(conns: seq<Conn>, objs: map<Conn, Obj>, m: nat, i: nat)
    requires ListSound(conns, objs) && m <= |conns|
    ensures ListSound(conns[m..], Grab(objs, conns[..m], i))
    ensures forall c :: c in conns[..m] ==> c in objs && objs[c].place.Pooled?
  {
    Prefix(conns, m);
  }

  lemma PooledAlive(s: State, m: nat)
    requires ListSound(s.conns, s.objs) && m <= |s.conns|
    ensures AllAlive(s, m)
  {
    assert forall i :: 0 <= i < m ==> s.conns[i] in s.conns;
  }

  function Grabbed(s: State, call: Call, m: nat): State
    requires m <= |s.conns|
  {
    s.(conns := s.conns[m..], objs := Grab(s.objs, s.conns[..m], |s.calls|), calls := s.calls + [call])
  }

  lemma GrabCalls(s: State, call: Call, m: nat)
    requires CallsSound(s.calls, s.objs) && ListSound(s.conns, s.objs) && m <= |s.conns| && Owned(call) == s.conns[..m]
    ensures CallsSound(Grabbed(s, call, m).calls, Grabbed(s, call, m).objs)
  {
    GetCalls(s, Grab(s.objs, s.conns[..m], |s.calls|), call, m);
  }

  lemma GrabCounted(s: State, call: Call, m: nat)
    requires UsesBounded(s) && CallsSound(s.calls, s.objs) && Counted(s) && Owed(call) == 0 && !call.Dropping?
    requires m <= |s.conns| && forall c :: c in s.conns[..m] ==> c in s.objs && s.objs[c].place.Pooled?
    ensures Counted(Grabbed(s, call, m)) && UsesBounded(Grabbed(s, call, m))
  {
    OwedMore(s.calls, call, |s.calls|);
    GetUses(s, s.conns[..m], call);
  }

  /** The state after the locked region, when it has taken the first m connections. */
  lemma GrabKeeps(s: State, call: Call, m: nat)
    requires Inv(s) && m <= |s.conns| && Owned(call) == s.conns[..m] && Owed(call) == 0 && !call.Dropping?
    ensures Inv(Grabbed(s, call, m))
  {
    GetList(s.conns, s.objs, m, |s.calls|);
    GrabCalls(s, call, m);
    GrabCounted(s, call, m);
  }

  lemma GetKeeps(s: State, now: nat, live: set<Conn>)
    requires Inv(s)
    ensures var o := GetStep(s, now, live); o.Went? && Inv(o.s)
  {
    var k := FirstUsable(s, now, live, 0);
    PooledAlive(s, Taken(s, k));
    FetchedOwns(s.conns, k, Taken(s, k));
    GrabKeeps(s, Fetched(s.conns, k), Taken(s, k));
  }

  // ---- main results

  /** No step uses or deletes a deleted connection. */
  lemma StepKeeps(s: State, e: Event)
    requires Inv(s)
    ensures !Step(s, e).Crash?
    ensures Step(s, e).Went? ==> Inv(Step(s, e).s)
  {
    match e
    case Get(now, live) => GetKeeps(s, now, live);
    case DeleteInvalid(i) => DeleteInvalidKeeps(s, i);
    case Subtract(i) => if SubtractStep(s, i).Went? { GoesOn(s, SubtractStep(s, i).s, i, Settled(s.calls[i].found)); }
    case Connect(i, ok, created) => ConnectKeeps(s, i, ok, created);
    case CountNew(i) => if CountNewStep(s, i).Went? { GoesOn(s, CountNewStep(s, i).s, i, Settled(Some(s.calls[i].c))); }
    case HandOut(i) => HandOutKeeps(s, i);
    case Release(c, now, connected) => ReleaseKeeps(s, c, now, connected);
    case DeleteReleased(i) => DeleteReleasedKeeps(s, i);
    case Decrement(i) => if DecrementStep(s, i).Went? { GoesOn(s, DecrementStep(s, i).s, i, Closed); }
    case PutBack(i) => PutBackKeeps(s, i);
  }

  lemma {:induction false} RunKeeps(s: State, events: seq<Event>)
    requires Inv(s)
    ensures !Run(s, events).Crash?
    ensures Run(s, events).Went? ==> Inv(Run(s, events).s)
    decreases |events|
  {
    if events != [] {
      StepKeeps(s, events[0]);
      if Step(s, events[0]).Went? {
        RunKeeps(Step(s, events[0]).s, events[1..]);
      }
    }
  }

  ghost function CheckedOut(s: State): set<Conn> {
    set c | c in s.objs && s.objs[c].place.Out?
  }

  ghost function InTransit(s: State): set<Conn> {
    set c | c in s.objs && s.objs[c].place.Held?
  }

  ghost function Members(conns: seq<Conn>): set<Conn> {
    set c | c in conns
  }

  lemma {:induction false} ListSize(conns: seq<Conn>)
    requires Distinct(conns)
    ensures |Members(conns)| == |conns|
  {
    if conns == [] {
      assert Members(conns) == {};
    } else {
      var n := |conns| - 1;
      ListSize(conns[..n]);
      assert conns == conns[..n] + [conns[n]];
      assert Members(conns) == Members(conns[..n]) + {conns[n]};
      assert conns[n] !in conns[..n];
    }
  }

  lemma AliveParts(s: State)
    requires ListSound(s.conns, s.objs)
    ensures |Alive(s.objs)| == |s.conns| + |CheckedOut(s)| + |InTransit(s)|
  {
    ListSize(s.conns);
    var a, b, c := Members(s.conns), CheckedOut(s), InTransit(s);
    assert Alive(s.objs) == a + b + c;
    assert a !! b && (a + b) !! c;
  }

  lemma NoneInTransit(s: State)
    requires CallsSound(s.calls, s.objs) && forall i :: 0 <= i < |s.calls| ==> s.calls[i].Closed?
    ensures InTransit(s) == {}
  {
    assert forall i :: 0 <= i < |s.calls| ==> Owned(s.calls[i]) == [];
  }

  /** In every run the total is the number of connections in the list, with users and in the hands of calls, up to what
      the calls under way still owe it; with no call under way it is exactly pooled plus checked out. */
  lemma TotalExact(maxAlive: nat, maxRequest: nat, events: seq<Event>)
    requires Run(Init(maxAlive, maxRequest), events).Went?
    ensures var s := Run(Init(maxAlive, maxRequest), events).s;
            && s.total == |s.conns| + |CheckedOut(s)| + |InTransit(s)| + AllOwed(s.calls, |s.calls|)
            && ((forall i :: 0 <= i < |s.calls| ==> s.calls[i].Closed?) ==> s.total == |s.conns| + |CheckedOut(s)|)
  {
    InitInv(maxAlive, maxRequest);
    RunKeeps(Init(maxAlive, maxRequest), events);
    var s := Run(Init(maxAlive, maxRequest), events).s;
    AliveParts(s);
    if forall i :: 0 <= i < |s.calls| ==> s.calls[i].Closed? {
      NothingOwed(s.calls, |s.calls|);
      NoneInTransit(s);
    }
  }

  lemma {:induction false} NothingOwed(calls: seq<Call>, n: nat)
    requires n <= |calls| && forall i :: 0 <= i < |calls| ==> calls[i].Closed?
    ensures AllOwed(calls, n) == 0
  {
    if n > 0 {
      NothingOwed(calls, n - 1);
    }
  }

  /** In every run, for any outcome of the connectivity and age tests: a connection is in the list at most once, and
      only when it is not with a user, in the hands of a call, or deleted; at most one call has it; it is handed out
      at most max(1, maxRequest) times; and nothing deleted is used or deleted again. */
  lemma OneOwner(maxAlive: nat, maxRequest: nat, events: seq<Event>, c: Conn)
    ensures !Run(Init(maxAlive, maxRequest), events).Crash?
    ensures Run(Init(maxAlive, maxRequest), events).Went? && c in Run(Init(maxAlive, maxRequest), events).s.objs ==>
            var s := Run(Init(maxAlive, maxRequest), events).s;
            && (forall i, j :: 0 <= i < j < |s.conns| ==> s.conns[i] != s.conns[j])
            && (c in s.conns <==> s.objs[c].place.Pooled?)
            && (forall i :: 0 <= i < |s.calls| ==> (c in Owned(s.calls[i]) <==> s.objs[c].place == Held(i)))
            && s.objs[c].uses <= Bound(maxRequest)
  {
    InitInv(maxAlive, maxRequest);
    RunKeeps(Init(maxAlive, maxRequest), events);
    Limits(Init(maxAlive, maxRequest), events);
    var o := Run(Init(maxAlive, maxRequest), events);
    if o.Went? && c in o.s.objs {
      assert UsesSound(o.s.objs[c], o.s.calls, o.s.maxRequest);
    }
  }

  /** The settings do not change. */
  lemma {:induction false} Limits(s: State, events: seq<Event>)
    ensures Run(s, events).Went? ==> Run(s, events).s.maxRequest == s.maxRequest
    decreases |events|
  {
    if events != [] && Step(s, events[0]).Went? {
      Limits(Step(s, events[0]).s, events[1..]);
    }
  }

  // ---- the program

  /** The fields m_createTime and m_request. */
  datatype HttpConnection = HttpConnection(createTime: nat, request: nat)

  /** HttpConnectionPool: the parts of getConnection and ReleasePtr that decide where a connection goes. */
  class HttpConnectionPool {
    const maxAliveTime: nat
    const maxRequest: nat
    var conns: seq<Conn>
    var heap: map<Conn, HttpConnection>
    var total: int
    ghost var objs: map<Conn, Obj>
    ghost var calls: seq<Call>

    ghost predicate Valid()
      reads this
    {
      && heap.Keys == objs.Keys
      && forall c :: c in objs ==> heap[c] == HttpConnection(objs[c].created, objs[c].requests)
    }

    ghost function View(): State
      reads this
    {
      State(conns, objs, calls, total, maxAliveTime, maxRequest)
    }

    constructor (maxAliveTime: nat, maxRequest: nat)
      ensures Valid() && View() == Init(maxAliveTime, maxRequest)
    {
      this.maxAliveTime, this.maxRequest := maxAliveTime, maxRequest;
      conns, heap, total := [], map[], 0;
      objs, calls := map[], [];
    }

    /** The locked region of getConnection. */
    method Fetch(now: nat, live: set<Conn>) returns (invalid: seq<Conn>, found: Option<Conn>)
      requires Valid() && Inv(View())
      modifies this`conns, this`objs, this`calls
      ensures Valid() && Went(View()) == GetStep(old(View()), now, live)
      ensures calls == old(calls) + [Fetching(invalid, 0, found)]
    {
      GetKeeps(View(), now, live);
      ghost var s := View();
      invalid, found := PopInvalid(now, live);
      objs := GetStep(s, now, live).s.objs;
      calls := calls + [Fetching(invalid, 0, found)];
    }

    /** Its loop. */
    method PopInvalid(now: nat, live: set<Conn>) returns (invalid: seq<Conn>, found: Option<Conn>)
      requires Valid() && forall c :: c in conns ==> c in objs
      modifies this`conns
      ensures var k := FirstUsable(old(View()), now, live, 0);
              Fetching(invalid, 0, found) == Fetched(old(conns), k) && conns == old(conns)[Taken(old(View()), k)..]
    {
      ghost var s := View();
      invalid, found := [], None;
      while conns != []
        invariant |invalid| <= |s.conns| && invalid == s.conns[..|invalid|] && conns == s.conns[|invalid|..]
        invariant found.None? && FirstUsable(s, now, live, |invalid|) == FirstUsable(s, now, live, 0)
      {
        var c := conns[0];
        assert c == s.conns[|invalid|] && c in s.conns;
        conns := conns[1..];
        if c !in live || heap[c].createTime + maxAliveTime > now {
          invalid := invalid + [c];
          continue;
        }
        found := Some(c);
        break;
      }
    }

    /** ReleasePtr up to its decision: whether the connection is to be deleted. */
    method ReleasePtr(c: Conn, now: nat, connected: bool) returns (discard: bool)
      requires Valid() && c in objs && objs[c].place.Out?
      modifies this`heap, this`objs, this`calls
      ensures Valid() && Went(View()) == ReleaseStep(old(View()), c, now, connected)
      ensures calls == old(calls) + [if discard then Dropping(c) else Returning(c)]
    {
      heap := heap[c := heap[c].(request := heap[c].request + 1)];
      discard := !connected || heap[c].createTime + maxAliveTime >= now || heap[c].request >= maxRequest;
      objs := ReleaseStep(View(), c, now, connected).s.objs;
      calls := calls + [if discard then Dropping(c) else Returning(c)];
    }
  }
}
