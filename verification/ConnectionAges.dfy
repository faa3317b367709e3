/** The age tests of the connection pool (src/http/http_connection.cpp:223 and 264) are the wrong way round: over every
    run a connection is kept and used again only when its lifetime is over. */
module ConnectionAges {
  import opened Options
  import opened ConnectionPools

  /** The lifetime of the connection is over at time `now`. */
  predicate Expired(o: Obj, maxAlive: nat, now: nat) {
    o.created + maxAlive < now
  }

  /** The connection is on its way to be deleted, or is deleted. */
  predicate Doomed(o: Obj, calls: seq<Call>) {
    o.place.Gone? || (o.place.Held? && o.place.i < |calls| && calls[o.place.i].Dropping?)
  }

  /** The connection is in the list, or on its way there. */
  predicate Listed(o: Obj, calls: seq<Call>) {
    o.place.Pooled? || (o.place.Held? && o.place.i < |calls| && calls[o.place.i].Returning?)
  }

  /** What has been kept had expired by then, and what is used a second time or may be has been kept. */
  ghost predicate AgeSound(o: Obj, calls: seq<Call>, maxAlive: nat) {
    && (o.kept.Some? ==> Expired(o, maxAlive, o.kept.value))
    && (o.uses >= 2 || Listed(o, calls) || (o.requests >= 1 && !Doomed(o, calls)) ==> o.kept.Some?)
  }

  ghost predicate AgesSound(s: State) {
    forall c :: c in s.objs ==> AgeSound(s.objs[c], s.calls, s.maxAlive)
  }

  /** One connection changes, and call i. */
  lemma AgesAt(s: State, s': State, c: Conn, i: nat)
    requires AgesSound(s) && c in s'.objs && s'.objs == s.objs[c := s'.objs[c]] && s'.maxAlive == s.maxAlive
    requires |s.calls| <= |s'.calls| && i < |s'.calls|
    requires forall j :: 0 <= j < |s.calls| && j != i ==> s'.calls[j] == s.calls[j]
    requires forall x :: x in s.objs && s.objs[x].place == Held(i) && x != c ==>
               i < |s.calls| && !s.calls[i].Dropping? && !s'.calls[i].Returning?
    requires forall x :: x in s.objs && s.objs[x].place.Held? ==> s.objs[x].place.i < |s.calls|
    requires AgeSound(s'.objs[c], s'.calls, s.maxAlive)
    ensures AgesSound(s')
  {
    forall x | x in s'.objs ensures AgeSound(s'.objs[x], s'.calls, s.maxAlive) {
      if x != c {
        assert AgeSound(s.objs[x], s.calls, s.maxAlive);
      }
    }
  }

  /** Only a call that is dropping a connection has it alone. */
  lemma DropsOne(s: State, i: nat, c: Conn)
    requires Inv(s) && i < |s.calls| && c in Owned(s.calls[i])
    ensures c in s.objs && s.objs[c].place == Held(i)
    ensures forall x :: x in s.objs && s.objs[x].place == Held(i) && x != c ==> !s.calls[i].Dropping?
  {
    forall x | x in s.objs && s.objs[x].place == Held(i) && x != c ensures !s.calls[i].Dropping? {
      assert x in Owned(s.calls[i]);
    }
  }

  /** The step of a call that settles one of its connections. */
  lemma SettleAges(s: State, s': State, c: Conn, i: nat)
    requires Inv(s) && AgesSound(s) && i < |s.calls| && c in Owned(s.calls[i])
    requires |s'.calls| == |s.calls| && s'.calls == s.calls[i := s'.calls[i]] && s'.maxAlive == s.maxAlive
    requires !s'.calls[i].Returning?
    requires c in s'.objs && s'.objs == s.objs[c := s'.objs[c]] && AgeSound(s'.objs[c], s'.calls, s.maxAlive)
    ensures AgesSound(s')
  {
    DropsOne(s, i, c);
    AgesAt(s, s', c, i);
  }

  lemma DeleteInvalidAges(s: State, i: nat)
    requires Inv(s) && AgesSound(s)
    ensures DeleteInvalidStep(s, i).Went? ==> AgesSound(DeleteInvalidStep(s, i).s)
  {
    if DeleteInvalidStep(s, i).Went? {
      var c := s.calls[i].left[0];
      NextInvalid(s.calls[i]);
      assert AgeSound(s.objs[c], s.calls, s.maxAlive);
      SettleAges(s, DeleteInvalidStep(s, i).s, c, i);
    }
  }

  lemma DeleteReleasedAges(s: State, i: nat)
    requires Inv(s) && AgesSound(s)
    ensures DeleteReleasedStep(s, i).Went? ==> AgesSound(DeleteReleasedStep(s, i).s)
  {
    if DeleteReleasedStep(s, i).Went? {
      var c := s.calls[i].c;
      assert c in Owned(s.calls[i]) && AgeSound(s.objs[c], s.calls, s.maxAlive);
      SettleAges(s, DeleteReleasedStep(s, i).s, c, i);
    }
  }

  lemma HandOutAges(s: State, i: nat)
    requires Inv(s) && AgesSound(s)
    ensures HandOutStep(s, i).Went? ==> AgesSound(HandOutStep(s, i).s)
  {
    if HandOutStep(s, i).Went? {
      var c := s.calls[i].found.value;
      assert c in Owned(s.calls[i]);
      DropsOne(s, i, c);
      assert AgeSound(s.objs[c], s.calls, s.maxAlive) && UsesSound(s.objs[c], s.calls, s.maxRequest);
      SettleAges(s, HandOutStep(s, i).s, c, i);
    }
  }

  lemma PutBackAges(s: State, i: nat)
    requires Inv(s) && AgesSound(s)
    ensures PutBackStep(s, i).Went? ==> AgesSound(PutBackStep(s, i).s)
  {
    if PutBackStep(s, i).Went? {
      var c := s.calls[i].c;
      assert c in Owned(s.calls[i]);
      DropsOne(s, i, c);
      assert AgeSound(s.objs[c], s.calls, s.maxAlive);
      SettleAges(s, PutBackStep(s, i).s, c, i);
    }
  }

  lemma ReleaseAges(s: State, c: Conn, now: nat, connected: bool)
    requires Inv(s) && AgesSound(s)
    ensures ReleaseStep(s, c, now, connected).Went? ==> AgesSound(ReleaseStep(s, c, now, connected).s)
  {
    if ReleaseStep(s, c, now, connected).Went? {
      assert AgeSound(s.objs[c], s.calls, s.maxAlive) && UsesSound(s.objs[c], s.calls, s.maxRequest);
      AgesAt(s, ReleaseStep(s, c, now, connected).s, c, |s.calls|);
    }
  }

  lemma GetAges(s: State, now: nat, live: set<Conn>)
    requires Inv(s) && AgesSound(s)
    ensures GetStep(s, now, live).Went? ==> AgesSound(GetStep(s, now, live).s)
  {
    if GetStep(s, now, live).Went? {
      var s' := GetStep(s, now, live).s;
      forall x | x in s'.objs ensures AgeSound(s'.objs[x], s'.calls, s.maxAlive) {
        assert AgeSound(s.objs[x], s.calls, s.maxAlive);
        assert s.objs[x].place.Held? ==> s.objs[x].place.i < |s.calls|;
      }
    }
  }

  lemma ConnectAges(s: State, i: nat, ok: bool, created: nat)
    requires Inv(s) && AgesSound(s)
    ensures ConnectStep(s, i, ok, created).Went? ==> AgesSound(ConnectStep(s, i, ok, created).s)
  {
    if ConnectStep(s, i, ok, created).Went? {
      var s' := ConnectStep(s, i, ok, created).s;
      forall x | x in s'.objs ensures AgeSound(s'.objs[x], s'.calls, s.maxAlive) {
        if x in s.objs && (!ok || x != |s.objs|) {
          assert AgeSound(s.objs[x], s.calls, s.maxAlive);
        }
      }
    }
  }

  /** A call goes on with what it has. */
  lemma CallAges(s: State, s': State, i: nat)
    requires AgesSound(s) && i < |s.calls| == |s'.calls| && s'.calls == s.calls[i := s'.calls[i]]
    requires s'.objs == s.objs && s'.maxAlive == s.maxAlive && !s.calls[i].Dropping? && !s'.calls[i].Returning?
    ensures AgesSound(s')
  {
    forall x | x in s'.objs ensures AgeSound(s'.objs[x], s'.calls, s.maxAlive) {
      assert AgeSound(s.objs[x], s.calls, s.maxAlive);
    }
  }

  lemma StepAges(s: State, e: Event)
    requires Inv(s) && AgesSound(s) && Step(s, e).Went?
    ensures AgesSound(Step(s, e).s)
  {
    match e
    case Get(now, live) => GetAges(s, now, live);
    case DeleteInvalid(i) => DeleteInvalidAges(s, i);
    case Subtract(i) => CallAges(s, SubtractStep(s, i).s, i);
    case Connect(i, ok, created) => ConnectAges(s, i, ok, created);
    case CountNew(i) => CallAges(s, CountNewStep(s, i).s, i);
    case HandOut(i) => HandOutAges(s, i);
    case Release(c, now, connected) => ReleaseAges(s, c, now, connected);
    case DeleteReleased(i) => DeleteReleasedAges(s, i);
    case Decrement(i) => CallAges(s, DecrementStep(s, i).s, i);
    case PutBack(i) => PutBackAges(s, i);
  }

  lemma {:induction false} RunAges(s: State, events: seq<Event>)
    requires Inv(s) && AgesSound(s) && Run(s, events).Went?
    ensures Inv(Run(s, events).s) && AgesSound(Run(s, events).s) && Run(s, events).s.maxAlive == s.maxAlive
    decreases |events|
  {
    if events != [] {
      StepKeeps(s, events[0]);
      StepAges(s, events[0]);
      StepLimit(s, events[0]);
      RunAges(Step(s, events[0]).s, events[1..]);
    }
  }

  lemma StepLimit(s: State, e: Event)
    requires Step(s, e).Went?
    ensures Step(s, e).s.maxAlive == s.maxAlive
  {
  }

  /** In every run a connection in the list, and one that has been handed out twice, was kept at a time when its
      lifetime was over. */
  lemma KeptOnlyExpired(maxAlive: nat, maxRequest: nat, events: seq<Event>, c: Conn)
    requires Run(Init(maxAlive, maxRequest), events).Went? && c in Run(Init(maxAlive, maxRequest), events).s.objs
    ensures var o := Run(Init(maxAlive, maxRequest), events).s.objs[c];
            o.place.Pooled? || o.uses >= 2 ==> o.kept.Some? && o.created + maxAlive < o.kept.value
  {
    InitInv(maxAlive, maxRequest);
    RunAges(Init(maxAlive, maxRequest), events);
    var s := Run(Init(maxAlive, maxRequest), events).s;
    assert AgeSound(s.objs[c], s.calls, s.maxAlive);
  }

  /** Getting a connection at time `now`: the one found has reached the end of its lifetime; what is passed over is not
      connected or has not.  As long as the clock does not go back the second never happens, since all that is in
      the list has expired: the age test of getConnection has no effect. */
  lemma TakenOnlyExpired(maxAlive: nat, maxRequest: nat, events: seq<Event>, now: nat, live: set<Conn>)
    requires Run(Init(maxAlive, maxRequest), events).Went?
    ensures GetStep(Run(Init(maxAlive, maxRequest), events).s, now, live).Went?
    ensures var s := Run(Init(maxAlive, maxRequest), events).s;
            var call := GetStep(s, now, live).s.calls[|s.calls|];
            && call.Fetching?
            && (call.found.Some? ==>
                  && call.found.value in s.objs && call.found.value in live
                  && s.objs[call.found.value].created + maxAlive <= now)
            && (forall c :: c in call.left ==> c in s.objs && (c !in live || s.objs[c].created + maxAlive > now))
            && (forall c :: c in call.left && s.objs[c].kept.Some? && s.objs[c].kept.value <= now ==> c !in live)
  {
    InitInv(maxAlive, maxRequest);
    RunAges(Init(maxAlive, maxRequest), events);
    GetExpired(Run(Init(maxAlive, maxRequest), events).s, now, live);
  }

  lemma GetExpired(s: State, now: nat, live: set<Conn>)
    requires Inv(s) && AgesSound(s)
    ensures GetStep(s, now, live).Went?
    ensures var call := GetStep(s, now, live).s.calls[|s.calls|];
            && call.Fetching? && (call.found.Some? ==> Usable(s, call.found.value, now, live))
            && (forall c :: c in call.left ==> c in s.objs && !Usable(s, c, now, live))
            && (forall c :: c in call.left && s.objs[c].kept.Some? && s.objs[c].kept.value <= now ==> c !in live)
  {
    GetKeeps(s, now, live);
    var k := FirstUsable(s, now, live, 0);
    forall c | c in s.conns[..k] ensures c in s.objs && !Usable(s, c, now, live) {
      assert c in s.conns;
    }
    forall c | c in s.conns[..k] && s.objs[c].kept.Some? && s.objs[c].kept.value <= now ensures c !in live {
      assert AgeSound(s.objs[c], s.calls, s.maxAlive);
    }
  }

  /** The calls that make a connection, hand it out, and release it at time `now`, still connected. */
  function UseOnce(created: nat, now: nat): seq<Event> {
    [Get(0, {})] + ([Subtract(0)] + ([Connect(0, true, created)] + ([CountNew(0)] + ([HandOut(0)] +
    ([Release(0, now, true)] + [])))))
  }

  lemma RunStep(s: State, e: Event, rest: seq<Event>)
    ensures Run(s, [e] + rest) == if Step(s, e).Went? then Run(Step(s, e).s, rest) else Step(s, e)
  {
    assert ([e] + rest)[1..] == rest;
  }

  /** A connected connection that may be used again is deleted when it is released within its lifetime, and kept when
      it is released after it. */
  lemma AgeTestInverted(maxAlive: nat, maxRequest: nat, created: nat, now: nat)
    requires maxRequest >= 2
    ensures var o := Run(Init(maxAlive, maxRequest), UseOnce(created, now));
            && o.Went? && |o.s.calls| == 2
            && o.s.calls[1] == if now <= created + maxAlive then Dropping(0) else Returning(0)
  {
    var s0 := Init(maxAlive, maxRequest);
    var release := [Release(0, now, true)] + [];
    var make := [Connect(0, true, created)] + ([CountNew(0)] + ([HandOut(0)] + release));
    var s2 := NothingFound(s0, make);
    var s3 := MadeAndHandedOut(s2, created, release);
    RunStep(s3, Release(0, now, true), []);
  }

  lemma NothingFound(s: State, rest: seq<Event>) returns (s': State)
    requires s.conns == [] && s.calls == [] && s.objs == map[]
    ensures Run(s, [Get(0, {})] + ([Subtract(0)] + rest)) == Run(s', rest)
    ensures s' == s.(calls := [Settled(None)])
  {
    RunStep(s, Get(0, {}), [Subtract(0)] + rest);
    var s1 := GetStep(s, 0, {}).s;
    assert s1.objs == map[] && s1 == s.(calls := [Fetching([], 0, None)]);
    RunStep(s1, Subtract(0), rest);
    s' := SubtractStep(s1, 0).s;
  }

  lemma MadeAndHandedOut(s: State, created: nat, rest: seq<Event>) returns (s': State)
    requires s.calls == [Settled(None)] && s.objs == map[]
    ensures Run(s, [Connect(0, true, created)] + ([CountNew(0)] + ([HandOut(0)] + rest))) == Run(s', rest)
    ensures s' == s.(calls := [Closed], total := s.total + 1, objs := map[0 := Obj(created, 0, 1, None, Out)])
  {
    RunStep(s, Connect(0, true, created), [CountNew(0)] + ([HandOut(0)] + rest));
    assert |s.objs| == 0;
    var s1 := s.(calls := [Made(0)], objs := map[0 := Obj(created, 0, 0, None, Held(0))]);
    assert ConnectStep(s, 0, true, created) == Went(s1);
    RunStep(s1, CountNew(0), [HandOut(0)] + rest);
    var s2 := s1.(calls := [Settled(Some(0))], total := s.total + 1);
    assert CountNewStep(s1, 0) == Went(s2);
    RunStep(s2, HandOut(0), rest);
    s' := HandOutStep(s2, 0).s;
  }

  // ---- what is put back

  /** The last time that connection c is given back by a user. */
  function LastRelease(events: seq<Event>, c: Conn): (r: Option<Event>)
    ensures r.Some? ==> r.value.Release? && r.value.c == c && r.value in events
    decreases |events|
  {
    if events == [] then None
    else
      var later := LastRelease(events[1..], c);
      if later.Some? then later
      else if events[0].Release? && events[0].c == c then Some(events[0])
      else None
  }

  /** The connection is in the list, or ReleasePtr is about to put it there. */
  ghost predicate PutBackSoon(s: State, c: Conn) {
    c in s.conns || exists i :: 0 <= i < |s.calls| && s.calls[i] == Returning(c)
  }

  /** A release after which the connection may be used again: it is connected, its lifetime is over, as the code has it,
      and it has been used less often than allowed. */
  predicate Acceptable(s: State, e: Event, c: Conn) {
    && e.Release? && e.connected
    && c in s.objs && Expired(s.objs[c], s.maxAlive, e.now) && s.objs[c].requests < s.maxRequest
  }

  /** A connection that a user has is neither in the list nor on its way there. */
  lemma OutIsOut(s: State, c: Conn)
    requires Inv(s) && c in s.objs && s.objs[c].place.Out?
    ensures !PutBackSoon(s, c)
  {
    forall i | 0 <= i < |s.calls| ensures s.calls[i] != Returning(c) {
      assert s.calls[i] == Returning(c) ==> c in Owned(s.calls[i]);
    }
  }

  /** ReleasePtr puts a connection back exactly when that is acceptable, and drops it otherwise. */
  lemma ReleaseExact(s: State, c: Conn, now: nat, connected: bool)
    requires Inv(s) && Step(s, Release(c, now, connected)).Went?
    ensures var e := Release(c, now, connected);
            var s' := Step(s, e).s;
            && (PutBackSoon(s', c) <==> Acceptable(s', e, c))
            && s'.calls[|s'.calls| - 1] == if Acceptable(s', e, c) then Returning(c) else Dropping(c)
  {
    OutIsOut(s, c);
    var s' := Step(s, Release(c, now, connected)).s;
    var n := |s.calls|;
    assert |s'.calls| == n + 1 && s'.conns == s.conns;
    assert s'.calls[n] == if Acceptable(s', Release(c, now, connected), c) then Returning(c) else Dropping(c);
    assert s'.calls[..n] == s.calls;
  }

  /** Only a release brings a connection back, or counts its use. */
  lemma StepReuse(s: State, e: Event, c: Conn)
    requires Step(s, e).Went? && !(e.Release? && e.c == c)
    ensures PutBackSoon(Step(s, e).s, c) ==> PutBackSoon(s, c)
  {
    var s' := Step(s, e).s;
    if PutBackSoon(s', c) && c !in s'.conns {
      var i :| 0 <= i < |s'.calls| && s'.calls[i] == Returning(c);
      assert i < |s.calls| && s.calls[i] == Returning(c);
    } else if c in s'.conns && c !in s.conns {
      assert e.PutBack? && s.calls[e.i] == Returning(c);
    }
  }

  lemma StepSame(s: State, e: Event, c: Conn)
    requires Inv(s) && Step(s, e).Went? && !(e.Release? && e.c == c) && c in s.objs
    ensures var s' := Step(s, e).s;
            && c in s'.objs && s'.objs[c].created == s.objs[c].created && s'.objs[c].requests == s.objs[c].requests
            && s'.maxAlive == s.maxAlive && s'.maxRequest == s.maxRequest
  {
  }

  lemma LimitsSame(s: State, e: Event)
    requires Step(s, e).Went?
    ensures Step(s, e).s.maxAlive == s.maxAlive && Step(s, e).s.maxRequest == s.maxRequest
  {
  }

  lemma {:induction false} NoReleaseSame(s: State, events: seq<Event>, c: Conn)
    requires Inv(s) && Run(s, events).Went? && LastRelease(events, c).None? && c in s.objs
    ensures var s' := Run(s, events).s;
            && c in s'.objs && s'.objs[c].created == s.objs[c].created && s'.objs[c].requests == s.objs[c].requests
            && s'.maxAlive == s.maxAlive && s'.maxRequest == s.maxRequest
    decreases |events|
  {
    if events != [] {
      StepKeeps(s, events[0]);
      StepSame(s, events[0], c);
      NoReleaseSame(Step(s, events[0]).s, events[1..], c);
    }
  }

  lemma {:induction false} RunReuse(s: State, events: seq<Event>, c: Conn)
    requires Inv(s) && Run(s, events).Went? && PutBackSoon(Run(s, events).s, c)
    ensures var last := LastRelease(events, c);
            if last.Some? then Acceptable(Run(s, events).s, last.value, c) else PutBackSoon(s, c)
    decreases |events|
  {
    if events != [] {
      var s1 := Step(s, events[0]).s;
      StepKeeps(s, events[0]);
      RunReuse(s1, events[1..], c);
      if LastRelease(events[1..], c).None? {
        if events[0].Release? && events[0].c == c {
          ReleaseExact(s, c, events[0].now, events[0].connected);
          NoReleaseSame(s1, events[1..], c);
        } else {
          StepReuse(s, events[0], c);
        }
      }
    }
  }

  /** Over every run: a connection in the list was connected when its last user gave it back, its lifetime was over
      then, as the code has it, and it has been used less often than allowed. */
  lemma PooledWasConnected(maxAlive: nat, maxRequest: nat, events: seq<Event>, c: Conn)
    requires Run(Init(maxAlive, maxRequest), events).Went? && c in Run(Init(maxAlive, maxRequest), events).s.conns
    ensures var s, last := Run(Init(maxAlive, maxRequest), events).s, LastRelease(events, c);
            && c in s.objs && last.Some? && last.value.connected && s.objs[c].created + maxAlive < last.value.now
            && s.objs[c].requests < maxRequest
  {
    InitInv(maxAlive, maxRequest);
    RunReuse(Init(maxAlive, maxRequest), events, c);
    RunLimits(Init(maxAlive, maxRequest), events);
  }

  lemma {:induction false} RunLimits(s: State, events: seq<Event>)
    requires Run(s, events).Went?
    ensures Run(s, events).s.maxAlive == s.maxAlive && Run(s, events).s.maxRequest == s.maxRequest
    decreases |events|
  {
    if events != [] {
      LimitsSame(s, events[0]);
      RunLimits(Step(s, events[0]).s, events[1..]);
    }
  }

  /** The list is a queue: getConnection takes a first part of it, ReleasePtr puts one connection at the end, and
      nothing else changes it; so connections are looked at in the order in which they were put back. */
  lemma ListIsQueue(s: State, e: Event)
    requires Step(s, e).Went?
    ensures var conns' := Step(s, e).s.conns;
            match e
            case Get(now, live) =>
              exists m :: 0 <= m <= |s.conns| && conns' == s.conns[m..]
                && (forall k :: 0 <= k < m - 1 ==> !Usable(s, s.conns[k], now, live))
                && (m < |s.conns| ==> m > 0 && Usable(s, s.conns[m - 1], now, live))
            case PutBack(i) => i < |s.calls| && s.calls[i].Returning? && conns' == s.conns + [s.calls[i].c]
            case _ => conns' == s.conns
  {
  }
}
