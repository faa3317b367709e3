/** Safety of the timer machine over every run. */
module TimerRuns {
  import opened Options
  import opened Timers

  datatype Op =
    | Tick(dt: nat)
    | Add(id: TimerId, ms: nat, cb: nat, recurring: bool, now: nat)
    | CancelOp(id: TimerId)
    | RefreshOp(id: TimerId)
    | ResetOp(id: TimerId, ms: nat, fromNow: bool)
    | GetNext
    | List(now: nat, probe: TimerId)

  /** A new timer has a new address, a handle refers to a timer, a clock reading is not from the future. */
  ghost predicate Enabled(s: State, op: Op) {
    match op
    case Tick(_) => true
    case Add(id, _, _, _, now) => id !in s.objs && now <= s.clock
    case CancelOp(id) => id in s.objs
    case RefreshOp(id) => id in s.objs
    case ResetOp(id, _, _) => id in s.objs
    case GetNext => true
    case List(now, _) => now <= s.clock
  }

  /** The step sees no clock rollover. */
  ghost predicate Steady(s: State, op: Op) {
    op.List? ==> !DetectRollover(s.previous, op.now)
  }

  ghost function Init(clock: nat): State {
    State(map[], [], false, clock, clock, Never, [])
  }

  /** A timer in the set, or taken out by listExpiredCb and not yet handled. */
  ghost predicate Live(s: State, out: seq<TimerId>, id: TimerId) {
    id in s.order || id in out
  }

  /** The set is in order; `out` holds distinct timers that are not in it. */
  ghost predicate Shape(s: State, out: seq<TimerId>) {
    && Sorted(s.objs, s.order)
    && (forall i :: 0 <= i < |out| ==> out[i] in s.objs && out[i] !in s.order)
    && (forall i, j :: 0 <= i < j < |out| ==> out[i] != out[j])
  }

  /** In the set exactly when the callback is set; started at a time that has passed. */
  ghost predicate Armed(s: State, out: seq<TimerId>) {
    forall id :: id in s.objs ==>
      && (Live(s, out, id) <==> s.objs[id].cb.Some?)
      && s.objs[id].ms <= s.objs[id].next
      && (Live(s, out, id) ==> s.objs[id].next <= s.objs[id].ms + s.clock)
  }

  /** Nobody needs to be woken: no timer is due before the earliest deadline last reported. */
  ghost predicate Watched(s: State, out: seq<TimerId>) {
    !s.tickled ==> forall id :: id in s.objs && Live(s, out, id) ==> s.seen.At? && s.seen.t <= s.objs[id].next
  }

  /** The last thing that can happen to a timer. */
  ghost predicate Final(s: State, e: Entry)
    requires e.id in s.objs
  {
    e.Cancelled? || !s.objs[e.id].recurring
  }

  ghost predicate History(s: State, out: seq<TimerId>) {
    && (forall i :: 0 <= i < |s.log| ==> s.log[i].id in s.objs)
    && (forall i :: 0 <= i < |s.log| && s.log[i].Fired? ==>
          s.log[i].cb.Some? && s.log[i].due <= s.log[i].now <= s.clock)
    && (forall i :: 0 <= i < |s.log| && Final(s, s.log[i]) ==> !Live(s, out, s.log[i].id))
    && (forall i, j :: 0 <= i < j < |s.log| && Final(s, s.log[i]) ==> s.log[j].id != s.log[i].id)
    && (forall id :: id in s.objs && !Live(s, out, id) ==> Ended(s, id))
  }

  ghost predicate Ended(s: State, id: TimerId)
    requires forall i :: 0 <= i < |s.log| ==> s.log[i].id in s.objs
  {
    exists i :: 0 <= i < |s.log| && s.log[i].id == id && Final(s, s.log[i])
  }

  ghost predicate InvX(s: State, out: seq<TimerId>) {
    Shape(s, out) && Armed(s, out) && Watched(s, out) && History(s, out)
  }

  ghost predicate Inv(s: State) {
    InvX(s, [])
  }

  /** None: undefined behaviour, or a step that the code cannot take here. */
  ghost function Step(s: State, op: Op): Option<State> {
    if !(Known(s.objs, s.order) && Enabled(s, op)) then None
    else
      match op
      case Tick(dt) => Some(s.(clock := s.clock + dt))
      case Add(id, ms, cb, recurring, now) => Some(AddTimer(s, id, ms, cb, recurring, now).0)
      case CancelOp(id) => (match Cancel(s, id) case None => None case Some(r) => Some(r.0))
      case RefreshOp(id) => Some(Refresh(s, id).0)
      case ResetOp(id, ms, fromNow) =>
        if s.objs[id].ms <= s.objs[id].next then Some(Reset(s, id, ms, fromNow).0) else None
      case GetNext => Some(GetNextTimer(s).0)
      case List(now, probe) => Some(ListExpired(s, now, probe))
  }

  ghost function Run(s: State, ops: seq<Op>): Option<State>
    decreases |ops|
  {
    if ops == [] then Some(s)
    else
      match Step(s, ops[0])
      case None => None
      case Some(t) => Run(t, ops[1..])
  }

  /** Every operation of the run is one the program may perform in the state it finds, and the clock is steady. */
  ghost predicate Allowed(s: State, ops: seq<Op>)
    decreases |ops|
  {
    ops == [] ||
    (&& Enabled(s, ops[0]) && Steady(s, ops[0])
     && (Step(s, ops[0]).Some? ==> Allowed(Step(s, ops[0]).value, ops[1..])))
  }

  lemma InitInv(clock: nat)
    ensures Inv(Init(clock))
  {
  }

  /** The history stands when no timer that had ended is live again and none has ended since. */
  lemma HistoryFrame(s: State, out: seq<TimerId>, s': State, out': seq<TimerId>)
    requires History(s, out) && s'.log == s.log && s.clock <= s'.clock
    requires forall x :: x in s.objs ==> x in s'.objs && s'.objs[x].recurring == s.objs[x].recurring
    requires forall x :: x in s.objs ==> (Live(s', out', x) <==> Live(s, out, x))
    requires forall x :: x in s'.objs && x !in s.objs ==> Live(s', out', x)
    ensures History(s', out')
  {
    forall id | id in s'.objs && !Live(s', out', id) ensures Ended(s', id) {
      assert Ended(s, id);
      var i :| 0 <= i < |s.log| && s.log[i].id == id && Final(s, s.log[i]);
      assert Final(s', s'.log[i]);
    }
  }

  lemma AddKeeps(s: State, id: TimerId, ms: nat, cb: nat, recurring: bool, now: nat)
    requires Inv(s) && id !in s.objs && now <= s.clock
    ensures Inv(AddTimer(s, id, ms, cb, recurring, now).0)
  {
    var s' := AddTimer(s, id, ms, cb, recurring, now).0;
    SortedFrame(s.objs, s'.objs, s.order);
    InsertSorted(s'.objs, s.order, id);
    HistoryFrame(s, [], s', []);
  }

  /** The unchecked erase always has an element to erase. */
  lemma CancelKeeps(s: State, id: TimerId)
    requires Inv(s) && id in s.objs
    ensures Cancel(s, id).Some? && Inv(Cancel(s, id).value.0)
    ensures Cancel(s, id).value.1 <==> id in s.order
  {
    if s.objs[id].cb.Some? {
      assert Live(s, [], id);
      var objs := s.objs[id := s.objs[id].(cb := None)];
      SortedFrame(s.objs, objs, s.order);
      FindIff(objs, s.order, id);
      RemoveSorted(objs, s.order, Find(objs, s.order, id));
      CancelledOne(s, Cancel(s, id).value.0, id);
    }
  }

  lemma CancelledOne(s: State, s': State, id: TimerId)
    requires Inv(s) && id in s.order && id in s.objs
    requires s' == s.(objs := s.objs[id := s.objs[id].(cb := None)], order := s'.order, log := s.log + [Cancelled(id)])
    requires Sorted(s'.objs, s'.order) && forall x :: x in s'.order <==> x in s.order && x != id
    ensures Inv(s')
  {
    assert forall x :: Live(s', [], x) <==> Live(s, [], x) && x != id;
    LogOne(s, [], s', [], Cancelled(id));
  }

  /** The history after the last event of a live timer. */
  lemma LogOne(s: State, out: seq<TimerId>, s': State, out': seq<TimerId>, e: Entry)
    requires History(s, out) && e.id in s.objs && Live(s, out, e.id)
    requires s'.log == s.log + [e] && s'.clock == s.clock && s'.objs.Keys == s.objs.Keys
    requires forall x :: x in s.objs ==> s'.objs[x].recurring == s.objs[x].recurring
    requires forall x :: x in s.objs ==> (Live(s', out', x) <==> Live(s, out, x) && !(x == e.id && Final(s, e)))
    requires e.Fired? ==> e.cb.Some? && e.due <= e.now <= s.clock
    ensures History(s', out')
  {
    var n := |s.log|;
    assert s'.log[n] == e && forall i :: 0 <= i < n ==> s'.log[i] == s.log[i];
    forall id | id in s'.objs && !Live(s', out', id) ensures Ended(s', id) {
      if Live(s, out, id) {
        assert s'.log[n].id == id && Final(s', s'.log[n]);
      } else {
        assert Ended(s, id);
        var i :| 0 <= i < |s.log| && s.log[i].id == id && Final(s, s.log[i]);
        assert Final(s', s'.log[i]);
      }
    }
  }

  /** Erasing a timer, changing it and inserting it again: the set is in order and has the same members. */
  lemma Relocate(objs: Objects, order: seq<TimerId>, id: TimerId, t: Timer)
    requires Sorted(objs, order) && id in order && id in objs
    ensures Find(objs, order, id) < |order|
    ensures Known(objs[id := t], RemoveAt(order, Find(objs, order, id)))
    ensures var objs' := objs[id := t];
            var r := Insert(objs', RemoveAt(order, Find(objs, order, id)), id);
            && Sorted(objs', r)
            && (forall x :: x in r <==> x in order)
            && objs'[r[0]].next <= t.next
  {
    FindIff(objs, order, id);
    var k, objs' := Find(objs, order, id), objs[id := t];
    var rest := RemoveAt(order, k);
    RemoveSorted(objs, order, k);
    SortedFrame(objs, objs', rest);
    InsertSorted(objs', rest, id);
    var r := Insert(objs', rest, id);
    var i :| 0 <= i < |r| && r[i] == id;
    if i > 0 {
      assert Before(objs', r[0], r[i]);
    }
  }

  /** refresh only postpones: the new deadline is not before the old one. */
  lemma RefreshKeeps(s: State, id: TimerId)
    requires Inv(s) && id in s.objs
    ensures Inv(Refresh(s, id).0)
    ensures Refresh(s, id).1 <==> id in s.order
    ensures Refresh(s, id).1 ==> Refresh(s, id).0.objs[id].next >= s.objs[id].next
  {
    FindIff(s.objs, s.order, id);
    if id in s.order {
      var s' := Refresh(s, id).0;
      Relocate(s.objs, s.order, id, s'.objs[id]);
      assert forall x :: Live(s', [], x) <==> Live(s, [], x);
      HistoryFrame(s, [], s', []);
    }
  }

  /** What reset does to a pending timer: it is pending still, with the new period and deadline, and m_tickled is
      raised whenever the timer is then the earliest, so also when its deadline was brought forward past the others. */
  ghost predicate WasReset(s: State, id: TimerId, ms: nat, fromNow: bool, s': State)
    requires id in s.objs
  {
    && id in s'.order && id in s'.objs && s'.objs[id].ms == ms
    && s'.objs[id].next == (if fromNow then s.clock else s.objs[id].next - s.objs[id].ms) + ms
    && (s'.tickled <==> s.tickled || s'.order[0] == id)
    && ((forall x :: x in s.order && x in s.objs && x != id ==> s'.objs[id].next < s.objs[x].next) ==> s'.tickled)
  }

  /** reset may bring a deadline forward; it then goes through the same front check as a new timer. */
  lemma ResetKeeps(s: State, id: TimerId, ms: nat, fromNow: bool)
    requires Inv(s) && id in s.objs
    ensures Inv(Reset(s, id, ms, fromNow).0)
    ensures Reset(s, id, ms, fromNow).1 <==> id in s.order || (ms == s.objs[id].ms && !fromNow)
    ensures id in s.order && (ms != s.objs[id].ms || fromNow) ==>
              WasReset(s, id, ms, fromNow, Reset(s, id, ms, fromNow).0)
    ensures id !in s.order ==> Reset(s, id, ms, fromNow).0 == s
  {
    FindIff(s.objs, s.order, id);
    if id in s.order {
      assert Live(s, [], id);
      if ms != s.objs[id].ms || fromNow {
        var s' := Reset(s, id, ms, fromNow).0;
        var t := s'.objs[id];
        Relocate(s.objs, s.order, id, t);
        ResetMoved(s, id, t, s');
      }
    }
  }

  lemma ResetMoved(s: State, id: TimerId, t: Timer, s': State)
    requires Inv(s) && id in s.objs && id in s.order
    requires s' == s.(objs := s.objs[id := t], order := s'.order,
                      tickled := s.tickled || s'.order == [] || s'.order[0] == id)
    requires t.recurring == s.objs[id].recurring && t.cb.Some? && t.ms <= t.next <= t.ms + s.clock
    requires Sorted(s'.objs, s'.order) && (forall x :: x in s'.order <==> x in s.order)
    requires s'.order != [] ==> s'.objs[s'.order[0]].next <= t.next
    ensures Inv(s')
  {
    assert forall x :: Live(s', [], x) <==> Live(s, [], x);
    HistoryFrame(s, [], s', []);
    if !s'.tickled {
      var x := s'.order[0];
      assert x in s'.order && Live(s, [], x);
    }
  }

  lemma GetNextKeeps(s: State)
    requires Inv(s)
    ensures Inv(GetNextTimer(s).0)
  {
    var s' := GetNextTimer(s).0;
    HistoryFrame(s, [], s', []);
    forall id | id in s.order ensures s'.seen.At? && s'.seen.t <= s.objs[id].next {
      var i :| 0 <= i < |s.order| && s.order[i] == id;
      if i > 0 {
        assert Before(s.objs, s.order[0], s.order[i]);
      }
    }
  }

  /** Handling one expired timer: it fires, and re-arming only postpones. */
  lemma RearmOneKeeps(s: State, out: seq<TimerId>, now: nat)
    requires InvX(s, out) && out != [] && s.objs[out[0]].next <= now <= s.clock
    ensures InvX(RearmOne(s, out[0], now), out[1..])
    ensures forall i :: 1 <= i < |out| ==> RearmOne(s, out[0], now).objs[out[i]].next == s.objs[out[i]].next
  {
    var id, rest := out[0], out[1..];
    var t := s.objs[id];
    var s' := RearmOne(s, id, now);
    RearmShape(s, out, now);
    assert Live(s, out, id);
    assert Armed(s', rest) && Watched(s', rest);
    LogOne(s, out, s', rest, Fired(id, t.cb, t.next, now));
  }

  lemma RearmShape(s: State, out: seq<TimerId>, now: nat)
    requires Shape(s, out) && out != []
    ensures Shape(RearmOne(s, out[0], now), out[1..])
    ensures forall x :: Live(RearmOne(s, out[0], now), out[1..], x)
                 <==> Live(s, out, x) && !(x == out[0] && !s.objs[out[0]].recurring)
    ensures forall x :: x in s.objs && x != out[0] ==> RearmOne(s, out[0], now).objs[x] == s.objs[x]
  {
    var id, rest := out[0], out[1..];
    var s' := RearmOne(s, id, now);
    assert forall x :: x in out <==> x == id || x in rest;
    assert id !in rest;
    SortedFrame(s.objs, s'.objs, s.order);
    if s.objs[id].recurring {
      InsertSorted(s'.objs, s.order, id);
    }
  }

  lemma {:induction false} RearmKeeps(s: State, out: seq<TimerId>, now: nat)
    requires InvX(s, out) && now <= s.clock && forall i :: 0 <= i < |out| ==> s.objs[out[i]].next <= now
    ensures Inv(Rearm(s, out, now))
    decreases |out|
  {
    if out != [] {
      RearmOneKeeps(s, out, now);
      RearmKeeps(RearmOne(s, out[0], now), out[1..], now);
    }
  }

  /** Taking the due timers off the front. */
  lemma SplitKeeps(s: State, k: nat, previous: nat)
    requires Inv(s) && k <= |s.order|
    ensures InvX(s.(order := s.order[k..], previous := previous), s.order[..k])
  {
    var s' := s.(order := s.order[k..], previous := previous);
    var out := s.order[..k];
    assert s.order == out + s'.order;
    forall i, j | 0 <= i < j < |s.order| ensures s.order[i] != s.order[j] {
      assert Before(s.objs, s.order[i], s.order[j]);
    }
    assert forall x :: Live(s', out, x) <==> Live(s, [], x);
    HistoryFrame(s, [], s', out);
  }

  lemma ListKeeps(s: State, now: nat, probe: TimerId)
    requires Inv(s) && now <= s.clock && !DetectRollover(s.previous, now)
    ensures Inv(ListExpired(s, now, probe))
  {
    if s.order == [] {
    } else if s.objs[s.order[0]].next > now {
      HistoryFrame(s, [], s.(previous := now), []);
    } else {
      ExpiredAreDue(s, now, probe);
      var k := ExpiredCount(s, now, probe);
      SplitKeeps(s, k, now);
      RearmKeeps(s.(order := s.order[k..], previous := now), s.order[..k], now);
    }
  }

  lemma TickKeeps(s: State, dt: nat)
    requires Inv(s)
    ensures Inv(s.(clock := s.clock + dt))
  {
    HistoryFrame(s, [], s.(clock := s.clock + dt), []);
  }

  /** The steps through a handle. */
  lemma HandleKeeps(s: State, op: Op)
    requires Inv(s) && Enabled(s, op) && (op.CancelOp? || op.RefreshOp? || op.ResetOp?)
    ensures Step(s, op).Some? && Inv(Step(s, op).value)
  {
    match op
    case CancelOp(id) => CancelKeeps(s, id);
    case RefreshOp(id) => RefreshKeeps(s, id);
    case ResetOp(id, ms, fromNow) => ResetKeeps(s, id, ms, fromNow);
  }

  /** The steps that put timers in or take them out. */
  lemma EntryKeeps(s: State, op: Op)
    requires Inv(s) && Enabled(s, op) && Steady(s, op) && (op.Add? || op.List?)
    ensures Step(s, op).Some? && Inv(Step(s, op).value)
  {
    if op.Add? {
      AddKeeps(s, op.id, op.ms, op.cb, op.recurring, op.now);
    } else {
      ListKeeps(s, op.now, op.probe);
    }
  }

  lemma StepKeeps(s: State, op: Op)
    requires Inv(s) && Enabled(s, op) && Steady(s, op)
    ensures Step(s, op).Some? && Inv(Step(s, op).value)
  {
    match op
    case Tick(dt) => TickKeeps(s, dt);
    case Add(_, _, _, _, _) => EntryKeeps(s, op);
    case GetNext => GetNextKeeps(s);
    case List(_, _) => EntryKeeps(s, op);
    case _ => HandleKeeps(s, op);
  }

  lemma {:induction false} RunKeeps(s: State, ops: seq<Op>)
    requires Inv(s) && Allowed(s, ops)
    ensures Run(s, ops).Some? && Inv(Run(s, ops).value)
    decreases |ops|
  {
    if ops != [] {
      StepKeeps(s, ops[0]);
      RunKeeps(Step(s, ops[0]).value, ops[1..]);
    }
  }

  // ---- the main results, for every run from the start

  /** No step is undefined; a timer is in the set exactly while its callback is set; the set is strictly ordered. */
  lemma SetStaysConsistent(clock: nat, ops: seq<Op>)
    requires Allowed(Init(clock), ops)
    ensures Run(Init(clock), ops).Some?
    ensures var s := Run(Init(clock), ops).value;
            && (forall i, j :: 0 <= i < j < |s.order| ==>
                  s.order[i] in s.objs && s.order[j] in s.objs && Before(s.objs, s.order[i], s.order[j]))
            && (forall id :: id in s.objs ==> (id in s.order <==> s.objs[id].cb.Some?))
  {
    InitInv(clock);
    RunKeeps(Init(clock), ops);
    var s := Run(Init(clock), ops).value;
    forall id | id in s.objs ensures id in s.order <==> s.objs[id].cb.Some? {
      assert Live(s, [], id) <==> id in s.order;
    }
  }

  /** No missed deadline: while m_tickled is false, no pending timer is due before the earliest deadline that the
      last getNextTimer saw; and if that call saw none, there is none. */
  lemma NoMissedDeadline(clock: nat, ops: seq<Op>)
    requires Allowed(Init(clock), ops)
    ensures Run(Init(clock), ops).Some?
    ensures var s := Run(Init(clock), ops).value;
            !s.tickled ==> forall id :: id in s.order ==> id in s.objs && s.seen.At? && s.seen.t <= s.objs[id].next
  {
    InitInv(clock);
    RunKeeps(Init(clock), ops);
    var s := Run(Init(clock), ops).value;
    forall id | id in s.order && !s.tickled ensures id in s.objs && s.seen.At? && s.seen.t <= s.objs[id].next {
      var i :| 0 <= i < |s.order| && s.order[i] == id;
      assert Live(s, [], id);
    }
  }

  /** A timer never fires early; nothing happens to it after a successful cancel; a one-shot timer fires at most
      once, and then is not cancelled either. */
  lemma FiringIsSafe(clock: nat, ops: seq<Op>)
    requires Allowed(Init(clock), ops)
    ensures Run(Init(clock), ops).Some?
    ensures var s := Run(Init(clock), ops).value;
            && (forall i :: 0 <= i < |s.log| && s.log[i].Fired? ==> s.log[i].due <= s.log[i].now <= s.clock)
            && (forall i, j :: 0 <= i < j < |s.log| && s.log[i].Cancelled? ==> s.log[j].id != s.log[i].id)
            && (forall i, j :: 0 <= i < j < |s.log| && s.log[i].id in s.objs && !s.objs[s.log[i].id].recurring
                  ==> s.log[j].id != s.log[i].id)
  {
    InitInv(clock);
    RunKeeps(Init(clock), ops);
    var s := Run(Init(clock), ops).value;
    forall i, j | 0 <= i < j < |s.log| && s.log[i].id == s.log[j].id
      ensures s.log[i].id in s.objs && !Final(s, s.log[i])
    {
    }
  }

  /** Two calls of listExpiredCb read the clock, at 105 and at 110, and take the lock in the other order.  Within the
      first hour of the clock that step back of 5 counts as a rollover, and a timer due at 150 fires. */
  lemma EarlyFire()
    ensures var r := Run(Init(100), [Add(1, 50, 7, false, 100), Tick(10), List(110, 0), List(105, 0)]);
            r.Some? && r.value.clock == 110 && r.value.log == [Fired(1, Some(7), 150, 105)]
  {
    var ops := [Add(1, 50, 7, false, 100), Tick(10), List(110, 0), List(105, 0)];
    var s1, s2, s3 := OnePending(100, 100), OnePending(100, 110), OnePending(110, 110);
    EarlyAdd();
    EarlyTick();
    var s4 := EarlyTake();
    assert ops[1..][1..] == ops[2..] && ops[2..][1..] == ops[3..] && ops[3..][1..] == [];
    assert Run(s4, []) == Some(s4);
    assert Run(s3, ops[3..]) == Some(s4);
    assert Run(s2, ops[2..]) == Some(s4);
    assert Run(s1, ops[1..]) == Some(s4);
  }

  /** The timer due at 150 is pending. */
  ghost function OnePending(previous: nat, clock: nat): State {
    State(map[1 := Timer(false, 50, 150, Some(7))], [1], true, previous, clock, Never, [])
  }

  lemma EarlyAdd()
    ensures Step(Init(100), Add(1, 50, 7, false, 100)) == Some(OnePending(100, 100))
  {
    var objs := map[1 := Timer(false, 50, 150, Some(7))];
    assert Insert(objs, [], 1) == [1];
  }

  lemma EarlyTick()
    ensures Step(OnePending(100, 100), Tick(10)) == Some(OnePending(100, 110))
    ensures Step(OnePending(100, 110), List(110, 0)) == Some(OnePending(110, 110))
  {
    assert Known(OnePending(100, 100).objs, OnePending(100, 100).order);
  }

  lemma EarlyTake() returns (t: State)
    ensures Step(OnePending(110, 110), List(105, 0)) == Some(t)
    ensures t.clock == 110 && t.log == [Fired(1, Some(7), 150, 105)]
  {
    var s := OnePending(110, 110);
    var out := s.(order := [], previous := 105);
    t := RearmOne(out, 1, 105);
    assert s.order[1..] == [] && s.order[..1] == [1] && [1][1..] == [];
    assert Rearm(t, [], 105) == t;
    assert Rearm(out, [1], 105) == t;
  }

  ghost function Pending(s: State): set<TimerId> { set i | 0 <= i < |s.order| :: s.order[i] }

  ghost function CancelledIds(s: State): set<TimerId> {
    set i | 0 <= i < |s.log| && s.log[i].Cancelled? :: s.log[i].id
  }

  ghost function FiredOut(s: State): set<TimerId> {
    set i | 0 <= i < |s.log| && s.log[i].Fired? && s.log[i].id in s.objs && !s.objs[s.log[i].id].recurring ::
      s.log[i].id
  }

  /** added = pending + fired + cancelled. */
  lemma Conservation(clock: nat, ops: seq<Op>)
    requires Allowed(Init(clock), ops)
    ensures Run(Init(clock), ops).Some?
    ensures var s := Run(Init(clock), ops).value;
            |s.objs| == |s.order| + |FiredOut(s)| + |CancelledIds(s)|
  {
    InitInv(clock);
    RunKeeps(Init(clock), ops);
    Partition(Run(Init(clock), ops).value);
  }

  lemma Partition(s: State)
    requires Inv(s)
    ensures |s.objs| == |s.order| + |FiredOut(s)| + |CancelledIds(s)|
  {
    var p, f, c := Pending(s), FiredOut(s), CancelledIds(s);
    PendingSize(s.objs, s.order);
    Covered(s);
    Apart(s);
    assert |p + f| == |p| + |f|;
    assert |p + f + c| == |p + f| + |c|;
  }

  lemma Covered(s: State)
    requires Inv(s)
    ensures s.objs.Keys == Pending(s) + FiredOut(s) + CancelledIds(s)
  {
    forall id | id in s.objs.Keys ensures id in Pending(s) + FiredOut(s) + CancelledIds(s) {
      if id !in s.order {
        assert !Live(s, [], id) && Ended(s, id);
        var i :| 0 <= i < |s.log| && s.log[i].id == id && Final(s, s.log[i]);
      }
    }
  }

  lemma Apart(s: State)
    requires Inv(s)
    ensures Pending(s) !! FiredOut(s) && Pending(s) !! CancelledIds(s) && FiredOut(s) !! CancelledIds(s)
  {
    forall id | id in FiredOut(s) ensures id !in Pending(s) && id !in CancelledIds(s) {
      var i :| 0 <= i < |s.log| && s.log[i].Fired? && s.log[i].id == id && Final(s, s.log[i]);
      assert !Live(s, [], id);
      forall j | 0 <= j < |s.log| && s.log[j].Cancelled? ensures s.log[j].id != id {
        assert Final(s, s.log[j]);
      }
    }
    forall id | id in CancelledIds(s) ensures id !in Pending(s) {
      var i :| 0 <= i < |s.log| && s.log[i].Cancelled? && s.log[i].id == id;
      assert Final(s, s.log[i]) && !Live(s, [], id);
    }
  }

  lemma {:induction false} PendingSize(objs: Objects, order: seq<TimerId>)
    requires Sorted(objs, order)
    ensures |set i | 0 <= i < |order| :: order[i]| == |order|
    decreases |order|
  {
    if order != [] {
      var n := |order| - 1;
      PendingSize(objs, order[..n]);
      var p, q := set i | 0 <= i < |order| :: order[i], set i | 0 <= i < n :: order[..n][i];
      forall i | 0 <= i < n ensures order[..n][i] != order[n] {
        assert Before(objs, order[i], order[n]);
      }
      assert p == q + {order[n]};
    }
  }
}
