/** What each operation on timers does (src/fiber/timer.cpp), in terms of deadlines. */
module TimerEffects {
  import opened Options
  import opened Timers
  import opened TimerRuns

  /** The other timers are as they were, and pending as they were. */
  ghost predicate OthersSame(s: State, s': State, id: TimerId) {
    forall x :: x in s.objs && x != id ==> x in s'.objs && s'.objs[x] == s.objs[x] && (x in s'.order <==> x in s.order)
  }

  /** Nobody's deadline is before t, and t is somebody's. */
  ghost predicate Earliest(s: State, t: nat) {
    && (forall x :: x in s.order ==> x in s.objs && t <= s.objs[x].next)
    && (exists x :: x in s.order && x in s.objs && s.objs[x].next == t)
  }

  /** The front of the set has the earliest deadline. */
  lemma FrontEarliest(s: State)
    requires Sorted(s.objs, s.order) && s.order != []
    ensures s.order[0] in s.objs && Earliest(s, s.objs[s.order[0]].next)
  {
    forall x | x in s.order ensures x in s.objs && s.objs[s.order[0]].next <= s.objs[x].next {
      var i :| 0 <= i < |s.order| && s.order[i] == x;
      assert i > 0 ==> Before(s.objs, s.order[0], s.order[i]);
    }
    assert s.order[0] in s.order;
  }

  /** getNextTimer answers the time until the earliest deadline, 0 if that has come, and "no timer" if there is none. */
  lemma NextTimerExact(s: State)
    requires Inv(s)
    ensures var (s', wait) := GetNextTimer(s);
            && (wait.None? <==> s.order == []) && (wait.None? ==> s'.seen == Never)
            && (wait.Some? ==> exists t: nat :: Earliest(s, t) && s'.seen == At(t)
                                           && (if t <= s.clock then wait.value == 0 else s.clock + wait.value == t))
            && !s'.tickled && s'.objs == s.objs && s'.order == s.order
  {
    if s.order != [] {
      FrontEarliest(s);
    }
  }

  /** A new timer is pending, with the period, the callback and the flag that were asked for, and is due that long after
      the reading of the clock.  The owner is told exactly when the new timer is the earliest and nobody was told since
      the last getNextTimer. */
  lemma AddExact(s: State, id: TimerId, ms: nat, cb: nat, recurring: bool, now: nat)
    requires Inv(s) && id !in s.objs
    ensures var (s', told) := AddTimer(s, id, ms, cb, recurring, now);
            && id in s'.order && id in s'.objs && s'.objs[id] == Timer(recurring, ms, now + ms, Some(cb))
            && OthersSame(s, s', id) && s'.objs.Keys == s.objs.Keys + {id}
            && s'.order != [] && (told <==> s'.order[0] == id && !s.tickled) && (s'.tickled <==> s.tickled || told)
            && s'.clock == s.clock && s'.log == s.log
  {
    var s' := AddTimer(s, id, ms, cb, recurring, now).0;
    SortedFrame(s.objs, s'.objs, s.order);
    InsertSorted(s'.objs, s.order, id);
  }

  /** cancel takes a pending timer away, with its callback, and answers whether it was pending. */
  lemma CancelExact(s: State, id: TimerId)
    requires Inv(s) && id in s.objs
    ensures Cancel(s, id).Some?
    ensures var (s', was) := Cancel(s, id).value;
            && (was <==> id in s.order) && (!was ==> s' == s)
            && id !in s'.order && id in s'.objs && s'.objs[id] == s.objs[id].(cb := None) && OthersSame(s, s', id)
            && s'.clock == s.clock && s'.tickled == s.tickled
  {
    CancelKeeps(s, id);
    assert Live(s, [], id) <==> id in s.order;
    if id in s.order {
      var objs := s.objs[id := s.objs[id].(cb := None)];
      SortedFrame(s.objs, objs, s.order);
      FindIff(objs, s.order, id);
      RemoveSorted(objs, s.order, Find(objs, s.order, id));
    }
  }

  /** refresh starts a pending timer again: it is due one period from now. */
  lemma RefreshExact(s: State, id: TimerId)
    requires Inv(s) && id in s.objs
    ensures var (s', was) := Refresh(s, id);
            && (was <==> id in s.order) && (!was ==> s' == s)
            && (was ==> id in s'.order && id in s'.objs
                        && s'.objs[id] == s.objs[id].(next := s.clock + s.objs[id].ms))
            && OthersSame(s, s', id) && s'.clock == s.clock && s'.tickled == s.tickled && s'.log == s.log
  {
    FindIff(s.objs, s.order, id);
    assert Live(s, [], id) <==> id in s.order;
    if id in s.order {
      Relocate(s.objs, s.order, id, Refresh(s, id).0.objs[id]);
    }
  }

  const WORD: nat := 0x1_0000_0000_0000_0000

  /** The rollover test is the comparison of unsigned 64-bit words that the program makes, wrap-around included. */
  lemma RolloverUnsigned(previous: nat, now: nat)
    requires previous < WORD && now < WORD
    ensures DetectRollover(previous, now) <==> now < previous && now < (previous + WORD - HOUR) % WORD
  {
    if previous >= HOUR {
      assert (previous + WORD - HOUR) % WORD == previous - HOUR;
    } else {
      assert (previous + WORD - HOUR) % WORD == previous + WORD - HOUR;
    }
  }

  // ---- listExpiredCb

  /** The log entries for the timers `out`, in order. */
  function Firings(objs: Objects, out: seq<TimerId>, now: nat): (r: seq<Entry>)
    requires Known(objs, out)
    ensures |r| == |out|
    ensures forall i :: 0 <= i < |out| ==> r[i] == Fired(out[i], objs[out[i]].cb, objs[out[i]].next, now)
  {
    seq(|out|, i requires 0 <= i < |out| => Fired(out[i], objs[out[i]].cb, objs[out[i]].next, now))
  }

  /** What firing at `now` makes of a timer: it is started again, or has no callback any more. */
  function AfterFiring(t: Timer, now: nat): Timer {
    if t.recurring then t.(next := now + t.ms) else t.(cb := None)
  }

  /** The timers `out` have fired, one after the other, and each is in the set again exactly if it is recurring. */
  ghost predicate AllFired(s: State, out: seq<TimerId>, now: nat, s': State)
    requires Known(s.objs, out)
  {
    && s'.log == s.log + Firings(s.objs, out, now) && s'.objs.Keys == s.objs.Keys
    && (forall x :: x in s.objs ==> s'.objs[x] == if x in out then AfterFiring(s.objs[x], now) else s.objs[x])
    && (forall x :: x in s'.order <==> x in s.order || (x in out && s.objs[x].recurring))
  }

  lemma FiringsCons(objs: Objects, objs': Objects, out: seq<TimerId>, now: nat)
    requires out != [] && Known(objs, out) && Known(objs', out[1..])
    requires forall i :: 1 <= i < |out| ==> objs'[out[i]] == objs[out[i]]
    ensures Firings(objs, out, now) ==
            [Fired(out[0], objs[out[0]].cb, objs[out[0]].next, now)] + Firings(objs', out[1..], now)
  {
    assert forall i :: 0 <= i < |out[1..]| ==> out[1..][i] == out[i + 1];
  }

  /** Firing the first timer, and then the others; for one timer x. */
  lemma FiredOne(s: State, s1: State, out: seq<TimerId>, now: nat, s': State, x: TimerId)
    requires Shape(s, out) && out != [] && x in s.objs && Known(s1.objs, out[1..])
    requires s1.objs == s.objs[out[0] := AfterFiring(s.objs[out[0]], now)]
    requires x in s1.order <==> x in s.order || (x == out[0] && s.objs[out[0]].recurring)
    requires AllFired(s1, out[1..], now, s')
    ensures s'.objs[x] == if x in out then AfterFiring(s.objs[x], now) else s.objs[x]
    ensures x in s'.order <==> x in s.order || (x in out && s.objs[x].recurring)
  {
    assert x in out <==> x == out[0] || x in out[1..];
    assert out[0] !in out[1..];
  }

  lemma FiredFirst(s: State, out: seq<TimerId>, now: nat, s': State)
    requires Shape(s, out) && out != [] && Shape(RearmOne(s, out[0], now), out[1..])
    requires AllFired(RearmOne(s, out[0], now), out[1..], now, s')
    ensures Known(s.objs, out) && AllFired(s, out, now, s')
  {
    var s1 := RearmOne(s, out[0], now);
    FirstMembers(s, out[0], now);
    forall x | x in s.objs
      ensures s'.objs[x] == if x in out then AfterFiring(s.objs[x], now) else s.objs[x]
      ensures x in s'.order <==> x in s.order || (x in out && s.objs[x].recurring)
    {
      FiredOne(s, s1, out, now, s', x);
    }
    FiringsCons(s.objs, s1.objs, out, now);
    Appended(s.log, Firings(s.objs, out, now), s1.log, Firings(s1.objs, out[1..], now));
    forall x | x in s'.order ensures x in s.objs {
    }
  }

  lemma Appended(log: seq<Entry>, all: seq<Entry>, log1: seq<Entry>, rest: seq<Entry>)
    requires all != [] && log1 == log + [all[0]] && all == [all[0]] + rest
    ensures log + all == log1 + rest
  {
  }

  /** Whether the timer that has fired is in the set again. */
  lemma FirstMembers(s: State, id: TimerId, now: nat)
    requires Sorted(s.objs, s.order) && id in s.objs && id !in s.order
    ensures var s1 := RearmOne(s, id, now);
            && s1.objs == s.objs[id := AfterFiring(s.objs[id], now)]
            && (forall x :: x in s1.order <==> x in s.order || (x == id && s.objs[id].recurring))
            && s1.log == s.log + [Fired(id, s.objs[id].cb, s.objs[id].next, now)]
  {
    var objs := s.objs[id := AfterFiring(s.objs[id], now)];
    SortedFrame(s.objs, objs, s.order);
    if s.objs[id].recurring {
      InsertSorted(objs, s.order, id);
    }
  }

  lemma {:induction false} RearmFires(s: State, out: seq<TimerId>, now: nat)
    requires Shape(s, out)
    ensures Known(s.objs, out) && AllFired(s, out, now, Rearm(s, out, now))
    decreases |out|
  {
    if out != [] {
      RearmShape(s, out, now);
      RearmFires(RearmOne(s, out[0], now), out[1..], now);
      FiredFirst(s, out, now, Rearm(s, out, now));
    } else {
      assert s.log + Firings(s.objs, out, now) == s.log;
    }
  }

  /** listExpiredCb when it sees no rollover: exactly the timers that are due fire, in the order of their deadlines,
      each with its own callback; the recurring ones among them are pending again, one period from now, and still
      recurring; the others have no callback any more; and no other timer is touched. */
  lemma ListExact(s: State, now: nat, probe: TimerId)
    requires Inv(s) && !DetectRollover(s.previous, now)
    ensures var s', k := ListExpired(s, now, probe), TakenCount(s, now, probe);
            var out := s.order[..k];
            && Known(s.objs, s.order) && Known(s.objs, out)
            && (forall i :: 0 <= i < |s.order| ==> (i < k <==> s.objs[s.order[i]].next <= now))
            && s'.log == s.log + Firings(s.objs, out, now) && s'.objs.Keys == s.objs.Keys
            && (forall x :: x in s.objs ==> s'.objs[x] == if x in out then AfterFiring(s.objs[x], now) else s.objs[x])
            && (forall x :: x in s'.order <==> x in s.order && (x in out ==> s.objs[x].recurring))
            && s'.clock == s.clock && s'.tickled == s.tickled
  {
    var k := TakenCount(s, now, probe);
    if s.order == [] {
      assert s.log + Firings(s.objs, [], now) == s.log && s.order[..k] == [];
    } else if s.objs[s.order[0]].next > now {
      NoneDue(s, now);
      assert s.log + Firings(s.objs, [], now) == s.log && s.order[..k] == [];
    } else {
      ExpiredAreDue(s, now, probe);
      TakenFire(s, k, now);
    }
  }

  /** The first k timers are taken off and fire. */
  lemma TakenFire(s: State, k: nat, now: nat)
    requires Inv(s) && k <= |s.order|
    ensures Known(s.objs, s.order[k..]) && Known(s.objs, s.order[..k])
    ensures var s1 := s.(order := s.order[k..], previous := now);
            var s' := Rearm(s1, s.order[..k], now);
            && AllFired(s1, s.order[..k], now, s') && s'.clock == s.clock && s'.tickled == s.tickled
            && (forall x :: x in s'.order <==> x in s.order && (x in s.order[..k] ==> s.objs[x].recurring))
  {
    var s1 := s.(order := s.order[k..], previous := now);
    SplitKeeps(s, k, now);
    RearmFires(s1, s.order[..k], now);
    RearmSame(s1, s.order[..k], now);
    assert s.order == s.order[..k] + s.order[k..];
    forall x | x in s.order[k..] ensures x !in s.order[..k] {
    }
  }

  lemma NoneDue(s: State, now: nat)
    requires Sorted(s.objs, s.order) && s.order != [] && s.objs[s.order[0]].next > now
    ensures forall i :: 0 <= i < |s.order| ==> s.objs[s.order[i]].next > now
  {
    forall i | 0 < i < |s.order| ensures s.objs[s.order[i]].next > now {
      assert Before(s.objs, s.order[0], s.order[i]);
    }
  }

  lemma {:induction false} RearmSame(s: State, out: seq<TimerId>, now: nat)
    requires Known(s.objs, s.order) && Known(s.objs, out)
    ensures Rearm(s, out, now).clock == s.clock && Rearm(s, out, now).tickled == s.tickled
    decreases |out|
  {
    if out != [] {
      RearmSame(RearmOne(s, out[0], now), out[1..], now);
    }
  }
}
