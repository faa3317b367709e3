/** The timer manager of src/fiber/timer.cpp as an object, proved against the machine of `Timers`. */
module TimerManagers {
  import opened Options
  import opened Timers

  lemma Distinct(objs: Objects, order: seq<TimerId>, k: nat)
    requires Sorted(objs, order) && k <= |order|
    ensures Known(objs, order[..k]) && forall i, j :: 0 <= i < j < k ==> order[..k][i] != order[..k][j]
  {
    forall i, j | 0 <= i < j < k ensures order[i] != order[j] {
      assert Before(objs, order[i], order[j]);
    }
  }

  /** TimerManager with its timers.  Each method is one lock-protected region and makes the step of the machine
      that bears its name; `seen` and `log` are kept for the specification only. */
  class TimerManager {
    var objs: Objects
    var timers: seq<TimerId>
    var tickled: bool
    var previousTime: nat
    ghost var seen: Deadline
    ghost var log: seq<Entry>

    ghost predicate Valid()
      reads this
    {
      Known(objs, timers)
    }

    ghost function View(clock: nat): State
      reads this
    {
      State(objs, timers, tickled, previousTime, clock, seen, log)
    }

    constructor (now: nat)
      ensures Valid() && View(now) == State(map[], [], false, now, now, Never, [])
    {
      objs, timers, tickled, previousTime := map[], [], false, now;
      seen, log := Never, [];
    }

    method AddTimer(id: TimerId, ms: nat, cb: nat, recurring: bool, now: nat, ghost clock: nat) returns (atFront: bool)
      requires Valid() && id !in objs
      modifies this
      ensures Valid()
      ensures (View(clock), atFront) == Timers.AddTimer(old(View(clock)), id, ms, cb, recurring, now)
    {
      objs := objs[id := Timer(recurring, ms, now + ms, Some(cb))];
      atFront := AddLocked(id, clock);
    }

    method AddLocked(id: TimerId, ghost clock: nat) returns (atFront: bool)
      requires Valid() && id in objs
      modifies this`timers, this`tickled
      ensures Valid()
      ensures (View(clock), atFront) == Timers.AddLocked(old(View(clock)), id)
    {
      timers := Insert(objs, timers, id);
      atFront := timers[0] == id && !tickled;
      if atFront {
        tickled := true;
      }
    }

    /** The precondition is what makes the unchecked erase defined; every run keeps it. */
    method Cancel(id: TimerId, ghost clock: nat) returns (done: bool)
      requires Valid() && Sorted(objs, timers) && id in objs && (objs[id].cb.Some? ==> id in timers)
      modifies this
      ensures Valid() && Timers.Cancel(old(View(clock)), id) == Some((View(clock), done))
    {
      if objs[id].cb.None? {
        return false;
      }
      SortedFrame(objs, objs[id := objs[id].(cb := None)], timers);
      objs := objs[id := objs[id].(cb := None)];
      FindIff(objs, timers, id);
      var it := Find(objs, timers, id);
      timers := RemoveAt(timers, it);
      log := log + [Cancelled(id)];
      return true;
    }

    method Refresh(id: TimerId, now: nat) returns (done: bool)
      requires Valid() && id in objs
      modifies this
      ensures Valid() && (View(now), done) == Timers.Refresh(old(View(now)), id)
    {
      var it := Find(objs, timers, id);
      if objs[id].cb.None? || it == |timers| {
        return false;
      }
      timers := RemoveAt(timers, it);
      objs := objs[id := objs[id].(next := now + objs[id].ms)];
      timers := Insert(objs, timers, id);
      return true;
    }

    method Reset(id: TimerId, ms: nat, fromNow: bool, now: nat) returns (done: bool)
      requires Valid() && id in objs && objs[id].ms <= objs[id].next
      modifies this
      ensures Valid() && (View(now), done) == Timers.Reset(old(View(now)), id, ms, fromNow)
    {
      var was := objs[id];
      if ms == was.ms && !fromNow {
        return true;
      }
      var it := Find(objs, timers, id);
      if was.cb.None? || it == |timers| {
        return false;
      }
      Relink(id, it, Restarted(was, ms, fromNow, now), now);
      return true;
    }

    /** Erase the timer at `it` and change it while it is out of the set. */
    method Rekey(id: TimerId, it: nat, t: Timer, ghost clock: nat)
      requires Valid() && id in objs && it < |timers|
      modifies this`objs, this`timers
      ensures Valid() && id in objs
      ensures View(clock) == old(View(clock)).(objs := old(objs)[id := t], order := RemoveAt(old(timers), it))
    {
      timers := RemoveAt(timers, it);
      objs := objs[id := t];
    }

    /** Rekey, and insert again. */
    method Relink(id: TimerId, it: nat, t: Timer, ghost clock: nat)
      requires Valid() && id in objs && it < |timers|
      modifies this`objs, this`timers, this`tickled
      ensures Valid() && View(clock) == Relinked(old(View(clock)), id, it, t)
    {
      Rekey(id, it, t, clock);
      var front := AddLocked(id, clock);
    }

    method GetNextTimer(now: nat) returns (wait: Option<nat>)
      requires Valid()
      modifies this`tickled, this`seen
      ensures Valid() && (View(now), wait) == Timers.GetNextTimer(old(View(now)))
    {
      tickled := false;
      if timers == [] {
        seen := Never;
        return None;
      }
      var next := objs[timers[0]].next;
      seen := At(next);
      return Some(if now >= next then 0 else next - now);
    }

    /** The callbacks come out in the order of the set. */
    method ListExpiredCb(now: nat, probe: TimerId, ghost clock: nat) returns (cbs: seq<Option<nat>>)
      requires Valid() && Sorted(objs, timers)
      modifies this
      ensures Valid() && View(clock) == ListExpired(old(View(clock)), now, probe)
      ensures |cbs| == TakenCount(old(View(clock)), now, probe)
      ensures forall i :: 0 <= i < |cbs| ==> cbs[i] == old(objs)[old(timers)[i]].cb
    {
      cbs := [];
      if timers == [] {
        return;
      }
      var rollover := DetectRollover(previousTime, now);
      ghost var start := View(clock);
      previousTime := now;
      if !rollover && objs[timers[0]].next > now {
        return;
      }
      var it := CountExpired(now, probe, rollover, start);
      var expired := timers[..it];
      Distinct(objs, timers, it);
      timers := timers[it..];
      cbs := HandleExpired(expired, now, clock);
    }

    /** How many timers are taken: all after a rollover, otherwise up to the lower bound, and on while they are due
        now. */
    method CountExpired(now: nat, probe: TimerId, rollover: bool, ghost start: State) returns (it: nat)
      requires Valid() && start.objs == objs && start.order == timers && rollover == DetectRollover(start.previous, now)
      ensures it == ExpiredCount(start, now, probe)
    {
      if rollover {
        return |timers|;
      }
      it := LowerBound(objs, timers, now, probe);
      while it < |timers| && objs[timers[it]].next == now
        invariant 0 <= it <= |timers| && SkipDue(start, now, it) == ExpiredCount(start, now, probe)
      {
        it := it + 1;
      }
    }

    method HandleExpired(expired: seq<TimerId>, now: nat, ghost clock: nat) returns (cbs: seq<Option<nat>>)
      requires Valid() && Known(objs, expired)
      requires forall i, j :: 0 <= i < j < |expired| ==> expired[i] != expired[j]
      modifies this`objs, this`timers, this`log
      ensures Valid() && View(clock) == Rearm(old(View(clock)), expired, now)
      ensures |cbs| == |expired|
      ensures forall i :: 0 <= i < |expired| ==> cbs[i] == old(objs)[expired[i]].cb
    {
      cbs := [];
      var i := 0;
      while i < |expired|
        invariant 0 <= i <= |expired| == i + |expired[i..]| && Valid() && Known(objs, expired)
        invariant Rearm(View(clock), expired[i..], now) == Rearm(old(View(clock)), expired, now)
        invariant tickled == old(tickled) && previousTime == old(previousTime) && seen == old(seen)
        invariant |cbs| == i && forall j :: 0 <= j < i ==> cbs[j] == old(objs)[expired[j]].cb
        invariant forall j :: i <= j < |expired| ==> objs[expired[j]] == old(objs)[expired[j]]
      {
        cbs := cbs + [objs[expired[i]].cb];
        Fire(expired[i], now, clock);
        assert expired[i..][1..] == expired[i + 1..];
        i := i + 1;
      }
    }

    /** The body of the loop over the expired timers, after the callback has been taken. */
    method Fire(id: TimerId, now: nat, ghost clock: nat)
      requires Valid() && id in objs
      modifies this`objs, this`timers, this`log
      ensures Valid() && View(clock) == RearmOne(old(View(clock)), id, now)
      ensures objs.Keys == old(objs).Keys && forall x :: x in objs && x != id ==> objs[x] == old(objs)[x]
    {
      var t := objs[id];
      log := log + [Fired(id, t.cb, t.next, now)];
      if t.recurring {
        objs := objs[id := t.(next := now + t.ms)];
        timers := Insert(objs, timers, id);
      } else {
        objs := objs[id := t.(cb := None)];
      }
    }
  }
}
