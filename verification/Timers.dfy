/** Timers (src/fiber/timer.cpp): the ordered set of pending timers as a state machine whose steps are the
    lock-protected regions.  Timer objects live in a map keyed by their address. */
module Timers {
  import opened Options

  type TimerId = nat

  datatype Timer = Timer(recurring: bool, ms: nat, next: nat, cb: Option<nat>)
  type Objects = map<TimerId, Timer>

  const HOUR: nat := 60 * 60 * 1000

  /** Timer::Comparator on two non-null timers: by deadline, then by address. */
  predicate Before(objs: Objects, a: TimerId, b: TimerId)
    requires a in objs && b in objs
  {
    objs[a].next < objs[b].next || (objs[a].next == objs[b].next && a < b)
  }

  ghost predicate Known(objs: Objects, order: seq<TimerId>) {
    forall i :: 0 <= i < |order| ==> order[i] in objs
  }

  /** A std::set under the comparator: strictly increasing. */
  ghost predicate Sorted(objs: Objects, order: seq<TimerId>) {
    Known(objs, order) && forall i, j :: 0 <= i < j < |order| ==> Before(objs, order[i], order[j])
  }

  /** A timer of the set against the key (next, id). */
  predicate Below(t: Timer, x: TimerId, next: nat, id: TimerId) {
    t.next < next || (t.next == next && x < id)
  }

  /** std::set::lower_bound for key (next, id): the first place whose element is not before it. */
  function LowerBound(objs: Objects, order: seq<TimerId>, next: nat, id: TimerId): (k: nat)
    requires Known(objs, order)
    ensures k <= |order|
    ensures forall i :: 0 <= i < k ==> Below(objs[order[i]], order[i], next, id)
    ensures k < |order| ==> !Below(objs[order[k]], order[k], next, id)
  {
    LowerBoundFrom(objs, order, next, id, 0)
  }

  function LowerBoundFrom(objs: Objects, order: seq<TimerId>, next: nat, id: TimerId, from: nat): (k: nat)
    requires Known(objs, order) && from <= |order|
    ensures from <= k <= |order|
    ensures forall i :: from <= i < k ==> Below(objs[order[i]], order[i], next, id)
    ensures k < |order| ==> !Below(objs[order[k]], order[k], next, id)
    decreases |order| - from
  {
    if from < |order| && Below(objs[order[from]], order[from], next, id)
    then LowerBoundFrom(objs, order, next, id, from + 1)
    else from
  }

  /** std::set::find. */
  function Find(objs: Objects, order: seq<TimerId>, id: TimerId): (k: nat)
    requires Known(objs, order) && id in objs
    ensures k <= |order| && (k < |order| ==> order[k] == id)
  {
    var k := LowerBound(objs, order, objs[id].next, id);
    if k < |order| && order[k] == id then k else |order|
  }

  /** std::set::insert of a timer that is not in the set. */
  function Insert(objs: Objects, order: seq<TimerId>, id: TimerId): (r: seq<TimerId>)
    requires Known(objs, order) && id in objs
    ensures |r| == |order| + 1 && Known(objs, r)
  {
    var k := LowerBound(objs, order, objs[id].next, id);
    order[..k] + [id] + order[k..]
  }

  function RemoveAt(order: seq<TimerId>, k: nat): seq<TimerId>
    requires k < |order|
  {
    order[..k] + order[k + 1..]
  }

  /** `find` finds what is there: the binary search is right because the set is in order. */
  lemma FindIff(objs: Objects, order: seq<TimerId>, id: TimerId)
    requires Sorted(objs, order) && id in objs
    ensures Find(objs, order, id) < |order| <==> id in order
  {
    if id in order {
      var j :| 0 <= j < |order| && order[j] == id;
      var k := LowerBound(objs, order, objs[id].next, id);
    }
  }

  lemma InsertMembers(order: seq<TimerId>, k: nat, id: TimerId)
    requires k <= |order|
    ensures forall x :: x in order[..k] + [id] + order[k..] <==> x in order || x == id
  {
    assert order == order[..k] + order[k..];
  }

  lemma InsertSorted(objs: Objects, order: seq<TimerId>, id: TimerId)
    requires Sorted(objs, order) && id in objs && id !in order
    ensures Sorted(objs, Insert(objs, order, id))
    ensures forall x :: x in Insert(objs, order, id) <==> x in order || x == id
    ensures |Insert(objs, order, id)| == |order| + 1
    ensures Insert(objs, order, id)[0] == id || (order != [] && Insert(objs, order, id)[0] == order[0])
  {
    var k := LowerBound(objs, order, objs[id].next, id);
    var r := Insert(objs, order, id);
    InsertMembers(order, k, id);
    forall i | 0 <= i < |r| ensures r[i] in objs {
      assert i != k ==> r[i] == order[if i < k then i else i - 1];
    }
    assert k < |order| ==> order[k] in order;
    forall i, j | 0 <= i < j < |r| ensures Before(objs, r[i], r[j]) {
      InsertPair(objs, order, id, k, i, j);
    }
  }

  lemma InsertPair(objs: Objects, order: seq<TimerId>, id: TimerId, k: nat, i: nat, j: nat)
    requires Sorted(objs, order) && id in objs && k <= |order| && i < j <= |order|
    requires forall x :: 0 <= x < k ==> Before(objs, order[x], id)
    requires k < |order| ==> Before(objs, id, order[k])
    ensures var r := order[..k] + [id] + order[k..];
            r[i] in objs && r[j] in objs && Before(objs, r[i], r[j])
  {
    var r := order[..k] + [id] + order[k..];
    if j < k {
      assert r[i] == order[i] && r[j] == order[j];
    } else if j == k {
      assert r[i] == order[i] && r[j] == id;
    } else if i < k {
      assert r[i] == order[i] && r[j] == order[j - 1];
    } else if i == k {
      assert r[i] == id && r[j] == order[j - 1];
      if j - 1 > k {
        assert Before(objs, order[k], order[j - 1]);
      }
    } else {
      assert r[i] == order[i - 1] && r[j] == order[j - 1];
    }
  }

  lemma RemoveSorted(objs: Objects, order: seq<TimerId>, k: nat)
    requires Sorted(objs, order) && k < |order|
    ensures Sorted(objs, RemoveAt(order, k))
    ensures forall x :: x in RemoveAt(order, k) <==> x in order && x != order[k]
  {
    var r := RemoveAt(order, k);
    assert forall i :: 0 <= i < |r| ==> r[i] == order[if i < k then i else i + 1];
    forall x | x in order && x != order[k] ensures x in r {
      var i :| 0 <= i < |order| && order[i] == x;
      assert x == r[if i < k then i else i - 1];
    }
    forall x | x in r ensures x in order && x != order[k] {
      var i :| 0 <= i < |r| && r[i] == x;
      var i' := if i < k then i else i + 1;
      if i' < k {
        assert Before(objs, order[i'], order[k]);
      } else {
        assert Before(objs, order[k], order[i']);
      }
    }
  }

  /** No key of a member changed: the order stands. */
  lemma SortedFrame(objs: Objects, objs': Objects, order: seq<TimerId>)
    requires Sorted(objs, order)
    requires forall x :: x in order ==> x in objs' && objs'[x].next == objs[x].next
    ensures Sorted(objs', order)
  {
    assert forall i :: 0 <= i < |order| ==> order[i] in order;
    forall i, j | 0 <= i < j < |order|
      ensures order[i] in objs' && order[j] in objs' && Before(objs', order[i], order[j])
    {
      assert Before(objs, order[i], order[j]);
    }
  }

  // ---- the machine

  /** The earliest deadline that the last getNextTimer saw. */
  datatype Deadline = Never | At(t: nat)

  /** What has happened to timers; `due` is the deadline a firing timer had. */
  datatype Entry = Fired(id: TimerId, cb: Option<nat>, due: nat, now: nat) | Cancelled(id: TimerId)

  /** `objs`, `order` (m_timers), `tickled` and `previous` are the program's state; `clock`, `seen` and `log` say
      what time it is and what has been observed. */
  datatype State = State(objs: Objects, order: seq<TimerId>, tickled: bool, previous: nat,
                         clock: nat, seen: Deadline, log: seq<Entry>)

  /** addTimer(val, lock): insert, and note whether the timer came to the front unnoticed.
      The flag is whether onTimerInsertedAtFront is called. */
  function AddLocked(s: State, id: TimerId): (State, bool)
    requires Known(s.objs, s.order) && id in s.objs
  {
    var order := Insert(s.objs, s.order, id);
    var front := order[0] == id && !s.tickled;
    (s.(order := order, tickled := s.tickled || front), front)
  }

  /** addTimer(ms, cb, recurring); the constructor read the clock as `now` before the lock was taken. */
  function AddTimer(s: State, id: TimerId, ms: nat, cb: nat, recurring: bool, now: nat): (State, bool)
    requires Known(s.objs, s.order)
  {
    AddLocked(s.(objs := s.objs[id := Timer(recurring, ms, now + ms, Some(cb))]), id)
  }

  /** Timer::cancel.  None: the unchecked erase got end(). */
  function Cancel(s: State, id: TimerId): Option<(State, bool)>
    requires Known(s.objs, s.order) && id in s.objs
  {
    if s.objs[id].cb.None? then Some((s, false))
    else
      var objs := s.objs[id := s.objs[id].(cb := None)];
      var k := Find(objs, s.order, id);
      if k == |s.order| then None
      else Some((s.(objs := objs, order := RemoveAt(s.order, k), log := s.log + [Cancelled(id)]), true))
  }

  /** Timer::refresh. */
  function Refresh(s: State, id: TimerId): (State, bool)
    requires Known(s.objs, s.order) && id in s.objs
  {
    var k := Find(s.objs, s.order, id);
    if s.objs[id].cb.None? || k == |s.order| then (s, false)
    else
      var objs := s.objs[id := s.objs[id].(next := s.clock + s.objs[id].ms)];
      (s.(objs := objs, order := Insert(objs, RemoveAt(s.order, k), id)), true)
  }

  /** Erase the timer at place k, change it while it is out of the set, insert it again. */
  function Relinked(s: State, id: TimerId, k: nat, t: Timer): State
    requires Known(s.objs, s.order) && id in s.objs && k < |s.order|
  {
    AddLocked(s.(objs := s.objs[id := t], order := RemoveAt(s.order, k)), id).0
  }

  /** The timer with another period, started now or when it was started before. */
  function Restarted(t: Timer, ms: nat, fromNow: bool, now: nat): Timer
    requires t.ms <= t.next
  {
    var start := if fromNow then now else t.next - t.ms;
    t.(ms := ms, next := start + ms)
  }

  /** Timer::reset; with an unchanged period and no restart it answers true without looking further. */
  function Reset(s: State, id: TimerId, ms: nat, fromNow: bool): (State, bool)
    requires Known(s.objs, s.order) && id in s.objs && s.objs[id].ms <= s.objs[id].next
  {
    var t := s.objs[id];
    var k := Find(s.objs, s.order, id);
    if ms == t.ms && !fromNow then (s, true)
    else if t.cb.None? || k == |s.order| then (s, false)
    else (Relinked(s, id, k, Restarted(t, ms, fromNow, s.clock)), true)
  }

  /** getNextTimer; None is the "no timer" answer ~0. */
  function GetNextTimer(s: State): (State, Option<nat>)
    requires Known(s.objs, s.order)
  {
    if s.order == [] then (s.(tickled := false, seen := Never), None)
    else
      var next := s.objs[s.order[0]].next;
      (s.(tickled := false, seen := At(next)), Some(if s.clock >= next then 0 else next - s.clock))
  }

  /** detectClockRollover, with the unsigned wrap-around of `previous - HOUR`. */
  function DetectRollover(previous: nat, now: nat): bool {
    now < previous && (previous < HOUR || now < previous - HOUR)
  }

  /** How many timers listExpiredCb takes off the front: up to the lower bound of a probe timer due now, and then
      past all that are due exactly now; all of them after a rollover. */
  function ExpiredCount(s: State, now: nat, probe: TimerId): (k: nat)
    requires Known(s.objs, s.order)
    ensures k <= |s.order|
  {
    if DetectRollover(s.previous, now) then |s.order|
    else SkipDue(s, now, LowerBound(s.objs, s.order, now, probe))
  }

  function SkipDue(s: State, now: nat, k: nat): (r: nat)
    requires Known(s.objs, s.order) && k <= |s.order|
    ensures k <= r <= |s.order|
    ensures forall i :: k <= i < r ==> s.objs[s.order[i]].next == now
    ensures r < |s.order| ==> s.objs[s.order[r]].next != now
    decreases |s.order| - k
  {
    if k < |s.order| && s.objs[s.order[k]].next == now then SkipDue(s, now, k + 1) else k
  }

  /** The loop over the expired timers: emit the callback, then re-arm or disarm. */
  function Rearm(s: State, out: seq<TimerId>, now: nat): State
    requires Known(s.objs, s.order) && Known(s.objs, out)
    decreases |out|
  {
    if out == [] then s else Rearm(RearmOne(s, out[0], now), out[1..], now)
  }

  function RearmOne(s: State, id: TimerId, now: nat): (r: State)
    requires Known(s.objs, s.order) && id in s.objs
    ensures Known(r.objs, r.order) && r.objs.Keys == s.objs.Keys
  {
    var t := s.objs[id];
    var log := s.log + [Fired(id, t.cb, t.next, now)];
    if t.recurring then
      var objs := s.objs[id := t.(next := now + t.ms)];
      s.(objs := objs, order := Insert(objs, s.order, id), log := log)
    else
      s.(objs := s.objs[id := t.(cb := None)], log := log)
  }

  /** How many timers a call takes at all. */
  function TakenCount(s: State, now: nat, probe: TimerId): (k: nat)
    requires Known(s.objs, s.order)
    ensures k <= |s.order|
  {
    if s.order == [] || (!DetectRollover(s.previous, now) && s.objs[s.order[0]].next > now) then 0
    else ExpiredCount(s, now, probe)
  }

  /** listExpiredCb; the clock was read as `now` before the lock was taken. */
  function ListExpired(s: State, now: nat, probe: TimerId): State
    requires Known(s.objs, s.order)
  {
    if s.order == [] then s
    else if !DetectRollover(s.previous, now) && s.objs[s.order[0]].next > now then s.(previous := now)
    else
      var k := ExpiredCount(s, now, probe);
      Rearm(s.(order := s.order[k..], previous := now), s.order[..k], now)
  }

  // ---- what listExpiredCb takes

  /** Without a rollover it takes exactly the due timers, whatever address the probe has. */
  lemma ExpiredAreDue(s: State, now: nat, probe: TimerId)
    requires Sorted(s.objs, s.order) && !DetectRollover(s.previous, now)
    ensures forall i :: 0 <= i < |s.order| ==> (i < ExpiredCount(s, now, probe) <==> s.objs[s.order[i]].next <= now)
  {
    var k := ExpiredCount(s, now, probe);
    forall i | k <= i < |s.order| ensures s.objs[s.order[i]].next > now {
      var b := LowerBound(s.objs, s.order, now, probe);
      if i > k {
        assert Before(s.objs, s.order[k], s.order[i]);
      }
      if k > b {
        assert s.objs[s.order[b]].next == now && Before(s.objs, s.order[b], s.order[k]);
      }
    }
  }

  /** When a step takes exactly the due timers: unless it sees a rollover while some timer is not due.  The clock
      need not have gone back an hour for that: within the first hour of the clock any step back is a rollover. */
  lemma ExpiryExact(s: State, now: nat, probe: TimerId)
    requires Sorted(s.objs, s.order) && s.order != []
    ensures (forall i :: 0 <= i < |s.order| ==> (i < ExpiredCount(s, now, probe) <==> s.objs[s.order[i]].next <= now))
       <==> !(DetectRollover(s.previous, now) && s.objs[s.order[|s.order| - 1]].next > now)
  {
    var n := |s.order| - 1;
    if !DetectRollover(s.previous, now) {
      ExpiredAreDue(s, now, probe);
    } else if s.objs[s.order[n]].next <= now {
      forall i | 0 <= i < n ensures s.objs[s.order[i]].next <= now {
        assert Before(s.objs, s.order[i], s.order[n]);
      }
    }
  }
}
