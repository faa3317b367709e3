/** The event part of src/fiber/iomanager.cpp as objects, proved against the machine of `IoEvents`. */
module IoManagers {
  import opened IoEvents
  import opened Options

  /** FdContext. */
  class FdContext {
    var events: set<Event>
    var read: Ctx
    var write: Ctx

    constructor ()
      ensures View() == EMPTY
    {
      events, read, write := {}, BARE, BARE;
    }

    ghost function View(): Fd
      reads this
    {
      Fd(events, read, write)
    }

    method GetEventContext(e: Event) returns (c: Ctx)
      ensures c == Context(View(), e)
    {
      c := if e.Read? then read else write;
    }

    method SetEventContext(e: Event, c: Ctx)
      modifies this`read, this`write
      ensures View() == Set(old(View()), e, c)
    {
      if e.Read? {
        read := c;
      } else {
        write := c;
      }
    }

    /** The scheduler that is called must be there.  What goes to it is the callback, or else the fiber, or else
        nothing. */
    method TriggerEvent(e: Event) returns (w: Option<Waiter>)
      requires Context(View(), e).scheduler
      modifies this
      ensures var c := Context(old(View()), e); w == if c.call.Some? then c.call else c.fiber
      ensures View() == Set(old(View()), e, BARE).(events := old(events) - {e})
    {
      events := events - {e};
      var c := GetEventContext(e);
      w := if c.call.Some? then c.call else c.fiber;
      SetEventContext(e, BARE);
    }
  }

  /** The value of an event in the program's enumeration. */
  function Word(e: Event): (w: bv32) {
    if e.Read? then 1 else 4
  }

  /** getEventContext by value.  None: its assertion fails. */
  function ContextOf(w: bv32): (r: Option<Event>) {
    if w == Word(Read) then Some(Read) else if w == Word(Write) then Some(Write) else None
  }

  /** What line 92 makes of the parameter of triggerEvent. */
  function Masked(w: bv32): (r: bv32) {
    w & !w
  }

  /** getEventContext finds the context of every event, but of none that triggerEvent has masked with itself. */
  lemma MaskedHasNoContext(e: Event, w: bv32)
    ensures ContextOf(Word(e)) == Some(e)
    ensures ContextOf(Masked(w)) == None
  {
    assert w & !w == 0;
  }

  /** IOManager.  `kernel` is the interest set of the epoll descriptor, `scheduled` what went to the scheduler; in
      each method `ctl` says whether the epoll_ctl in it succeeds when its operation is applicable. */
  class IOManager {
    var fdContexts: seq<FdContext>
    var pendingEventCount: int
    var kernel: Kernel
    var scheduled: seq<Waiter>
    var nextId: nat
    ghost var adding: map<nat, Adding>
    ghost var polled: multiset<(nat, Report)>
    ghost var fds: seq<Fd>
    ghost var regs: seq<Registration>

    ghost predicate Valid()
      reads this, fdContexts
    {
      && |fdContexts| == |fds| && nextId == |regs|
      && (forall i, j :: 0 <= i < j < |fdContexts| ==> fdContexts[i] != fdContexts[j])
      && (forall i :: 0 <= i < |fdContexts| ==> fdContexts[i].View() == fds[i])
    }

    ghost function View(): State
      reads this
    {
      State(fds, kernel, pendingEventCount, adding, polled, scheduled, regs)
    }

    constructor ()
      ensures Valid() && View() == INIT && forall i :: 0 <= i < |fdContexts| ==> fresh(fdContexts[i])
    {
      fdContexts, pendingEventCount, kernel, scheduled, nextId := [], 0, map[], [], 0;
      adding, polled, fds, regs := map[], multiset{}, [], [];
      new;
      ContextResize(INITIAL_SIZE);
      assert fds == INIT.fds;
    }

    method ContextResize(size: nat)
      requires Valid() && |fdContexts| <= size
      modifies this`fdContexts, this`fds
      ensures Valid() && fds == old(fds) + seq(size - |old(fds)|, _ => EMPTY)
      ensures old(fdContexts) <= fdContexts
      ensures forall i :: |old(fdContexts)| <= i < |fdContexts| ==> fresh(fdContexts[i])
    {
      while |fdContexts| < size
        invariant Valid() && |old(fdContexts)| <= |fdContexts| <= size
        invariant fds == old(fds) + seq(|fdContexts| - |old(fds)|, _ => EMPTY)
        invariant old(fdContexts) <= fdContexts
        invariant forall i :: |old(fdContexts)| <= i < |fdContexts| ==> fresh(fdContexts[i])
      {
        var d := new FdContext();
        fdContexts := fdContexts + [d];
        fds := fds + [EMPTY];
      }
    }

    /** epoll_ctl; the answer is 0 or -1. */
    method EpollCtl(op: Op, fd: nat, mask: set<Event>, ctl: bool) returns (rt: int)
      modifies this`kernel
      ensures match Ctl(old(kernel), op, fd, mask, ctl)
              case None => rt == -1 && kernel == old(kernel)
              case Some(k) => rt == 0 && kernel == k
    {
      if !ctl || (op.Add? <==> fd in kernel) {
        return -1;
      }
      kernel := if op.Del? then kernel - {fd} else kernel[fd := mask];
      return 0;
    }

    /** addEvent by thread t.  None: an assertion fails. */
    method AddEvent(ghost t: nat, fd: nat, e: Event, work: Work, ctl: bool) returns (rt: Option<int>)
      requires Valid() && |fds| >= INITIAL_SIZE && t !in adding
      modifies this, fdContexts
      ensures old(fdContexts) <= fdContexts
      ensures forall i :: |old(fdContexts)| <= i < |fdContexts| ==> fresh(fdContexts[i])
      ensures var o := IoEvents.AddEvent(old(View()), t, fd, e, work, ctl);
              && (rt == None <==> o.Crash?)
              && (o.Went? ==> Valid() && View() == o.s && rt == Some(if o.answer then 0 else -1))
    {
      var seen := AddLook(t, fd, e, work);
      if seen.None? {
        return None;
      }
      var r := AddCtl(t, fd, e, seen.value, ctl);
      if r != 0 {
        return Some(-1);
      }
      var ok := AddRest(t, fd, e, work);
      return if ok then Some(0) else None;
    }

    /** What addEvent does once epoll_ctl has succeeded; false: the context is not empty. */
    method AddRest(ghost t: nat, fd: nat, e: Event, work: Work) returns (ok: bool)
      requires Valid() && fd < |fds| && t in adding && adding[t] == Armed(fd, e, work)
      modifies this`pendingEventCount, this`nextId, this`adding, this`fds, this`regs, fdContexts[fd]
      ensures var o := IoEvents.AddRest(old(View()), t);
              (ok <==> o.Went?) && (o.Went? ==> Valid() && View() == o.s && o.answer)
    {
      AddBit(t, fd, e);
      ok := AddScheduler(t, fd, e);
      if ok {
        AddWork(t, fd, e, work);
      }
    }

    /** The part of addEvent up to its assertion.  None: the assertion fails; otherwise the events it saw. */
    method AddLook(ghost t: nat, fd: nat, e: Event, work: Work) returns (seen: Option<set<Event>>)
      requires Valid() && |fds| >= INITIAL_SIZE
      modifies this`fdContexts, this`fds, this`adding
      ensures Valid()
      ensures old(fdContexts) <= fdContexts
      ensures forall i :: |old(fdContexts)| <= i < |fdContexts| ==> fresh(fdContexts[i])
      ensures match IoEvents.AddLook(old(View()), t, fd, e, work)
              case Went(s, _) =>
                && View() == s && seen.Some? && fd < |fds|
                && t in adding && adding[t] == Looked(fd, e, work, seen.value)
              case _ => seen.None?
    {
      if fd >= |fdContexts| {
        ContextResize(fd * 3 / 2);
      }
      assert View() == Grow(old(View()), fd);
      var events := fdContexts[fd].events;
      if e in events {
        return None;
      }
      adding := adding[t := Looked(fd, e, work, events)];
      return Some(events);
    }

    /** Its epoll_ctl. */
    method AddCtl(ghost t: nat, fd: nat, e: Event, seen: set<Event>, ctl: bool) returns (rt: int)
      requires Valid() && t in adding && adding[t].Looked?
      requires fd == adding[t].fd && e == adding[t].e && seen == adding[t].seen
      modifies this`kernel, this`adding
      ensures Valid() && Went(View(), rt == 0) == IoEvents.AddCtl(old(View()), t, ctl)
    {
      rt := EpollCtl(if seen != {} then Mod else Add, fd, seen + {e}, ctl);
      adding := if rt == 0 then adding[t := Armed(fd, e, adding[t].work)] else adding - {t};
    }

    /** The count and the bit. */
    method AddBit(ghost t: nat, fd: nat, e: Event)
      requires Valid() && fd < |fds| && t in adding && adding[t].Armed? && adding[t].fd == fd && adding[t].e == e
      modifies this`pendingEventCount, this`adding, this`fds, fdContexts[fd]
      ensures Valid() && fdContexts == old(fdContexts) && Went(View(), true) == IoEvents.AddBit(old(View()), t)
    {
      var d := fdContexts[fd];
      pendingEventCount := pendingEventCount + 1;
      d.events := d.events + {e};
      fds := fds[fd := d.View()];
      adding := adding[t := Marked(fd, e, adding[t].work)];
    }

    /** The assertion and the scheduler; false: the context is not empty. */
    method AddScheduler(ghost t: nat, fd: nat, e: Event) returns (ok: bool)
      requires Valid() && fd < |fds| && t in adding && adding[t].Marked? && adding[t].fd == fd && adding[t].e == e
      modifies this`adding, this`fds, fdContexts[fd]
      ensures fdContexts == old(fdContexts)
      ensures var o := IoEvents.AddScheduler(old(View()), t);
              (ok <==> o.Went?) && (o.Went? ==> Valid() && View() == o.s)
    {
      var d := fdContexts[fd];
      var c := d.GetEventContext(e);
      if c.scheduler || c.fiber.Some? || c.call.Some? {
        return false;
      }
      d.SetEventContext(e, HALF);
      fds := fds[fd := d.View()];
      adding := adding[t := Bound(fd, e, adding[t].work)];
      return true;
    }

    /** The callback or the fiber. */
    method AddWork(ghost t: nat, fd: nat, e: Event, work: Work)
      requires Valid() && fd < |fds| && t in adding && adding[t] == Bound(fd, e, work)
      modifies this`nextId, this`adding, this`fds, this`regs, fdContexts[fd]
      ensures Valid() && Went(View(), true) == IoEvents.AddWork(old(View()), t)
    {
      var d := fdContexts[fd];
      var c := d.GetEventContext(e);
      WorkEffect(View(), t);
      d.SetEventContext(e, WithSlot(c, work.Call?, Some(Waiter(nextId, work))));
      nextId := nextId + 1;
      regs := IoEvents.AddWork(View(), t).s.regs;
      fds := fds[fd := d.View()];
      adding := adding - {t};
    }

    method DelEvent(fd: nat, e: Event, ctl: bool) returns (done: bool)
      requires Valid()
      modifies this, fdContexts
      ensures Valid() && fdContexts == old(fdContexts)
      ensures Went(View(), done) == IoEvents.DelEvent(old(View()), fd, e, ctl)
    {
      if fd >= |fdContexts| || e !in fdContexts[fd].events {
        return false;
      }
      var left := fdContexts[fd].events - {e};
      var rt := EpollCtl(Remaining(left), fd, left, ctl);
      if rt != 0 {
        return false;
      }
      Withdraw(fd, e, left);
      return true;
    }

    /** What delEvent does once epoll_ctl has succeeded. */
    method Withdraw(fd: nat, e: Event, left: set<Event>)
      requires Valid() && fd < |fds| && left == fds[fd].events - {e}
      modifies this`pendingEventCount, this`fds, this`regs, fdContexts[fd]
      ensures Valid() && View() == Reset(old(View()), fd, e, Deleted, Deleted)
    {
      DeleteEffect(View(), fd, e);
      var d := fdContexts[fd];
      pendingEventCount := pendingEventCount - 1;
      regs := Reset(View(), fd, e, Deleted, Deleted).regs;
      d.events := left;
      d.SetEventContext(e, BARE);
      fds := fds[fd := d.View()];
    }

    /** triggerEvent on a descriptor, the decrement after it, and the work on its way to the scheduler; false: there is
        no scheduler. */
    method Fire(fd: nat, e: Event) returns (ok: bool)
      requires Valid() && fd < |fds|
      modifies this`pendingEventCount, this`scheduled, this`fds, this`regs, fdContexts[fd]
      ensures var r := IoEvents.Fire(old(View()), fd, e);
              (ok <==> r.Some?) && (ok ==> Valid() && Some(View()) == r)
    {
      var d := fdContexts[fd];
      var c := d.GetEventContext(e);
      if !c.scheduler {
        return false;
      }
      FireEffect(View(), fd, e);
      regs := IoEvents.Fire(View(), fd, e).value.regs;
      var w := d.TriggerEvent(e);
      pendingEventCount := pendingEventCount - 1;
      scheduled := if w.Some? then scheduled + [w.value] else scheduled;
      fds := fds[fd := d.View()];
      return true;
    }

    /** None: there is no scheduler to be called. */
    method CancelEvent(fd: nat, e: Event, ctl: bool) returns (done: Option<bool>)
      requires Valid()
      modifies this, fdContexts
      ensures var o := IoEvents.CancelEvent(old(View()), fd, e, ctl);
              (done == None <==> o.Crash?) && (o.Went? ==> Valid() && View() == o.s && done == Some(o.answer))
    {
      if fd >= |fdContexts| || e !in fdContexts[fd].events {
        return Some(false);
      }
      var left := fdContexts[fd].events - {e};
      var rt := EpollCtl(Remaining(left), fd, left, ctl);
      if rt != 0 {
        return Some(false);
      }
      var ok := Fire(fd, e);
      return if ok then Some(true) else None;
    }

    /** Trigger the events that are asked for, READ first. */
    method FireAll(fd: nat, asked: set<Event>) returns (ok: bool)
      requires Valid() && fd < |fds|
      modifies this`pendingEventCount, this`scheduled, this`fds, this`regs, fdContexts[fd]
      ensures var r := IoEvents.FireAll(old(View()), fd, asked);
              (ok <==> r.Some?) && (ok ==> Valid() && Some(View()) == r)
    {
      if Read in asked {
        ok := Fire(fd, Read);
        if !ok {
          return;
        }
      }
      if Write in asked {
        ok := Fire(fd, Write);
        return;
      }
      return true;
    }

    method CancelAll(fd: nat, ctl: bool) returns (done: Option<bool>)
      requires Valid()
      modifies this, fdContexts
      ensures var o := IoEvents.CancelAll(old(View()), fd, ctl);
              (done == None <==> o.Crash?) && (o.Went? ==> Valid() && View() == o.s && done == Some(o.answer))
    {
      if fd >= |fdContexts| || fdContexts[fd].events == {} {
        return Some(false);
      }
      var rt := EpollCtl(Del, fd, {}, ctl);
      if rt != 0 {
        return Some(false);
      }
      var ok := FireAll(fd, fdContexts[fd].events);
      return if ok && fdContexts[fd].events == {} then Some(true) else None;
    }

    /** What idle() does with a report under the lock of the descriptor.  None: it triggers an event without a
        scheduler. */
    method ActOn(fd: nat, r: Report, ctl: bool) returns (done: Option<bool>)
      requires Valid() && fd < |fds|
      modifies this`kernel, this`pendingEventCount, this`scheduled, this`fds, this`regs, fdContexts[fd]
      ensures var o := IoEvents.Handle(old(View()), fd, r, ctl);
              (done == None <==> o.Crash?) && (o.Went? ==> Valid() && View() == o.s && done == Some(o.answer))
    {
      var events := fdContexts[fd].events;
      var acted := RealEvents(r, events);
      if events * acted == {} {
        return Some(false);
      }
      var left := events - acted;
      var rt := EpollCtl(Remaining(left), fd, left, ctl);
      if rt != 0 {
        return Some(false);
      }
      var ok := FireAll(fd, acted);
      return if ok then Some(true) else None;
    }

    /** One pass of idle()'s loop over the reported events. */
    method Handle(fd: nat, r: Report, ctl: bool) returns (done: Option<bool>)
      requires Valid() && Inv(View()) && (fd, r) in polled
      modifies this`kernel, this`pendingEventCount, this`polled, this`scheduled, this`fds, this`regs, fdContexts
      ensures var o := Step(old(View()), HandleCall(fd, r), ctl);
              (done == None <==> o.Crash?) && (o.Went? ==> Valid() && View() == o.s && done == Some(o.answer))
    {
      polled := polled - multiset{(fd, r)};
      done := ActOn(fd, r, ctl);
    }

    /** The pass of the loop over the i-th report. */
    method HandleNext(reports: seq<(nat, Report, bool)>, i: nat) returns (ok: bool)
      requires i < |reports| && Valid() && Inv(View()) && multiset(Reports(reports[i..])) <= polled
      modifies this`kernel, this`pendingEventCount, this`polled, this`scheduled, this`fds, this`regs, fdContexts
      ensures ok ==> Valid() && Inv(View()) && multiset(Reports(reports[i + 1..])) <= polled
      ensures var o := Run(old(View()), Calls(reports)[i..]);
              if ok then o == Run(View(), Calls(reports)[i + 1..]) else o.Crash?
    {
      var (fd, r, ctl) := reports[i];
      ReportsFrom(reports, i);
      CallsFrom(View(), reports, i);
      HandleTakesReport(View(), fd, r, ctl);
      var done := Handle(fd, r, ctl);
      return done != None;
    }

    /** idle()'s loop over all that epoll_wait returned; false: it does not get through. */
    method HandleReports(reports: seq<(nat, Report, bool)>) returns (ok: bool)
      requires Valid() && Inv(View()) && multiset(Reports(reports)) <= polled
      modifies this`kernel, this`pendingEventCount, this`polled, this`scheduled, this`fds, this`regs, fdContexts
      ensures var o := Run(old(View()), Calls(reports));
              if ok then Valid() && Inv(View()) && o == Went(View(), true) else o.Crash?
    {
      for i := 0 to |reports|
        invariant Valid() && Inv(View()) && multiset(Reports(reports[i..])) <= polled
        invariant Run(View(), Calls(reports)[i..]) == Run(old(View()), Calls(reports))
      {
        ok := HandleNext(reports, i);
        if !ok {
          return;
        }
      }
      return true;
    }
  }

  /** triggerEvent in one piece. */
  lemma FireEffect(s: State, fd: nat, e: Event)
    requires fd < |s.fds| && Context(s.fds[fd], e).scheduler
    ensures var d := s.fds[fd];
            var c := Context(d, e);
            var w := if c.call.Some? then c.call else c.fiber;
            var t := IoEvents.Fire(s, fd, e).value;
            t == s.(fds := s.fds[fd := Set(d, e, BARE).(events := d.events - {e})], pending := s.pending - 1,
                    scheduled := if w.Some? then s.scheduled + [w.value] else s.scheduled, regs := t.regs)
            && |t.regs| == |s.regs|
  {
    var c, next := Context(s.fds[fd], e), Scheduled(|s.scheduled|);
    ResetClears(s, fd, e, if c.call.Some? then Displaced else next, next);
  }

  lemma DeleteEffect(s: State, fd: nat, e: Event)
    requires fd < |s.fds|
    ensures var d, t := s.fds[fd], Reset(s, fd, e, Deleted, Deleted);
            && t == s.(fds := s.fds[fd := Set(d, e, BARE).(events := d.events - {e})], pending := s.pending - 1,
                       regs := t.regs)
            && |t.regs| == |s.regs|
  {
    ResetClears(s, fd, e, Deleted, Deleted);
  }

  lemma WorkEffect(s: State, t: nat)
    requires t in s.adding && s.adding[t].Bound? && s.adding[t].fd < |s.fds|
    ensures var a, s' := s.adding[t], IoEvents.AddWork(s, t).s;
            var c := WithSlot(Context(s.fds[a.fd], a.e), a.work.Call?, Some(Waiter(|s.regs|, a.work)));
            && s' == s.(fds := s.fds[a.fd := Set(s.fds[a.fd], a.e, c)], adding := s.adding - {t}, regs := s'.regs)
            && |s'.regs| == |s.regs| + 1
  {
  }

  /** The reports from the i-th on. */
  lemma ReportsFrom(reports: seq<(nat, Report, bool)>, i: nat)
    requires i < |reports|
    ensures multiset(Reports(reports[i..])) ==
            multiset{(reports[i].0, reports[i].1)} + multiset(Reports(reports[i + 1..]))
  {
    assert Reports(reports[i..]) == [(reports[i].0, reports[i].1)] + Reports(reports[i + 1..]);
  }

  lemma CallsFrom(s: State, reports: seq<(nat, Report, bool)>, i: nat)
    requires i < |reports|
    ensures Run(s, Calls(reports)[i..]) ==
            Then(Step(s, HandleCall(reports[i].0, reports[i].1), reports[i].2), Calls(reports)[i + 1..])
  {
    var calls := Calls(reports);
    assert calls[i..][0] == (HandleCall(reports[i].0, reports[i].1), reports[i].2) && calls[i..][1..] == calls[i + 1..];
  }

  lemma HandleTakesReport(s: State, fd: nat, r: Report, ctl: bool)
    requires Inv(s) && (fd, r) in s.polled
    ensures var o := Step(s, HandleCall(fd, r), ctl);
            !o.Disabled? && (o.Went? ==> Inv(o.s) && o.s.polled == s.polled - multiset{(fd, r)})
  {
    RegionEffect(s, HandleCall(fd, r), ctl);
  }

  function Reports(reports: seq<(nat, Report, bool)>): (r: seq<(nat, Report)>)
    ensures |r| == |reports| && forall i :: 0 <= i < |r| ==> r[i] == (reports[i].0, reports[i].1)
  {
    seq(|reports|, i requires 0 <= i < |reports| => (reports[i].0, reports[i].1))
  }

  function Calls(reports: seq<(nat, Report, bool)>): (r: seq<(Call, bool)>)
    ensures |r| == |reports|
    ensures forall i :: 0 <= i < |r| ==> r[i] == (HandleCall(reports[i].0, reports[i].1), reports[i].2)
  {
    seq(|reports|, i requires 0 <= i < |reports| => (HandleCall(reports[i].0, reports[i].1), reports[i].2))
  }
}
