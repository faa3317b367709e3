/** Whom the IO manager wakes (src/fiber/iomanager.cpp:212-330 and 412-466): which waiters each operation hands to the
    scheduler, in what order, and which events stay registered. */
module IoDelivery {
  import opened Options
  import opened IoEvents

  /** The callback of a context, or else its fiber. */
  function Handed(c: Ctx): Waiter
    requires Complete(c)
  {
    if c.call.Some? then c.call.value else c.fiber.value
  }

  /** The waiters of the events `asked`, READ before WRITE. */
  function Waiting(d: Fd, asked: set<Event>): seq<Waiter>
    requires Ready(d, asked)
  {
    (if Read in asked then [Handed(d.read)] else []) + (if Write in asked then [Handed(d.write)] else [])
  }

  predicate Ready(d: Fd, asked: set<Event>) {
    (Read in asked ==> Complete(d.read)) && (Write in asked ==> Complete(d.write))
  }

  /** No call of addEvent is between bit and work on fd. */
  ghost predicate Undisturbed(s: State, fd: nat) {
    fd < |s.fds| && forall e :: !Window(s.adding, fd, e)
  }

  lemma FireHands(s: State, fd: nat, e: Event)
    requires Accounted(s) && fd < |s.fds| && Complete(Context(s.fds[fd], e))
    ensures var t := Fire(s, fd, e);
            && t.Some? && t.value.scheduled == s.scheduled + [Handed(Context(s.fds[fd], e))]
            && t.value.fds == s.fds[fd := Set(s.fds[fd], e, BARE).(events := s.fds[fd].events - {e})]
  {
  }

  lemma FireAllHands(s: State, fd: nat, asked: set<Event>)
    requires Accounted(s) && fd < |s.fds| && Ready(s.fds[fd], asked)
    ensures var t := FireAll(s, fd, asked);
            t.Some? && t.value.scheduled == s.scheduled + Waiting(s.fds[fd], asked)
  {
    if Read in asked {
      FireHands(s, fd, Read);
      FireKeeps(s, fd, Read);
    }
    var s1 := if Read in asked then Fire(s, fd, Read).value else s;
    if Write in asked {
      FireHands(s1, fd, Write);
    }
  }

  lemma RegisteredReady(s: State, fd: nat, asked: set<Event>)
    requires Agreed(s) && Undisturbed(s, fd) && asked <= s.fds[fd].events
    ensures Ready(s.fds[fd], asked)
  {
    assert AgreedAt(s, fd, Read) && AgreedAt(s, fd, Write);
  }

  /** What is left of a descriptor. */
  lemma TookOthers(s: State, s': State, fd: nat, asked: set<Event>)
    requires fd < |s.fds| && Took(s, s', fd, asked)
    ensures |s'.fds| == |s.fds| && forall g :: 0 <= g < |s.fds| && g != fd ==> s'.fds[g] == s.fds[g]
  {
  }

  /** Where nobody is between bit and work, an event has a scheduler exactly when it is registered. */
  lemma TriggerableIff(s: State, fd: nat, asked: set<Event>)
    requires Agreed(s) && Undisturbed(s, fd)
    ensures Triggerable(s.fds[fd], asked) <==> asked <= s.fds[fd].events
  {
    assert AgreedAt(s, fd, Read) && AgreedAt(s, fd, Write);
    EventSets(asked, s.fds[fd].events);
  }

  /** Event number by event number. */
  lemma EventSets(a: set<Event>, b: set<Event>)
    ensures a * b == {} <==> !(Read in a && Read in b) && !(Write in a && Write in b)
    ensures a <= b <==> (Read in a ==> Read in b) && (Write in a ==> Write in b)
  {
    assert forall e :: e in a ==> e == Read || e == Write;
    if a * b == {} {
      assert Read !in a * b && Write !in a * b;
    } else {
      var e :| e in a * b;
      assert e == Read || e == Write;
    }
  }

  lemma HandleHands(s: State, fd: nat, r: Report, ctl: bool)
    requires Inv(s) && fd < |s.fds| && (fd, r) in s.polled
    requires var asked := RealEvents(r, s.fds[fd].events); Acts(s, fd, asked, ctl) && Ready(s.fds[fd], asked)
    ensures var o := Step(s, HandleCall(fd, r), ctl);
            o.Went? && o.s.scheduled == s.scheduled + Waiting(s.fds[fd], RealEvents(r, s.fds[fd].events))
  {
    var asked := RealEvents(r, s.fds[fd].events);
    var s1 := Start(s, HandleCall(fd, r));
    var left := s.fds[fd].events - asked;
    CtlAfter(s.kernel, fd, left, true);
    var s2 := s1.(kernel := KernelAfter(s.kernel, fd, left));
    SameSlots(s, s2);
    FireAllHands(s2, fd, asked);
  }

  lemma CancelHands(s: State, fd: nat, e: Event, ctl: bool)
    requires Inv(s) && Acts(s, fd, {e}, ctl) && Ready(s.fds[fd], {e})
    ensures var o := Step(s, CancelCall(fd, e), ctl);
            o.Went? && o.s.scheduled == s.scheduled + [Handed(Context(s.fds[fd], e))]
  {
    var left := s.fds[fd].events - {e};
    assert e in s.fds[fd].events by { assert s.fds[fd].events * {e} != {}; }
    CtlAfter(s.kernel, fd, left, true);
    var s1 := s.(kernel := KernelAfter(s.kernel, fd, left));
    SameSlots(s, s1);
    FireHands(s1, fd, e);
  }

  lemma CancelAllHands(s: State, fd: nat, ctl: bool)
    requires Inv(s) && fd < |s.fds| && Acts(s, fd, s.fds[fd].events, ctl) && Ready(s.fds[fd], s.fds[fd].events)
    ensures var o := Step(s, CancelAllCall(fd), ctl);
            o.Went? && o.s.scheduled == s.scheduled + Waiting(s.fds[fd], s.fds[fd].events)
  {
    CtlAfter(s.kernel, fd, {}, true);
    var s1 := s.(kernel := KernelAfter(s.kernel, fd, {}));
    SameSlots(s, s1);
    FireAllHands(s1, fd, s.fds[fd].events);
    FireAllKeeps(s1, fd, s.fds[fd].events);
  }

  /** What a region that triggers does where nobody is between bit and work: it takes the events `asked`, and hands
      their waiters to the scheduler; or it goes wrong, since one of them is not registered; or it does nothing. */
  lemma RegionWakes(s: State, c: Call, ctl: bool)
    requires Inv(s) && Agreed(s) && Enabled(s, c) && Region(s, c).Some? && !c.DelCall? && Undisturbed(s, c.fd)
    ensures var o, (fd, asked), d := Step(s, c, ctl), Region(s, c).value, s.fds[c.fd];
            && !o.Disabled? && (o.Crash? <==> Acts(s, fd, asked, ctl) && !(asked <= d.events))
            && (o.Went? ==>
                  && o.answer == Acts(s, fd, asked, ctl) && |o.s.fds| == |s.fds|
                  && (!o.answer ==> o.s == Start(s, c))
                  && (o.answer ==>
                        && asked <= d.events && Ready(d, asked) && o.s.fds[fd].events == d.events - asked
                        && (forall g :: 0 <= g < |s.fds| && g != fd ==> o.s.fds[g] == s.fds[g])
                        && o.s.scheduled == s.scheduled + Waiting(d, asked)))
  {
    var (fd, asked) := Region(s, c).value;
    RegionEffect(s, c, ctl);
    TriggerableIff(s, fd, asked);
    if Acts(s, fd, asked, ctl) && asked <= s.fds[fd].events {
      RegisteredReady(s, fd, asked);
      TookOthers(Start(s, c), Step(s, c, ctl).s, fd, asked);
      match c
      case CancelCall(_, e) => CancelHands(s, fd, e, ctl);
      case CancelAllCall(_) => CancelAllHands(s, fd, ctl);
      case HandleCall(_, r) => HandleHands(s, fd, r, ctl);
    }
  }

  /** idle() on one report, and the events: after an error or a hang-up none of the descriptor stays registered, after
      any other report exactly the reported ones go, and nothing changes when epoll_ctl does not succeed. */
  lemma ReportTakes(s: State, fd: nat, r: Report, ctl: bool)
    requires Inv(s) && Agreed(s) && Undisturbed(s, fd) && (fd, r) in s.polled
    ensures var o, d := Step(s, HandleCall(fd, r), ctl), s.fds[fd];
            var works := ctl && fd in s.kernel;
            && !o.Disabled?
            && (o.Went? ==>
                  && |o.s.fds| == |s.fds| && (forall g :: 0 <= g < |s.fds| && g != fd ==> o.s.fds[g] == s.fds[g])
                  && (!works ==> o.s.fds == s.fds && o.s.scheduled == s.scheduled && !o.answer)
                  && (works && r.failed ==> o.s.fds[fd].events == {})
                  && (works && !r.failed ==>
                        && (Read in o.s.fds[fd].events <==> Read in d.events && !r.input)
                        && (Write in o.s.fds[fd].events <==> Write in d.events && !r.output)))
  {
    var d, o := s.fds[fd], Step(s, HandleCall(fd, r), ctl);
    RegionWakes(s, HandleCall(fd, r), ctl);
    EventSets(d.events, RealEvents(r, d.events));
    if o.Went? {
      EventSets(o.s.fds[fd].events, {Read, Write});
    }
  }

  /** idle() on one report.  It hands the waiters of the registered events that were reported to the scheduler, READ
      before WRITE, and of all registered events after an error or a hang-up; nothing when epoll_ctl fails.  It goes
      wrong exactly when an event is reported that is not registered, along with one that is. */
  lemma ReportWakes(s: State, fd: nat, r: Report, ctl: bool)
    requires Inv(s) && Agreed(s) && Undisturbed(s, fd) && (fd, r) in s.polled
    ensures var o, d := Step(s, HandleCall(fd, r), ctl), s.fds[fd];
            var read, write := Read in d.events && (r.input || r.failed), Write in d.events && (r.output || r.failed);
            var works := ctl && fd in s.kernel;
            && (o.Crash? <==>
                  works && ((r.input && Read !in d.events && write) || (r.output && Write !in d.events && read)))
            && (o.Went? ==> o.answer == (works && (read || write)))
            && (o.Went? && works ==>
                  && (read ==> Complete(d.read)) && (write ==> Complete(d.write))
                  && o.s.scheduled == s.scheduled + (if read then [Handed(d.read)] else [])
                                      + (if write then [Handed(d.write)] else []))
  {
    var d := s.fds[fd];
    RegionWakes(s, HandleCall(fd, r), ctl);
    EventSets(d.events, RealEvents(r, d.events));
    EventSets(RealEvents(r, d.events), d.events);
    RegisteredReady(s, fd, d.events);
  }

  /** cancelEvent takes its event away and hands the waiter to the scheduler, or changes nothing. */
  lemma CancelWakes(s: State, fd: nat, e: Event, ctl: bool)
    requires Inv(s) && Agreed(s) && (fd < |s.fds| ==> Undisturbed(s, fd))
    ensures var o := Step(s, CancelCall(fd, e), ctl);
            && o.Went? && o.answer == (ctl && fd in s.kernel && fd < |s.fds| && e in s.fds[fd].events)
            && (!o.answer ==> o.s == s)
            && (o.answer ==>
                  && |o.s.fds| == |s.fds| && o.s.fds[fd].events == s.fds[fd].events - {e}
                  && Complete(Context(s.fds[fd], e))
                  && o.s.scheduled == s.scheduled + [Handed(Context(s.fds[fd], e))])
  {
    CancelKeeps(s, fd, e, ctl);
    if fd < |s.fds| {
      RegionWakes(s, CancelCall(fd, e), ctl);
      EventSets(s.fds[fd].events, {e});
    }
  }

  /** cancelAll takes all events away and hands all waiters to the scheduler, READ before WRITE, or changes nothing. */
  lemma CancelAllWakes(s: State, fd: nat, ctl: bool)
    requires Inv(s) && Agreed(s) && (fd < |s.fds| ==> Undisturbed(s, fd))
    ensures var o := Step(s, CancelAllCall(fd), ctl);
            && o.Went? && o.answer == (ctl && fd in s.kernel && fd < |s.fds| && s.fds[fd].events != {})
            && (!o.answer ==> o.s == s)
            && (o.answer ==>
                  && |o.s.fds| == |s.fds| && o.s.fds[fd].events == {}
                  && var d := s.fds[fd];
                  && (Read in d.events ==> Complete(d.read)) && (Write in d.events ==> Complete(d.write))
                  && o.s.scheduled == s.scheduled + (if Read in d.events then [Handed(d.read)] else [])
                                      + (if Write in d.events then [Handed(d.write)] else []))
  {
    CancelAllKeeps(s, fd, ctl);
    if fd < |s.fds| {
      RegionWakes(s, CancelAllCall(fd), ctl);
      assert s.fds[fd].events * s.fds[fd].events == s.fds[fd].events;
    }
  }

  // ---- who is withdrawn

  lemma EmptiedFate(s: State, fd: nat, e: Event, call: bool, fate: Fate, id: nat)
    requires fd < |s.fds| && id < |s.regs|
    ensures var c, t := Context(s.fds[fd], e), Emptied(s, fd, e, call, fate);
            && |t.regs| == |s.regs|
            && t.regs[id] == if Slot(c, call).Some? && Slot(c, call).value.id == id
                             then s.regs[id].(fate := fate) else s.regs[id]
  {
  }

  lemma ResetFate(s: State, fd: nat, e: Event, fiber: Fate, call: Fate, id: nat)
    requires Accounted(s) && fd < |s.fds| && id < |s.regs|
    ensures var t, r := Reset(s, fd, e, fiber, call), s.regs[id];
            && |t.regs| == |s.regs|
            && t.regs[id] == if r.fate.Waits? && r.fd == fd && r.e == e
                             then r.(fate := if r.work.Call? then call else fiber) else r
  {
    EmptiedFate(s, fd, e, false, fiber, id);
    var s1 := Emptied(s, fd, e, false, fiber);
    EmptiedFate(s1, fd, e, true, call, id);
    EmptiedSlots(s, fd, e, false, fiber, e, true);
  }

  lemma FireFate(s: State, fd: nat, e: Event, id: nat)
    requires Accounted(s) && fd < |s.fds| && id < |s.regs| && Fire(s, fd, e).Some?
    ensures var t := Fire(s, fd, e).value;
            && |t.regs| == |s.regs| && (t.regs[id].fate.Deleted? <==> s.regs[id].fate.Deleted?)
            && t.regs[id] == s.regs[id].(fate := t.regs[id].fate)
  {
    var c, next := Context(s.fds[fd], e), Scheduled(|s.scheduled|);
    ResetFate(s, fd, e, if c.call.Some? then Displaced else next, next, id);
  }

  lemma FireAllFate(s: State, fd: nat, asked: set<Event>, id: nat)
    requires Accounted(s) && fd < |s.fds| && id < |s.regs| && FireAll(s, fd, asked).Some?
    ensures var t := FireAll(s, fd, asked).value;
            && |t.regs| == |s.regs| && (t.regs[id].fate.Deleted? <==> s.regs[id].fate.Deleted?)
            && t.regs[id] == s.regs[id].(fate := t.regs[id].fate)
  {
    FireKeeps(s, fd, Read);
    if Read in asked {
      FireFate(s, fd, Read, id);
    }
    if Write in asked {
      FireFate(if Read in asked then Fire(s, fd, Read).value else s, fd, Write, id);
    }
  }

  /** The call is a delEvent of event e of fd that takes effect. */
  predicate Withdraws(s: State, c: Call, ctl: bool, fd: nat, e: Event) {
    c == DelCall(fd, e) && ctl && fd in s.kernel && fd < |s.fds| && e in s.fds[fd].events
  }

  lemma DelFate(s: State, fd: nat, e: Event, ctl: bool, id: nat)
    requires Inv(s) && id < |s.regs|
    ensures var t, r := DelEvent(s, fd, e, ctl).s, s.regs[id];
            && |t.regs| == |s.regs| && t.scheduled == s.scheduled
            && t.regs[id] == if r.fate.Waits? && Withdraws(s, DelCall(fd, e), ctl, r.fd, r.e)
                             then r.(fate := Deleted) else r
  {
    if fd < |s.fds| && e in s.fds[fd].events {
      var left := s.fds[fd].events - {e};
      CtlAfter(s.kernel, fd, left, ctl);
      var s1 := s.(kernel := KernelAfter(s.kernel, fd, left));
      SameSlots(s, s1);
      ResetFate(s1, fd, e, Deleted, Deleted, id);
    }
  }

  /** The registrations are the same ones, and number id was not deleted by this. */
  ghost predicate FateKept(s: State, t: State, id: nat)
    requires id < |s.regs|
  {
    && |s.regs| <= |t.regs| && (t.regs[id].fate.Deleted? <==> s.regs[id].fate.Deleted?)
    && t.regs[id] == s.regs[id].(fate := t.regs[id].fate)
    && forall i :: |s.regs| <= i < |t.regs| ==> t.regs[i].fate.Waits?
  }

  lemma TriggerFate(s: State, c: Call, ctl: bool, id: nat)
    requires Inv(s) && id < |s.regs| && Region(s, c).Some? && !c.DelCall? && Step(s, c, ctl).Went?
    ensures FateKept(s, Step(s, c, ctl).s, id)
  {
    var t := Start(s, c);
    SameSlots(s, t);
    match c
    case CancelCall(fd, e) =>
      if fd < |s.fds| && e in s.fds[fd].events {
        var k := Ctl(s.kernel, Remaining(s.fds[fd].events - {e}), fd, s.fds[fd].events - {e}, ctl);
        if k.Some? {
          SameSlots(s, s.(kernel := k.value));
          FireFate(s.(kernel := k.value), fd, e, id);
        }
      }
    case CancelAllCall(fd) =>
      var k := Ctl(s.kernel, Del, fd, {}, ctl);
      if fd < |s.fds| && s.fds[fd].events != {} && k.Some? {
        SameSlots(s, s.(kernel := k.value));
        FireAllFate(s.(kernel := k.value), fd, s.fds[fd].events, id);
      }
    case HandleCall(fd, r) =>
      var asked := RealEvents(r, s.fds[fd].events);
      var k := Ctl(s.kernel, Remaining(s.fds[fd].events - asked), fd, s.fds[fd].events - asked, ctl);
      if k.Some? && s.fds[fd].events * asked != {} {
        SameSlots(s, t.(kernel := k.value));
        FireAllFate(t.(kernel := k.value), fd, asked, id);
      }
  }

  lemma WorkFate(s: State, t: nat, id: nat)
    requires Inv(s) && id < |s.regs| && t in s.adding && s.adding[t].Bound? && s.adding[t].fd < |s.fds|
    ensures FateKept(s, AddWork(s, t).s, id)
  {
    var a := s.adding[t];
    EmptiedFate(s, a.fd, a.e, a.work.Call?, Displaced, id);
  }

  /** A registration is deleted by the delEvent that withdraws its event while it waits, and by nothing else. */
  lemma StepFate(s: State, c: Call, ctl: bool, id: nat)
    requires Inv(s) && Step(s, c, ctl).Went? && id < |s.regs|
    ensures var t, r := Step(s, c, ctl).s, s.regs[id];
            && |s.regs| <= |t.regs| && t.regs[id] == r.(fate := t.regs[id].fate)
            && (t.regs[id].fate.Deleted? <==> r.fate.Deleted? || (r.fate.Waits? && Withdraws(s, c, ctl, r.fd, r.e)))
            && forall i :: |s.regs| <= i < |t.regs| ==> t.regs[i].fate.Waits?
  {
    match c
    case DelCall(fd, e) => DelFate(s, fd, e, ctl, id);
    case AddWorkCall(t) => WorkFate(s, t, id);
    case CancelCall(_, _) => TriggerFate(s, c, ctl, id);
    case CancelAllCall(_) => TriggerFate(s, c, ctl, id);
    case HandleCall(_, _) => TriggerFate(s, c, ctl, id);
    case AddLookCall(_, _, _, _) =>
    case AddCtlCall(_) =>
    case AddBitCall(_) =>
    case AddSchedulerCall(_) =>
    case PollCall(_, _) =>
  }

  /** Somewhere in the run registration id waits, and a delEvent withdraws its event. */
  ghost predicate WithdrawnIn(s: State, calls: seq<(IoEvents.Call, bool)>, id: nat)
    decreases |calls|
  {
    calls != [] && Step(s, calls[0].0, calls[0].1).Went? &&
    (|| (id < |s.regs| && s.regs[id].fate.Waits?
         && Withdraws(s, calls[0].0, calls[0].1, s.regs[id].fd, s.regs[id].e))
     || WithdrawnIn(Step(s, calls[0].0, calls[0].1).s, calls[1..], id))
  }

  lemma FireLength(s: State, fd: nat, e: Event)
    requires fd < |s.fds|
    ensures Fire(s, fd, e).Some? ==> |Fire(s, fd, e).value.regs| == |s.regs|
  {
  }

  lemma FireAllLength(s: State, fd: nat, asked: set<Event>)
    requires fd < |s.fds|
    ensures FireAll(s, fd, asked).Some? ==> |FireAll(s, fd, asked).value.regs| == |s.regs|
  {
    FireLength(s, fd, Read);
    var s1 := if Read in asked then Fire(s, fd, Read) else Some(s);
    if s1.Some? {
      FireLength(s1.value, fd, Write);
    }
  }

  /** A region makes no registration. */
  lemma RegionLength(s: State, c: Call, ctl: bool)
    requires Region(s, c).Some? && Step(s, c, ctl).Went?
    ensures |Step(s, c, ctl).s.regs| == |s.regs|
  {
    if c.fd < |s.fds| {
      match c
      case DelCall(_, _) =>
      case CancelCall(fd, e) =>
        var left := s.fds[fd].events - {e};
        var k := Ctl(s.kernel, Remaining(left), fd, left, ctl);
        if k.Some? { FireLength(s.(kernel := k.value), fd, e); }
      case CancelAllCall(fd) =>
        var k := Ctl(s.kernel, Del, fd, {}, ctl);
        if k.Some? { FireAllLength(s.(kernel := k.value), fd, s.fds[fd].events); }
      case HandleCall(fd, r) =>
        var left := s.fds[fd].events - RealEvents(r, s.fds[fd].events);
        var k := Ctl(s.kernel, Remaining(left), fd, left, ctl);
        if k.Some? { FireAllLength(Start(s, c).(kernel := k.value), fd, RealEvents(r, s.fds[fd].events)); }
    }
  }

  /** New registrations wait. */
  lemma RegsGrow(s: State, c: Call, ctl: bool)
    requires Inv(s) && Step(s, c, ctl).Went?
    ensures var t := Step(s, c, ctl).s;
            |s.regs| <= |t.regs| && forall i :: |s.regs| <= i < |t.regs| ==> t.regs[i].fate.Waits?
  {
    if Region(s, c).Some? {
      RegionLength(s, c, ctl);
    }
  }

  lemma {:induction false} RunFate(s: State, calls: seq<(IoEvents.Call, bool)>, id: nat)
    requires Inv(s) && Run(s, calls).Went? && id < |Run(s, calls).s.regs|
    ensures |s.regs| <= |Run(s, calls).s.regs|
    ensures Run(s, calls).s.regs[id].fate.Deleted? <==>
              (id < |s.regs| && s.regs[id].fate.Deleted?) || WithdrawnIn(s, calls, id)
    decreases |calls|
  {
    if calls != [] {
      var (c, ctl) := calls[0];
      StepKeeps(s, c, ctl);
      RunFate(Step(s, c, ctl).s, calls[1..], id);
      RegsGrow(s, c, ctl);
      if id < |s.regs| {
        StepFate(s, c, ctl, id);
      }
    }
  }

  /** Over every run, rules broken or not: a registration is deleted if and only if a delEvent of its event took effect
      while it was waiting.  What the other operations take out of a context goes to the scheduler or is displaced. */
  lemma DeletedExactly(calls: seq<(IoEvents.Call, bool)>, id: nat)
    requires Run(INIT, calls).Went? && id < |Run(INIT, calls).s.regs|
    ensures Run(INIT, calls).s.regs[id].fate.Deleted? <==> WithdrawnIn(INIT, calls, id)
  {
    InitInv();
    RunFate(INIT, calls, id);
  }
}
