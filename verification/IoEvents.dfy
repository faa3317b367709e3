/** One-shot IO events (src/fiber/iomanager.cpp) as a state machine: the event bits and contexts of every file
    descriptor, the interest set that the kernel holds, and the count of pending events.  epoll_ctl may fail at any
    time.  A region under the lock of a descriptor is one step.  addEvent holds no such lock, and is five steps: it
    reads the bits; it calls epoll_ctl; it counts the event and sets its bit; it asserts that the context is empty and
    stores the scheduler; it stores the fiber or the callback.  FdContext::triggerEvent is taken to do what its comment
    says: clear the event from the registered ones, schedule its callback or fiber, reset the context. */
module IoEvents {
  import opened Options

  datatype Event = Read | Write

  /** What a context resumes: the callback it was given, or the fiber that registered the event. */
  datatype Work = WakeFiber(f: nat) | Call(c: nat)

  /** `id` numbers the registrations in order; the program has no such field. */
  datatype Waiter = Waiter(id: nat, work: Work)

  /** EventContext: whether its scheduler is set, its fiber, and its callback. */
  datatype Ctx = Ctx(scheduler: bool, fiber: Option<Waiter>, call: Option<Waiter>)

  const BARE := Ctx(false, None, None)
  const HALF := Ctx(true, None, None)

  /** FdContext. */
  datatype Fd = Fd(events: set<Event>, read: Ctx, write: Ctx)

  const EMPTY := Fd({}, BARE, BARE)
  const INITIAL_SIZE: nat := 32

  type Kernel = map<nat, set<Event>>

  /** What has become of a registration: it is in its context, it was the k-th to be scheduled, it was deleted, or
      another took its place in the context. */
  datatype Fate = Waits | Scheduled(k: nat) | Deleted | Displaced
  datatype Registration = Registration(fd: nat, e: Event, work: Work, fate: Fate)

  /** A call of addEvent under way.  Looked: it has passed its first assertion and saw the events `seen`.  Armed: its
      epoll_ctl has succeeded.  Marked: its bit is set.  Bound: its scheduler is stored. */
  datatype Adding = Looked(fd: nat, e: Event, work: Work, seen: set<Event>) | Armed(fd: nat, e: Event, work: Work)
                  | Marked(fd: nat, e: Event, work: Work) | Bound(fd: nat, e: Event, work: Work)

  /** What the kernel reports for a descriptor: EPOLLIN, EPOLLOUT, and EPOLLERR or EPOLLHUP. */
  datatype Report = Report(input: bool, output: bool, failed: bool)

  /** `adding` are the calls of addEvent under way, by thread; `polled` is what epoll_wait has returned and idle() has
      not handled yet; `scheduled` is what was handed to the scheduler, in order; `regs` is the history of
      registrations, which begin when their work is stored. */
  datatype State = State(fds: seq<Fd>, kernel: Kernel, pending: int, adding: map<nat, Adding>,
                         polled: multiset<(nat, Report)>, scheduled: seq<Waiter>, regs: seq<Registration>)

  /** Disabled: the step cannot happen here.  Crash: a failed assertion or a null scheduler. */
  datatype Outcome = Disabled | Crash | Went(s: State, answer: bool)

  function Context(d: Fd, e: Event): Ctx {
    if e.Read? then d.read else d.write
  }

  function Set(d: Fd, e: Event, c: Ctx): Fd {
    if e.Read? then d.(read := c) else d.(write := c)
  }

  /** The member of a context for callbacks, or the one for fibers. */
  function Slot(c: Ctx, call: bool): Option<Waiter> {
    if call then c.call else c.fiber
  }

  function WithSlot(c: Ctx, call: bool, w: Option<Waiter>): Ctx {
    if call then c.(call := w) else c.(fiber := w)
  }

  // ---- epoll

  datatype Op = Add | Mod | Del

  /** epoll_ctl: ADD needs a descriptor that is not in the interest set, the others one that is; and the call may
      fail for other reasons.  None: it failed. */
  function Ctl(k: Kernel, op: Op, fd: nat, mask: set<Event>, succeeds: bool): Option<Kernel> {
    if !succeeds || (op.Add? <==> fd in k) then None
    else if op.Del? then Some(k - {fd})
    else Some(k[fd := mask])
  }

  /** The events that idle() acts on; after an error or a hang-up all registered ones. */
  function RealEvents(r: Report, events: set<Event>): set<Event> {
    (if r.input || (r.failed && Read in events) then {Read} else {}) +
    (if r.output || (r.failed && Write in events) then {Write} else {})
  }

  // ---- the operations

  /** contextResize(fd * 1.5), when there is no context for fd yet. */
  function Grow(s: State, fd: nat): (r: State)
    requires |s.fds| >= INITIAL_SIZE
    ensures fd < |r.fds|
  {
    if fd < |s.fds| then s else s.(fds := s.fds + seq(fd * 3 / 2 - |s.fds|, _ => EMPTY))
  }

  /** addEvent up to its assertion: the same event may not be registered twice. */
  function AddLook(s: State, t: nat, fd: nat, e: Event, work: Work): Outcome
    requires |s.fds| >= INITIAL_SIZE
  {
    var s := Grow(s, fd);
    var seen := s.fds[fd].events;
    if e in seen then Crash else Went(s.(adding := s.adding[t := Looked(fd, e, work, seen)]), true)
  }

  /** Its epoll_ctl, with the operation and the mask made from what it saw. */
  function AddCtl(s: State, t: nat, ctl: bool): Outcome
    requires t in s.adding && s.adding[t].Looked?
  {
    var a := s.adding[t];
    match Ctl(s.kernel, if a.seen != {} then Mod else Add, a.fd, a.seen + {a.e}, ctl)
    case None => Went(s.(adding := s.adding - {t}), false)
    case Some(k) => Went(s.(adding := s.adding[t := Armed(a.fd, a.e, a.work)], kernel := k), true)
  }

  /** The count and the bit. */
  function AddBit(s: State, t: nat): Outcome
    requires t in s.adding && s.adding[t].Armed? && s.adding[t].fd < |s.fds|
  {
    var a := s.adding[t];
    var d := s.fds[a.fd];
    Went(s.(fds := s.fds[a.fd := d.(events := d.events + {a.e})], pending := s.pending + 1,
            adding := s.adding[t := Marked(a.fd, a.e, a.work)]), true)
  }

  /** The scheduler, with the assertion that the context is empty. */
  function AddScheduler(s: State, t: nat): Outcome
    requires t in s.adding && s.adding[t].Marked? && s.adding[t].fd < |s.fds|
  {
    var a := s.adding[t];
    var d := s.fds[a.fd];
    if Context(d, a.e) != BARE then Crash
    else Went(s.(fds := s.fds[a.fd := Set(d, a.e, HALF)], adding := s.adding[t := Bound(a.fd, a.e, a.work)]), true)
  }

  /** The callback or the fiber. */
  function AddWork(s: State, t: nat): Outcome
    requires t in s.adding && s.adding[t].Bound? && s.adding[t].fd < |s.fds|
  {
    var a := s.adding[t];
    var s1 := Emptied(s, a.fd, a.e, a.work.Call?, Displaced);
    Went(Stored(s1, a.fd, a.e, a.work).(adding := s.adding - {t}), true)
  }

  function Stored(s: State, fd: nat, e: Event, work: Work): State
    requires fd < |s.fds|
  {
    var c := WithSlot(Context(s.fds[fd], e), work.Call?, Some(Waiter(|s.regs|, work)));
    s.(fds := s.fds[fd := Set(s.fds[fd], e, c)], regs := s.regs + [Registration(fd, e, work, Waits)])
  }

  /** A call of addEvent that nobody disturbs. */
  function AddEvent(s: State, t: nat, fd: nat, e: Event, work: Work, ctl: bool): Outcome
    requires |s.fds| >= INITIAL_SIZE
  {
    var o := AddLook(s, t, fd, e, work);
    if !o.Went? then o
    else
      var armed := AddCtl(o.s, t, ctl);
      if armed.answer then AddRest(armed.s, t) else armed
  }

  /** Its part after epoll_ctl. */
  function AddRest(s: State, t: nat): Outcome
    requires t in s.adding && s.adding[t].Armed? && s.adding[t].fd < |s.fds|
  {
    var bound := AddScheduler(AddBit(s, t).s, t);
    if bound.Went? then AddWork(bound.s, t) else bound
  }

  function Settled(regs: seq<Registration>, id: nat, fate: Fate): seq<Registration> {
    if id < |regs| then regs[id := regs[id].(fate := fate)] else regs
  }

  /** What is in a slot of a context leaves it for its fate. */
  function Emptied(s: State, fd: nat, e: Event, call: bool, fate: Fate): (r: State)
    requires fd < |s.fds|
    ensures |r.fds| == |s.fds|
  {
    var c := Context(s.fds[fd], e);
    if Slot(c, call).None? then s
    else
      var w := Slot(c, call).value;
      s.(fds := s.fds[fd := Set(s.fds[fd], e, WithSlot(c, call, None))], regs := Settled(s.regs, w.id, fate),
         scheduled := if fate.Scheduled? then s.scheduled + [w] else s.scheduled)
  }

  /** An event is cleared and uncounted and its context reset. */
  function Reset(s: State, fd: nat, e: Event, fiber: Fate, call: Fate): State
    requires fd < |s.fds|
  {
    var s1 := Emptied(Emptied(s, fd, e, false, fiber), fd, e, true, call);
    var d := s1.fds[fd];
    s1.(fds := s1.fds[fd := Set(d, e, BARE).(events := d.events - {e})], pending := s1.pending - 1)
  }

  /** triggerEvent and the decrement that follows each of its calls: the callback is scheduled if there is one, or else
      the fiber, or else nothing.  None: there is no scheduler. */
  function Fire(s: State, fd: nat, e: Event): (r: Option<State>)
    requires fd < |s.fds|
    ensures r.Some? ==> |r.value.fds| == |s.fds|
  {
    var c, next := Context(s.fds[fd], e), Scheduled(|s.scheduled|);
    if c.scheduler then Some(Reset(s, fd, e, if c.call.Some? then Displaced else next, next)) else None
  }

  /** READ before WRITE. */
  function FireAll(s: State, fd: nat, events: set<Event>): (r: Option<State>)
    requires fd < |s.fds|
    ensures r.Some? ==> |r.value.fds| == |s.fds|
  {
    var s1 := if Read in events then Fire(s, fd, Read) else Some(s);
    if s1.None? || Write !in events then s1 else Fire(s1.value, fd, Write)
  }

  /** The operation on the interest set after which `left` remain. */
  function Remaining(left: set<Event>): Op {
    if left != {} then Mod else Del
  }

  function DelEvent(s: State, fd: nat, e: Event, ctl: bool): Outcome {
    if fd >= |s.fds| || e !in s.fds[fd].events then Went(s, false)
    else
      var left := s.fds[fd].events - {e};
      match Ctl(s.kernel, Remaining(left), fd, left, ctl)
      case None => Went(s, false)
      case Some(k) => Went(Reset(s.(kernel := k), fd, e, Deleted, Deleted), true)
  }

  function CancelEvent(s: State, fd: nat, e: Event, ctl: bool): Outcome {
    if fd >= |s.fds| || e !in s.fds[fd].events then Went(s, false)
    else
      var left := s.fds[fd].events - {e};
      match Ctl(s.kernel, Remaining(left), fd, left, ctl)
      case None => Went(s, false)
      case Some(k) =>
        match Fire(s.(kernel := k), fd, e)
        case None => Crash
        case Some(t) => Went(t, true)
  }

  function CancelAll(s: State, fd: nat, ctl: bool): Outcome {
    if fd >= |s.fds| || s.fds[fd].events == {} then Went(s, false)
    else
      match Ctl(s.kernel, Del, fd, {}, ctl)
      case None => Went(s, false)
      case Some(k) =>
        match FireAll(s.(kernel := k), fd, s.fds[fd].events)
        case None => Crash
        case Some(t) => if t.fds[fd].events == {} then Went(t, true) else Crash
  }

  /** One entry of what epoll_wait returned, handled by idle(). */
  function Handle(s: State, fd: nat, r: Report, ctl: bool): Outcome
    requires fd < |s.fds|
  {
    var events := s.fds[fd].events;
    var acted := RealEvents(r, events);
    if events * acted == {} then Went(s, false)
    else
      var left := events - acted;
      match Ctl(s.kernel, Remaining(left), fd, left, ctl)
      case None => Went(s, false)
      case Some(k) =>
        match FireAll(s.(kernel := k), fd, acted)
        case None => Crash
        case Some(t) => Went(t, true)
  }

  // ---- what every run keeps

  /** What waits in a context was registered for it. */
  ghost predicate WaitersKnown(s: State) {
    forall fd, e, call :: 0 <= fd < |s.fds| && Slot(Context(s.fds[fd], e), call).Some? ==>
      var w := Slot(Context(s.fds[fd], e), call).value;
      w.id < |s.regs| && w.work.Call? == call && s.regs[w.id] == Registration(fd, e, w.work, Waits)
  }

  /** A registration that waits is in its context. */
  ghost predicate WaitingHere(s: State) {
    forall id :: 0 <= id < |s.regs| && s.regs[id].fate.Waits? ==>
      var r := s.regs[id];
      r.fd < |s.fds| && Slot(Context(s.fds[r.fd], r.e), r.work.Call?) == Some(Waiter(id, r.work))
  }

  /** What was scheduled are exactly the registrations that say so, each once. */
  ghost predicate ScheduledOnce(s: State) {
    && (forall k :: 0 <= k < |s.scheduled| ==>
          s.scheduled[k].id < |s.regs| && s.regs[s.scheduled[k].id].fate == Scheduled(k)
          && s.regs[s.scheduled[k].id].work == s.scheduled[k].work)
    && (forall id :: 0 <= id < |s.regs| && s.regs[id].fate.Scheduled? ==>
          s.regs[id].fate.k < |s.scheduled| && s.scheduled[s.regs[id].fate.k].id == id)
  }

  ghost predicate Accounted(s: State) {
    WaitersKnown(s) && WaitingHere(s) && ScheduledOnce(s)
  }

  /** Whatever names a descriptor names one that has a context; who adds an event did not see it. */
  ghost predicate Known(s: State) {
    && |s.fds| >= INITIAL_SIZE
    && (forall fd :: fd in s.kernel ==> fd < |s.fds|)
    && (forall t :: t in s.adding ==>
          s.adding[t].fd < |s.fds| && (s.adding[t].Looked? ==> s.adding[t].e !in s.adding[t].seen))
    && (forall x :: x in s.polled ==> x.0 < |s.fds|)
  }

  /** This much holds in every run, whatever falls into an addEvent. */
  ghost predicate Inv(s: State) {
    Accounted(s) && Known(s)
  }

  const INIT := State(seq(INITIAL_SIZE, _ => EMPTY), map[], 0, map[], multiset{}, [], [])

  ghost predicate ChangedAt(s: State, t: State, fd: nat) {
    fd < |s.fds| == |t.fds| && t.fds == s.fds[fd := t.fds[fd]]
  }

  lemma GrowKeeps(s: State, fd: nat)
    requires Inv(s)
    ensures Inv(Grow(s, fd))
  {
    var t := Grow(s, fd);
    assert forall i :: 0 <= i < |t.fds| ==> t.fds[i] == if i < |s.fds| then s.fds[i] else EMPTY;
  }

  /** A new registration takes its place. */
  lemma StoredKeeps(s: State, fd: nat, e: Event, work: Work)
    requires Accounted(s) && fd < |s.fds| && Slot(Context(s.fds[fd], e), work.Call?).None?
    ensures Accounted(Stored(s, fd, e, work))
  {
    var n, t := |s.regs|, Stored(s, fd, e, work);
    assert t.regs[n].fate.Waits? && forall id :: 0 <= id < n ==> t.regs[id] == s.regs[id];
    forall x, call ensures Slot(Context(t.fds[fd], x), call) ==
      if x == e && call == work.Call? then Some(Waiter(n, work)) else Slot(Context(s.fds[fd], x), call)
    {
    }
  }

  /** What was in a slot has left it. */
  lemma EmptiedSlots(s: State, fd: nat, e: Event, call: bool, fate: Fate, x: Event, k: bool)
    requires fd < |s.fds|
    ensures var t := Emptied(s, fd, e, call, fate);
            Slot(Context(t.fds[fd], x), k) == if x == e && k == call then None else Slot(Context(s.fds[fd], x), k)
  {
  }

  /** One registration has settled, and the others are as they were. */
  lemma SettledOne(regs: seq<Registration>, id: nat, fate: Fate)
    requires id < |regs|
    ensures var regs' := Settled(regs, id, fate);
            && |regs'| == |regs| && regs'[id] == regs[id].(fate := fate)
            && forall i :: 0 <= i < |regs| && i != id ==> regs'[i] == regs[i]
  {
  }

  lemma EmptiedWaits(s: State, fd: nat, e: Event, call: bool, fate: Fate)
    requires WaitersKnown(s) && WaitingHere(s) && fd < |s.fds| && !fate.Waits?
    ensures WaitersKnown(Emptied(s, fd, e, call, fate)) && WaitingHere(Emptied(s, fd, e, call, fate))
  {
    var t, c := Emptied(s, fd, e, call, fate), Context(s.fds[fd], e);
    if Slot(c, call).Some? {
      SettledOne(s.regs, Slot(c, call).value.id, fate);
      forall x, k ensures
        Slot(Context(t.fds[fd], x), k) == if x == e && k == call then None else Slot(Context(s.fds[fd], x), k)
      {
        EmptiedSlots(s, fd, e, call, fate, x, k);
      }
    }
  }

  lemma EmptiedKeeps(s: State, fd: nat, e: Event, call: bool, fate: Fate)
    requires Accounted(s) && fd < |s.fds| && !fate.Waits?
    requires fate.Scheduled? && Slot(Context(s.fds[fd], e), call).Some? ==> fate.k == |s.scheduled|
    ensures Accounted(Emptied(s, fd, e, call, fate))
  {
    EmptiedWaits(s, fd, e, call, fate);
    var c := Context(s.fds[fd], e);
    if Slot(c, call).Some? {
      SettledOne(s.regs, Slot(c, call).value.id, fate);
    }
  }

  /** The contexts hold the same waiters. */
  lemma SameSlots(s: State, t: State)
    requires Accounted(s) && |t.fds| == |s.fds| && t.regs == s.regs && t.scheduled == s.scheduled
    requires forall fd, e, call ::
               0 <= fd < |s.fds| ==> Slot(Context(t.fds[fd], e), call) == Slot(Context(s.fds[fd], e), call)
    ensures Accounted(t)
  {
  }

  /** s' is s with some events of fd cleared and their contexts reset. */
  ghost predicate Cleared(s: State, s': State, fd: nat, events: set<Event>) {
    && s' == s.(fds := s'.fds, pending := s'.pending, scheduled := s'.scheduled, regs := s'.regs)
    && ChangedAt(s, s', fd) && s'.fds[fd].events == s.fds[fd].events - events
    && s'.pending == s.pending - BitCount(events)
    && forall e :: Context(s'.fds[fd], e) == if e in events then BARE else Context(s.fds[fd], e)
  }

  function BitCount(events: set<Event>): nat {
    (if Read in events then 1 else 0) + (if Write in events then 1 else 0)
  }

  lemma ResetClears(s: State, fd: nat, e: Event, fiber: Fate, call: Fate)
    requires fd < |s.fds|
    ensures Cleared(s, Reset(s, fd, e, fiber, call), fd, {e})
  {
    var s1 := Emptied(s, fd, e, false, fiber);
    var s2 := Emptied(s1, fd, e, true, call);
    assert s1.fds == s.fds[fd := s1.fds[fd]] && s2.fds == s.fds[fd := s2.fds[fd]];
  }

  lemma ResetKeeps(s: State, fd: nat, e: Event, fiber: Fate, call: Fate)
    requires Accounted(s) && fd < |s.fds| && !fiber.Waits? && !call.Waits?
    requires call.Scheduled? ==> call.k == |s.scheduled|
    requires fiber.Scheduled? ==> fiber.k == |s.scheduled| && Context(s.fds[fd], e).call.None?
    ensures Accounted(Reset(s, fd, e, fiber, call))
  {
    var s1 := Emptied(s, fd, e, false, fiber);
    EmptiedKeeps(s, fd, e, false, fiber);
    EmptiedSlots(s, fd, e, false, fiber, e, true);
    var s2 := Emptied(s1, fd, e, true, call);
    EmptiedKeeps(s1, fd, e, true, call);
    EmptiedSlots(s, fd, e, false, fiber, e, false);
    EmptiedSlots(s1, fd, e, true, call, e, false);
    EmptiedSlots(s1, fd, e, true, call, e, true);
    SameSlots(s2, Reset(s, fd, e, fiber, call));
  }

  /** triggerEvent goes wrong exactly where there is no scheduler. */
  lemma FireKeeps(s: State, fd: nat, e: Event)
    requires Accounted(s) && fd < |s.fds|
    ensures Fire(s, fd, e).Some? <==> Context(s.fds[fd], e).scheduler
    ensures Fire(s, fd, e).Some? ==> Accounted(Fire(s, fd, e).value) && Cleared(s, Fire(s, fd, e).value, fd, {e})
  {
    var c, next := Context(s.fds[fd], e), Scheduled(|s.scheduled|);
    if c.scheduler {
      var fiber := if c.call.Some? then Displaced else next;
      ResetClears(s, fd, e, fiber, next);
      ResetKeeps(s, fd, e, fiber, next);
    }
  }

  lemma ClearedTwice(s: State, s1: State, s2: State, fd: nat, a: set<Event>, b: set<Event>)
    requires Cleared(s, s1, fd, a) && Cleared(s1, s2, fd, b) && a !! b
    ensures Cleared(s, s2, fd, a + b)
  {
  }

  /** Each of the events has a scheduler. */
  predicate Triggerable(d: Fd, events: set<Event>) {
    (Read in events ==> d.read.scheduler) && (Write in events ==> d.write.scheduler)
  }

  lemma FireAllKeeps(s: State, fd: nat, events: set<Event>)
    requires Accounted(s) && fd < |s.fds|
    ensures FireAll(s, fd, events).Some? <==> Triggerable(s.fds[fd], events)
    ensures FireAll(s, fd, events).Some? ==>
              Accounted(FireAll(s, fd, events).value) && Cleared(s, FireAll(s, fd, events).value, fd, events)
  {
    var r := if Read in events then {Read} else {};
    var w := if Write in events then {Write} else {};
    assert events == r + w by {
      assert forall e: Event :: e in events ==> e == Read || e == Write;
    }
    FireKeeps(s, fd, Read);
    var s1 := if Read in events then Fire(s, fd, Read) else Some(s);
    if s1.Some? {
      assert Cleared(s, s1.value, fd, r);
      FireKeeps(s1.value, fd, Write);
      var s2 := FireAll(s, fd, events);
      if s2.Some? {
        assert Cleared(s1.value, s2.value, fd, w);
        ClearedTwice(s, s1.value, s2.value, fd, r, w);
      }
    }
  }

  // ---- the steps of addEvent

  lemma LookKeeps(s: State, t: nat, fd: nat, e: Event, work: Work)
    requires Inv(s)
    ensures AddLook(s, t, fd, e, work).Crash? <==> fd < |s.fds| && e in s.fds[fd].events
    ensures var o := AddLook(s, t, fd, e, work); o.Went? ==> Inv(o.s)
  {
    GrowKeeps(s, fd);
  }

  lemma CtlKeeps(s: State, t: nat, ctl: bool)
    requires Inv(s) && t in s.adding && s.adding[t].Looked?
    ensures AddCtl(s, t, ctl).Went? && Inv(AddCtl(s, t, ctl).s)
  {
  }

  lemma BitKeeps(s: State, t: nat)
    requires Inv(s) && t in s.adding && s.adding[t].Armed?
    ensures Inv(AddBit(s, t).s)
  {
    SameSlots(s, AddBit(s, t).s);
  }

  lemma SchedulerKeeps(s: State, t: nat)
    requires Inv(s) && t in s.adding && s.adding[t].Marked?
    ensures AddScheduler(s, t).Went? ==> Inv(AddScheduler(s, t).s)
  {
    if AddScheduler(s, t).Went? {
      SameSlots(s, AddScheduler(s, t).s);
    }
  }

  lemma WorkKeeps(s: State, t: nat)
    requires Inv(s) && t in s.adding && s.adding[t].Bound?
    ensures Inv(AddWork(s, t).s)
  {
    var a := s.adding[t];
    var call := a.work.Call?;
    EmptiedKeeps(s, a.fd, a.e, call, Displaced);
    EmptiedSlots(s, a.fd, a.e, call, Displaced, a.e, call);
    StoredKeeps(Emptied(s, a.fd, a.e, call, Displaced), a.fd, a.e, a.work);
  }

  // ---- the regions under the lock of a descriptor

  /** A region on the events `asked` of fd takes effect when one of them is registered, the kernel knows the
      descriptor, and epoll_ctl succeeds. */
  predicate Acts(s: State, fd: nat, asked: set<Event>, ctl: bool) {
    ctl && fd < |s.fds| && fd in s.kernel && s.fds[fd].events * asked != {}
  }

  function KernelAfter(k: Kernel, fd: nat, left: set<Event>): Kernel {
    if left == {} then k - {fd} else k[fd := left]
  }

  /** What a region leaves when it takes effect. */
  ghost predicate Took(s: State, s': State, fd: nat, asked: set<Event>)
    requires fd < |s.fds|
  {
    Cleared(s.(kernel := KernelAfter(s.kernel, fd, s.fds[fd].events - asked)), s', fd, asked)
  }

  /** A region triggers the events it has taken from the kernel. */
  lemma FireTakes(s: State, fd: nat, asked: set<Event>)
    requires Inv(s) && fd < |s.fds|
    ensures var r := FireAll(s.(kernel := KernelAfter(s.kernel, fd, s.fds[fd].events - asked)), fd, asked);
            && (r.Some? <==> Triggerable(s.fds[fd], asked))
            && (r.Some? ==> Inv(r.value) && Took(s, r.value, fd, asked))
  {
    FireAllKeeps(s.(kernel := KernelAfter(s.kernel, fd, s.fds[fd].events - asked)), fd, asked);
  }

  lemma FireOneTakes(s: State, fd: nat, e: Event)
    requires Inv(s) && fd < |s.fds|
    ensures var r := Fire(s.(kernel := KernelAfter(s.kernel, fd, s.fds[fd].events - {e})), fd, e);
            && (r.Some? <==> Triggerable(s.fds[fd], {e})) && (r.Some? ==> Inv(r.value) && Took(s, r.value, fd, {e}))
  {
    FireKeeps(s.(kernel := KernelAfter(s.kernel, fd, s.fds[fd].events - {e})), fd, e);
  }

  lemma DeleteTakes(s: State, fd: nat, e: Event)
    requires Inv(s) && fd < |s.fds|
    ensures var s1 := s.(kernel := KernelAfter(s.kernel, fd, s.fds[fd].events - {e}));
            Inv(Reset(s1, fd, e, Deleted, Deleted)) && Took(s, Reset(s1, fd, e, Deleted, Deleted), fd, {e})
  {
    var s1 := s.(kernel := KernelAfter(s.kernel, fd, s.fds[fd].events - {e}));
    ResetClears(s1, fd, e, Deleted, Deleted);
    ResetKeeps(s1, fd, e, Deleted, Deleted);
  }

  lemma CtlAfter(k: Kernel, fd: nat, left: set<Event>, ctl: bool)
    ensures Ctl(k, Remaining(left), fd, left, ctl) == if ctl && fd in k then Some(KernelAfter(k, fd, left)) else None
  {
  }

  lemma DelKeeps(s: State, fd: nat, e: Event, ctl: bool)
    requires Inv(s)
    ensures var o := DelEvent(s, fd, e, ctl);
            && o.Went? && Inv(o.s) && o.answer == Acts(s, fd, {e}, ctl)
            && (if o.answer then Took(s, o.s, fd, {e}) else o.s == s)
  {
    if fd < |s.fds| {
      assert e in s.fds[fd].events * {e} <==> e in s.fds[fd].events;
      CtlAfter(s.kernel, fd, s.fds[fd].events - {e}, ctl);
      DeleteTakes(s, fd, e);
    }
  }

  /** cancelEvent goes wrong exactly when it takes effect on an event without a scheduler. */
  lemma CancelKeeps(s: State, fd: nat, e: Event, ctl: bool)
    requires Inv(s)
    ensures var o := CancelEvent(s, fd, e, ctl);
            && (o.Crash? <==> Acts(s, fd, {e}, ctl) && !Triggerable(s.fds[fd], {e})) && !o.Disabled?
            && (o.Went? ==> Inv(o.s) && o.answer == Acts(s, fd, {e}, ctl)
                            && if o.answer then Took(s, o.s, fd, {e}) else o.s == s)
  {
    if fd < |s.fds| {
      assert e in s.fds[fd].events * {e} <==> e in s.fds[fd].events;
      CtlAfter(s.kernel, fd, s.fds[fd].events - {e}, ctl);
      FireOneTakes(s, fd, e);
    }
  }

  /** cancelAll likewise; its closing assertion holds. */
  lemma CancelAllKeeps(s: State, fd: nat, ctl: bool)
    requires Inv(s)
    ensures var o := CancelAll(s, fd, ctl);
            var asked := if fd < |s.fds| then s.fds[fd].events else {};
            && (o.Crash? <==> Acts(s, fd, asked, ctl) && !Triggerable(s.fds[fd], asked)) && !o.Disabled?
            && (o.Went? ==> Inv(o.s) && o.answer == Acts(s, fd, asked, ctl)
                            && if o.answer then Took(s, o.s, fd, asked) else o.s == s)
  {
    if fd < |s.fds| {
      assert s.fds[fd].events - s.fds[fd].events == {};
      CtlAfter(s.kernel, fd, {}, ctl);
      FireTakes(s, fd, s.fds[fd].events);
    }
  }

  /** idle() likewise: on an event that was never registered, or whose scheduler is not stored yet. */
  lemma HandleKeeps(s: State, fd: nat, r: Report, ctl: bool)
    requires Inv(s) && fd < |s.fds|
    ensures var o := Handle(s, fd, r, ctl);
            var asked := RealEvents(r, s.fds[fd].events);
            && (o.Crash? <==> Acts(s, fd, asked, ctl) && !Triggerable(s.fds[fd], asked)) && !o.Disabled?
            && (o.Went? ==> Inv(o.s) && o.answer == Acts(s, fd, asked, ctl)
                            && if o.answer then Took(s, o.s, fd, asked) else o.s == s)
  {
    var asked := RealEvents(r, s.fds[fd].events);
    CtlAfter(s.kernel, fd, s.fds[fd].events - asked, ctl);
    FireTakes(s, fd, asked);
  }

  // ---- runs

  /** The five parts of addEvent, by thread t; the regions under the lock of a descriptor; PollCall is epoll_wait
      returning report r for fd, and HandleCall what idle() does with it later. */
  datatype Call =
    | AddLookCall(t: nat, fd: nat, e: Event, work: Work)
    | AddCtlCall(t: nat)
    | AddBitCall(t: nat)
    | AddSchedulerCall(t: nat)
    | AddWorkCall(t: nat)
    | DelCall(fd: nat, e: Event)
    | CancelCall(fd: nat, e: Event)
    | CancelAllCall(fd: nat)
    | PollCall(fd: nat, r: Report)
    | HandleCall(fd: nat, r: Report)

  /** The kernel reports descriptors and events that it watches; errors it always reports. */
  predicate Reportable(k: Kernel, fd: nat, r: Report) {
    fd in k && (r.input ==> Read in k[fd]) && (r.output ==> Write in k[fd])
  }

  /** A thread is in one call of addEvent at a time, and makes its parts in order. */
  predicate Enabled(s: State, c: Call) {
    |s.fds| >= INITIAL_SIZE &&
    match c
    case AddLookCall(t, _, _, _) => t !in s.adding
    case AddCtlCall(t) => t in s.adding && s.adding[t].Looked?
    case AddBitCall(t) => t in s.adding && s.adding[t].Armed? && s.adding[t].fd < |s.fds|
    case AddSchedulerCall(t) => t in s.adding && s.adding[t].Marked? && s.adding[t].fd < |s.fds|
    case AddWorkCall(t) => t in s.adding && s.adding[t].Bound? && s.adding[t].fd < |s.fds|
    case PollCall(fd, r) => Reportable(s.kernel, fd, r)
    case HandleCall(fd, r) => (fd, r) in s.polled && fd < |s.fds|
    case _ => true
  }

  /** A call, and whether the epoll_ctl in it succeeds. */
  function Step(s: State, c: Call, ctl: bool): Outcome {
    if !Enabled(s, c) then Disabled
    else
      match c
      case AddLookCall(t, fd, e, work) => AddLook(s, t, fd, e, work)
      case AddCtlCall(t) => AddCtl(s, t, ctl)
      case AddBitCall(t) => AddBit(s, t)
      case AddSchedulerCall(t) => AddScheduler(s, t)
      case AddWorkCall(t) => AddWork(s, t)
      case DelCall(fd, e) => DelEvent(s, fd, e, ctl)
      case CancelCall(fd, e) => CancelEvent(s, fd, e, ctl)
      case CancelAllCall(fd) => CancelAll(s, fd, ctl)
      case PollCall(fd, r) => Went(s.(polled := s.polled + multiset{(fd, r)}), true)
      case HandleCall(fd, r) => Handle(s.(polled := s.polled - multiset{(fd, r)}), fd, r, ctl)
  }

  function EventsAt(s: State, fd: nat): set<Event> {
    if fd < |s.fds| then s.fds[fd].events else {}
  }

  /** The descriptor and the events that a region under a lock works on. */
  function Region(s: State, c: Call): Option<(nat, set<Event>)> {
    match c
    case DelCall(fd, e) => Some((fd, {e}))
    case CancelCall(fd, e) => Some((fd, {e}))
    case CancelAllCall(fd) => Some((fd, EventsAt(s, fd)))
    case HandleCall(fd, r) => Some((fd, RealEvents(r, EventsAt(s, fd))))
    case _ => None
  }

  /** The state a region starts from: idle() has taken its report. */
  function Start(s: State, c: Call): State {
    if c.HandleCall? then s.(polled := s.polled - multiset{(c.fd, c.r)}) else s
  }

  lemma PolledKeeps(s: State, polled: multiset<(nat, Report)>)
    requires Inv(s) && forall x :: x in polled ==> x.0 < |s.fds|
    ensures Inv(s.(polled := polled))
  {
    SameSlots(s, s.(polled := polled));
  }

  /** A region takes its events away from the descriptor and from the kernel, or changes nothing; it goes wrong exactly
      when it takes effect and would trigger an event without a scheduler. */
  lemma RegionEffect(s: State, c: Call, ctl: bool)
    requires Inv(s) && Region(s, c).Some? && Enabled(s, c)
    ensures var (fd, asked) := Region(s, c).value;
            var o := Step(s, c, ctl);
            && (o.Crash? <==> !c.DelCall? && Acts(s, fd, asked, ctl) && !Triggerable(s.fds[fd], asked))
            && (o.Went? ==> Inv(o.s) && o.answer == Acts(s, fd, asked, ctl)
                            && if o.answer then Took(Start(s, c), o.s, fd, asked) else o.s == Start(s, c))
            && !o.Disabled?
  {
    match c
    case DelCall(g, e) => DelKeeps(s, g, e, ctl);
    case CancelCall(g, e) => CancelKeeps(s, g, e, ctl);
    case CancelAllCall(g) => CancelAllKeeps(s, g, ctl);
    case HandleCall(g, r) =>
      PolledKeeps(s, s.polled - multiset{(g, r)});
      HandleKeeps(Start(s, c), g, r, ctl);
  }

  lemma StepKeeps(s: State, c: Call, ctl: bool)
    requires Inv(s)
    ensures Step(s, c, ctl).Disabled? <==> !Enabled(s, c)
    ensures Step(s, c, ctl).Went? ==> Inv(Step(s, c, ctl).s)
  {
    if Enabled(s, c) {
      match c
      case AddLookCall(t, fd, e, work) => LookKeeps(s, t, fd, e, work);
      case AddCtlCall(t) => CtlKeeps(s, t, ctl);
      case AddBitCall(t) => BitKeeps(s, t);
      case AddSchedulerCall(t) => SchedulerKeeps(s, t);
      case AddWorkCall(t) => WorkKeeps(s, t);
      case PollCall(fd, r) => PolledKeeps(s, s.polled + multiset{(fd, r)});
      case _ => RegionEffect(s, c, ctl);
    }
  }

  function Run(s: State, calls: seq<(Call, bool)>): Outcome
    decreases |calls|
  {
    if calls == [] then Went(s, true)
    else
      match Step(s, calls[0].0, calls[0].1)
      case Went(t, _) => Run(t, calls[1..])
      case o => o
  }

  function Then(o: Outcome, calls: seq<(Call, bool)>): Outcome {
    if o.Went? then Run(o.s, calls) else o
  }

  lemma {:induction false} RunKeeps(s: State, calls: seq<(Call, bool)>)
    requires Inv(s) && Run(s, calls).Went?
    ensures Inv(Run(s, calls).s)
    decreases |calls|
  {
    if calls != [] {
      StepKeeps(s, calls[0].0, calls[0].1);
      RunKeeps(Step(s, calls[0].0, calls[0].1).s, calls[1..]);
    }
  }

  lemma InitInv()
    ensures Inv(INIT)
  {
  }

  // ---- when bits, contexts and count agree

  /** The number of event bits over the first n descriptors. */
  function Bits(fds: seq<Fd>, n: nat): nat
    requires n <= |fds|
  {
    if n == 0 then 0 else Bits(fds, n - 1) + BitCount(fds[n - 1].events)
  }

  /** Thread t is in an addEvent of event e of fd, between the bit and the work. */
  predicate InWindow(adding: map<nat, Adding>, t: nat, fd: nat, e: Event) {
    t in adding && (adding[t].Marked? || adding[t].Bound?) && adding[t].fd == fd && adding[t].e == e
  }

  ghost predicate Window(adding: map<nat, Adding>, fd: nat, e: Event) {
    exists t :: InWindow(adding, t, fd, e)
  }

  predicate Complete(c: Ctx) {
    c.scheduler && (c.fiber.Some? <==> c.call.None?)
  }

  /** A bit that is set stands for one registration: a complete context, or one call between its bit and its work. */
  ghost predicate AgreedAt(s: State, fd: nat, e: Event)
    requires fd < |s.fds|
  {
    var c := Context(s.fds[fd], e);
    if Window(s.adding, fd, e) then
      && e in s.fds[fd].events
      && (forall t :: InWindow(s.adding, t, fd, e) ==> c == if s.adding[t].Marked? then BARE else HALF)
      && (forall t, u :: InWindow(s.adding, t, fd, e) && InWindow(s.adding, u, fd, e) ==> t == u)
    else if e in s.fds[fd].events then Complete(c)
    else c == BARE
  }

  /** ... and the count is the number of bits. */
  ghost predicate Agreed(s: State) {
    s.pending == Bits(s.fds, |s.fds|) && forall fd, e :: 0 <= fd < |s.fds| ==> AgreedAt(s, fd, e)
  }

  /** The call breaks a rule of the program.  It adds an event that is registered; or sets a bit that has been set
      meanwhile; or is a region under the lock of a descriptor that takes effect on an event that is not registered, or
      whose addEvent is between its bit and its work. */
  ghost predicate Faulty(s: State, c: Call, ctl: bool) {
    Enabled(s, c) &&
    match Region(s, c)
    case Some((fd, asked)) =>
      Acts(s, fd, asked, ctl) && exists e :: e in asked && (e !in s.fds[fd].events || Window(s.adding, fd, e))
    case None =>
      match c
      case AddLookCall(_, fd, e, _) => e in EventsAt(s, fd)
      case AddBitCall(t) => s.adding[t].e in s.fds[s.adding[t].fd].events
      case _ => false
  }

  lemma {:induction false} BitsNone(fds: seq<Fd>, more: seq<Fd>, n: nat)
    requires |fds| <= n <= |fds| + |more| && forall i :: 0 <= i < |more| ==> more[i] == EMPTY
    ensures Bits(fds + more, n) == Bits(fds, |fds|)
  {
    if n == |fds| {
      BitsPrefix(fds, more, n);
    } else {
      BitsNone(fds, more, n - 1);
    }
  }

  lemma {:induction false} BitsPrefix(fds: seq<Fd>, more: seq<Fd>, n: nat)
    requires n <= |fds|
    ensures Bits(fds + more, n) == Bits(fds, n)
  {
    if n > 0 {
      BitsPrefix(fds, more, n - 1);
    }
  }

  /** A change of one descriptor changes the number of bits by the change in that descriptor. */
  lemma {:induction false} BitsAt(fds: seq<Fd>, i: nat, d: Fd, n: nat)
    requires i < |fds| && n <= |fds|
    ensures Bits(fds[i := d], n) == Bits(fds, n) + if i < n then BitCount(d.events) - BitCount(fds[i].events) else 0
  {
    if n > 0 {
      BitsAt(fds, i, d, n - 1);
    }
  }

  lemma InitAgreed()
    ensures Agreed(INIT)
  {
    BitsNone([], INIT.fds, INITIAL_SIZE);
    assert [] + INIT.fds == INIT.fds;
  }

  /** Nothing changes for event e of fd. */
  lemma SameAt(s: State, s': State, fd: nat, e: Event)
    requires fd < |s.fds| && fd < |s'.fds| && AgreedAt(s, fd, e)
    requires Context(s'.fds[fd], e) == Context(s.fds[fd], e) && (e in s'.fds[fd].events <==> e in s.fds[fd].events)
    requires forall t :: InWindow(s.adding, t, fd, e) <==> InWindow(s'.adding, t, fd, e)
    requires forall t :: InWindow(s.adding, t, fd, e) ==> t in s'.adding && s'.adding[t] == s.adding[t]
    ensures AgreedAt(s', fd, e)
  {
    assert Window(s.adding, fd, e) <==> Window(s'.adding, fd, e);
  }

  lemma LookAgreed(s: State, t: nat, fd: nat, e: Event, work: Work)
    requires Inv(s) && Agreed(s) && t !in s.adding && AddLook(s, t, fd, e, work).Went?
    ensures Agreed(AddLook(s, t, fd, e, work).s)
  {
    var s' := AddLook(s, t, fd, e, work).s;
    assert forall i :: 0 <= i < |s'.fds| ==> s'.fds[i] == if i < |s.fds| then s.fds[i] else EMPTY;
    if |s'.fds| > |s.fds| {
      BitsNone(s.fds, s'.fds[|s.fds|..], |s'.fds|);
      assert s'.fds == s.fds + s'.fds[|s.fds|..];
    }
    forall g, x | 0 <= g < |s'.fds| ensures AgreedAt(s', g, x) {
      if g < |s.fds| {
        SameAt(s, s', g, x);
      }
    }
  }

  lemma CtlAgreed(s: State, t: nat, ctl: bool)
    requires Agreed(s) && t in s.adding && s.adding[t].Looked?
    ensures Agreed(AddCtl(s, t, ctl).s)
  {
    var s' := AddCtl(s, t, ctl).s;
    forall g, x | 0 <= g < |s'.fds| ensures AgreedAt(s', g, x) {
      SameAt(s, s', g, x);
    }
  }

  lemma OneBit(events: set<Event>, e: Event)
    requires e !in events
    ensures BitCount(events + {e}) == BitCount(events) + 1
  {
    match e
    case Read =>
    case Write =>
  }

  /** Setting a bit that is set breaks the count; otherwise the call is in its window, alone. */
  lemma BitAgreed(s: State, t: nat)
    requires Agreed(s) && t in s.adding && s.adding[t].Armed? && s.adding[t].fd < |s.fds|
    ensures Agreed(AddBit(s, t).s) <==> s.adding[t].e !in s.fds[s.adding[t].fd].events
  {
    var a, s' := s.adding[t], AddBit(s, t).s;
    BitsAt(s.fds, a.fd, s'.fds[a.fd], |s.fds|);
    if a.e in s.fds[a.fd].events {
      assert s'.fds[a.fd].events == s.fds[a.fd].events;
    } else {
      OneBit(s.fds[a.fd].events, a.e);
      forall g, x | 0 <= g < |s'.fds| ensures AgreedAt(s', g, x) {
        assert AgreedAt(s, g, x);
        if g == a.fd && x == a.e {
          assert !Window(s.adding, g, x) && InWindow(s'.adding, t, g, x);
          assert forall u :: InWindow(s'.adding, u, g, x) ==> u == t || InWindow(s.adding, u, g, x);
        } else {
          SameAt(s, s', g, x);
        }
      }
    }
  }

  lemma SchedulerAgreed(s: State, t: nat)
    requires Agreed(s) && t in s.adding && s.adding[t].Marked? && s.adding[t].fd < |s.fds|
    ensures AddScheduler(s, t).Went? && Agreed(AddScheduler(s, t).s)
  {
    var a := s.adding[t];
    assert InWindow(s.adding, t, a.fd, a.e) && AgreedAt(s, a.fd, a.e);
    var s' := AddScheduler(s, t).s;
    BitsAt(s.fds, a.fd, s'.fds[a.fd], |s.fds|);
    forall g, x | 0 <= g < |s'.fds| ensures AgreedAt(s', g, x) {
      assert AgreedAt(s, g, x);
      if g == a.fd && x == a.e {
        assert InWindow(s'.adding, t, g, x);
        assert forall u :: InWindow(s'.adding, u, g, x) ==> InWindow(s.adding, u, g, x);
      } else {
        SameAt(s, s', g, x);
      }
    }
  }

  lemma WorkAgreed(s: State, t: nat)
    requires Agreed(s) && t in s.adding && s.adding[t].Bound? && s.adding[t].fd < |s.fds|
    ensures Agreed(AddWork(s, t).s)
  {
    var a, s' := s.adding[t], AddWork(s, t).s;
    assert InWindow(s.adding, t, a.fd, a.e) && AgreedAt(s, a.fd, a.e);
    assert s'.fds == s.fds[a.fd := s'.fds[a.fd]] && s'.fds[a.fd].events == s.fds[a.fd].events;
    BitsAt(s.fds, a.fd, s'.fds[a.fd], |s.fds|);
    forall g, x | 0 <= g < |s'.fds| ensures AgreedAt(s', g, x) {
      assert AgreedAt(s, g, x);
      if g == a.fd && x == a.e {
        assert forall u :: InWindow(s'.adding, u, g, x) ==> InWindow(s.adding, u, g, x) && u != t;
      } else {
        SameAt(s, s', g, x);
      }
    }
  }

  /** The events are registered, and no call is between bit and work for them. */
  ghost predicate Quiet(s: State, fd: nat, asked: set<Event>)
    requires fd < |s.fds|
  {
    forall e :: e in asked ==> e in s.fds[fd].events && !Window(s.adding, fd, e)
  }

  lemma QuietTriggers(s: State, fd: nat, asked: set<Event>)
    requires Agreed(s) && fd < |s.fds| && Quiet(s, fd, asked)
    ensures Triggerable(s.fds[fd], asked)
  {
    assert AgreedAt(s, fd, Read) && AgreedAt(s, fd, Write);
  }

  lemma TookAgreed(s: State, s': State, fd: nat, asked: set<Event>)
    requires Agreed(s) && fd < |s.fds| && Took(s, s', fd, asked) && Quiet(s, fd, asked)
    ensures Agreed(s')
  {
    BitsAt(s.fds, fd, s'.fds[fd], |s.fds|);
    forall g, x | 0 <= g < |s'.fds| ensures AgreedAt(s', g, x) {
      assert AgreedAt(s, g, x);
      if !(g == fd && x in asked) {
        SameAt(s, s', g, x);
      }
    }
  }

  /** A region that takes effect where it should not goes wrong, or leaves a call without its bit. */
  lemma StrikeBreaks(s: State, s': State, fd: nat, asked: set<Event>)
    requires Agreed(s) && fd < |s.fds| && Took(s, s', fd, asked) && !Quiet(s, fd, asked)
    requires asked <= s.fds[fd].events || Triggerable(s.fds[fd], asked)
    ensures !Agreed(s')
  {
    var e :| e in asked && !(e in s.fds[fd].events && !Window(s.adding, fd, e));
    assert AgreedAt(s, fd, e);
    assert Window(s.adding, fd, e);
    assert !AgreedAt(s', fd, e);
  }

  lemma PolledAgreed(s: State, s': State)
    requires s' == s.(polled := s'.polled)
    ensures Agreed(s) <==> Agreed(s')
  {
    assert forall fd, e :: 0 <= fd < |s.fds| ==> (AgreedAt(s, fd, e) <==> AgreedAt(s', fd, e));
  }

  lemma RegionExact(s: State, c: Call, ctl: bool)
    requires Inv(s) && Agreed(s) && Region(s, c).Some? && Enabled(s, c)
    ensures var o := Step(s, c, ctl); Faulty(s, c, ctl) <==> o.Crash? || (o.Went? && !Agreed(o.s))
  {
    var (fd, asked) := Region(s, c).value;
    RegionEffect(s, c, ctl);
    PolledAgreed(s, Start(s, c));
    if Acts(s, fd, asked, ctl) {
      assert Faulty(s, c, ctl) <==> !Quiet(s, fd, asked);
      assert c.DelCall? ==> asked <= s.fds[fd].events by { assert s.fds[fd].events * asked != {}; }
      if Quiet(s, fd, asked) {
        QuietTriggers(s, fd, asked);
        TookAgreed(Start(s, c), Step(s, c, ctl).s, fd, asked);
      } else if Step(s, c, ctl).Went? {
        StrikeBreaks(Start(s, c), Step(s, c, ctl).s, fd, asked);
      }
    }
  }

  /** From a state in which bits, contexts and count agree, a call goes wrong or makes them disagree exactly when it
      breaks a rule. */
  lemma StepExact(s: State, c: Call, ctl: bool)
    requires Inv(s) && Agreed(s)
    ensures var o := Step(s, c, ctl);
            && (Faulty(s, c, ctl) <==> o.Crash? || (o.Went? && !Agreed(o.s)))
            && (o.Disabled? <==> !Enabled(s, c)) && (o.Went? ==> Inv(o.s))
  {
    StepKeeps(s, c, ctl);
    if Enabled(s, c) {
      match c
      case AddLookCall(t, fd, e, work) =>
        LookKeeps(s, t, fd, e, work);
        if AddLook(s, t, fd, e, work).Went? { LookAgreed(s, t, fd, e, work); }
      case AddCtlCall(t) => CtlAgreed(s, t, ctl);
      case AddBitCall(t) => BitAgreed(s, t);
      case AddSchedulerCall(t) => SchedulerAgreed(s, t);
      case AddWorkCall(t) => WorkAgreed(s, t);
      case PollCall(fd, r) => PolledAgreed(s, Step(s, c, ctl).s);
      case _ => RegionExact(s, c, ctl);
    }
  }

  // ---- main results

  /** The run reaches its i-th call, and that call is faulty. */
  ghost predicate FaultyAt(s: State, calls: seq<(Call, bool)>, i: nat)
    requires i < |calls|
  {
    Run(s, calls[..i]).Went? && Faulty(Run(s, calls[..i]).s, calls[i].0, calls[i].1)
  }

  /** The first i calls go through, and then bits, contexts and count disagree. */
  ghost predicate DisagreesAfter(s: State, calls: seq<(Call, bool)>, i: nat)
    requires i <= |calls|
  {
    Run(s, calls[..i]).Went? && !Agreed(Run(s, calls[..i]).s)
  }

  /** The run crashes, or comes to a state in which bits, contexts and count disagree. */
  ghost predicate GoesWrong(s: State, calls: seq<(Call, bool)>) {
    Run(s, calls).Crash? || exists i :: 0 <= i <= |calls| && DisagreesAfter(s, calls, i)
  }

  ghost predicate BreaksARule(s: State, calls: seq<(Call, bool)>) {
    exists i :: 0 <= i < |calls| && FaultyAt(s, calls, i)
  }

  /** The first i + 1 calls are the first one and then i of the others. */
  lemma RunFrom(s: State, calls: seq<(Call, bool)>, i: nat)
    requires 0 < |calls| && i < |calls|
    ensures Run(s, calls[..i + 1]) == Then(Step(s, calls[0].0, calls[0].1), calls[1..][..i])
  {
    assert calls[..i + 1][0] == calls[0] && calls[..i + 1][1..] == calls[1..][..i];
  }

  /** What goes wrong after the first call, and what breaks a rule after it. */
  lemma Later(s: State, calls: seq<(Call, bool)>)
    requires calls != [] && Agreed(s)
    ensures var o := Step(s, calls[0].0, calls[0].1);
            && (GoesWrong(s, calls) <==> o.Crash? || (o.Went? && GoesWrong(o.s, calls[1..])))
            && (BreaksARule(s, calls) <==>
                Faulty(s, calls[0].0, calls[0].1) || (o.Went? && BreaksARule(o.s, calls[1..])))
  {
    var o := Step(s, calls[0].0, calls[0].1);
    assert FaultyAt(s, calls, 0) <==> Faulty(s, calls[0].0, calls[0].1);
    assert !DisagreesAfter(s, calls, 0);
    forall i: nat | i < |calls|
      ensures DisagreesAfter(s, calls, i + 1) <==> o.Went? && DisagreesAfter(o.s, calls[1..], i)
      ensures i + 1 < |calls| ==> (FaultyAt(s, calls, i + 1) <==> o.Went? && FaultyAt(o.s, calls[1..], i))
    {
      RunFrom(s, calls, i);
    }
    if GoesWrong(s, calls) && !Run(s, calls).Crash? {
      var i :| 0 <= i <= |calls| && DisagreesAfter(s, calls, i);
      assert DisagreesAfter(o.s, calls[1..], i - 1);
    }
    if BreaksARule(s, calls) && !FaultyAt(s, calls, 0) {
      var i :| 0 <= i < |calls| && FaultyAt(s, calls, i);
      assert FaultyAt(o.s, calls[1..], i - 1);
    }
    if o.Went? && GoesWrong(o.s, calls[1..]) && !Run(s, calls).Crash? {
      var i :| 0 <= i <= |calls[1..]| && DisagreesAfter(o.s, calls[1..], i);
      assert DisagreesAfter(s, calls, i + 1);
    }
    if o.Went? && BreaksARule(o.s, calls[1..]) {
      var i :| 0 <= i < |calls[1..]| && FaultyAt(o.s, calls[1..], i);
      assert FaultyAt(s, calls, i + 1);
    }
  }

  /** A run crashes, or comes to disagree, if and only if it reaches a faulty call. */
  lemma {:induction false} RunExact(s: State, calls: seq<(Call, bool)>)
    requires Inv(s) && Agreed(s)
    ensures GoesWrong(s, calls) <==> BreaksARule(s, calls)
    decreases |calls|
  {
    if calls == [] {
      assert calls[..0] == [];
    } else {
      var o := Step(s, calls[0].0, calls[0].1);
      Later(s, calls);
      StepExact(s, calls[0].0, calls[0].1);
      if o.Went? {
        if Agreed(o.s) {
          RunExact(o.s, calls[1..]);
        } else {
          assert DisagreesAfter(o.s, calls[1..], 0);
        }
      }
    }
  }

  /** Over every run in which no call breaks a rule, whichever epoll_ctl calls fail and whatever falls into addEvent
      elsewhere: the pending count is the number of event bits, and a bit is set exactly when its context is complete
      or one call of addEvent is between that bit and its work. */
  lemma EventsConsistent(calls: seq<(Call, bool)>, fd: nat, e: Event)
    requires Run(INIT, calls).Went? && !BreaksARule(INIT, calls)
    ensures var s := Run(INIT, calls).s;
            && s.pending == Bits(s.fds, |s.fds|)
            && (fd < |s.fds| ==>
                  && (e in s.fds[fd].events <==> Complete(Context(s.fds[fd], e)) || Window(s.adding, fd, e))
                  && !(Complete(Context(s.fds[fd], e)) && Window(s.adding, fd, e))
                  && (Context(s.fds[fd], e) == BARE || e in s.fds[fd].events))
  {
    InitInv();
    InitAgreed();
    AgreedThroughout(INIT, calls);
    var s := Run(INIT, calls).s;
    if fd < |s.fds| {
      assert AgreedAt(s, fd, e);
    }
  }

  /** One shot: over every run, rules broken or not, a registration schedules its own work at most once, and exactly
      once unless it is still in its context, was deleted, or was displaced by another addEvent. */
  lemma OneShot(calls: seq<(Call, bool)>, id: nat)
    requires Run(INIT, calls).Went? && id < |Run(INIT, calls).s.regs|
    ensures var s := Run(INIT, calls).s;
            var r := s.regs[id];
            match r.fate
            case Waits => (forall k :: 0 <= k < |s.scheduled| ==> s.scheduled[k].id != id) && r.fd < |s.fds|
              && Slot(Context(s.fds[r.fd], r.e), r.work.Call?) == Some(Waiter(id, r.work))
            case Scheduled(k0) => k0 < |s.scheduled| && s.scheduled[k0] == Waiter(id, r.work)
              && (forall k :: 0 <= k < |s.scheduled| && s.scheduled[k].id == id ==> k == k0)
            case _ => forall k :: 0 <= k < |s.scheduled| ==> s.scheduled[k].id != id
  {
    InitInv();
    RunKeeps(INIT, calls);
  }

  ghost predicate NoneDisplaced(regs: seq<Registration>) {
    forall id :: 0 <= id < |regs| ==> !regs[id].fate.Displaced?
  }

  lemma FireDisplaces(s: State, fd: nat, e: Event)
    requires NoneDisplaced(s.regs) && fd < |s.fds|
    requires Context(s.fds[fd], e).call.Some? ==> Context(s.fds[fd], e).fiber.None?
    ensures Fire(s, fd, e).Some? ==> NoneDisplaced(Fire(s, fd, e).value.regs)
  {
  }

  lemma FireAllDisplaces(s: State, fd: nat, events: set<Event>)
    requires Accounted(s) && NoneDisplaced(s.regs) && fd < |s.fds|
    requires forall e :: Context(s.fds[fd], e).call.Some? ==> Context(s.fds[fd], e).fiber.None?
    ensures FireAll(s, fd, events).Some? ==> NoneDisplaced(FireAll(s, fd, events).value.regs)
  {
    FireKeeps(s, fd, Read);
    FireDisplaces(s, fd, Read);
    var s1 := if Read in events then Fire(s, fd, Read) else Some(s);
    if s1.Some? {
      assert Context(s1.value.fds[fd], Write) == Context(s.fds[fd], Write);
      FireDisplaces(s1.value, fd, Write);
    }
  }

  lemma StepDisplaces(s: State, c: Call, ctl: bool)
    requires Inv(s) && Agreed(s) && NoneDisplaced(s.regs) && Step(s, c, ctl).Went?
    ensures NoneDisplaced(Step(s, c, ctl).s.regs)
  {
    if c.AddWorkCall? {
      var a := s.adding[c.t];
      assert InWindow(s.adding, c.t, a.fd, a.e) && AgreedAt(s, a.fd, a.e);
    } else if Region(s, c).Some? && c.fd < |s.fds| {
      forall e ensures Context(s.fds[c.fd], e).call.Some? ==> Context(s.fds[c.fd], e).fiber.None? {
        assert AgreedAt(s, c.fd, e);
      }
      RegionDisplaces(s, c, ctl);
    }
  }

  lemma RegionDisplaces(s: State, c: Call, ctl: bool)
    requires Inv(s) && NoneDisplaced(s.regs) && Region(s, c).Some? && c.fd < |s.fds| && Step(s, c, ctl).Went?
    requires forall e :: Context(s.fds[c.fd], e).call.Some? ==> Context(s.fds[c.fd], e).fiber.None?
    ensures NoneDisplaced(Step(s, c, ctl).s.regs)
  {
    match c
    case DelCall(_, _) =>
    case CancelCall(fd, e) =>
      var left := s.fds[fd].events - {e};
      var k := Ctl(s.kernel, Remaining(left), fd, left, ctl);
      if k.Some? { FireDisplaces(s.(kernel := k.value), fd, e); }
    case CancelAllCall(fd) =>
      var k := Ctl(s.kernel, Del, fd, {}, ctl);
      if k.Some? { FireAllDisplaces(s.(kernel := k.value), fd, s.fds[fd].events); }
    case HandleCall(fd, r) =>
      var events := s.fds[fd].events;
      var left := events - RealEvents(r, events);
      var k := Ctl(s.kernel, Remaining(left), fd, left, ctl);
      if k.Some? { FireAllDisplaces(Start(s, c).(kernel := k.value), fd, RealEvents(r, events)); }
  }

  lemma {:induction false} AgreedThroughout(s: State, calls: seq<(Call, bool)>)
    requires Inv(s) && Agreed(s) && NoneDisplaced(s.regs) && Run(s, calls).Went? && !BreaksARule(s, calls)
    ensures NoneDisplaced(Run(s, calls).s.regs) && Agreed(Run(s, calls).s)
    decreases |calls|
  {
    if calls != [] {
      Later(s, calls);
      StepExact(s, calls[0].0, calls[0].1);
      StepDisplaces(s, calls[0].0, calls[0].1);
      AgreedThroughout(Step(s, calls[0].0, calls[0].1).s, calls[1..]);
    }
  }

  /** ... and where no call breaks a rule, nothing is displaced, and what is in its context has its bit and its
      scheduler. */
  lemma OneShotExact(calls: seq<(Call, bool)>, id: nat)
    requires Run(INIT, calls).Went? && id < |Run(INIT, calls).s.regs| && !BreaksARule(INIT, calls)
    ensures var s := Run(INIT, calls).s;
            var r := s.regs[id];
            && !r.fate.Displaced?
            && (r.fate.Waits? ==>
                  r.fd < |s.fds| && r.e in s.fds[r.fd].events && Context(s.fds[r.fd], r.e).scheduler)
  {
    InitInv();
    InitAgreed();
    RunKeeps(INIT, calls);
    AgreedThroughout(INIT, calls);
    var s := Run(INIT, calls).s;
    if s.regs[id].fate.Waits? {
      assert AgreedAt(s, s.regs[id].fd, s.regs[id].e);
    }
  }

  // ---- a call that nothing falls into, and one that something falls into

  /** The state with event e of fd registered and watched. */
  function AddedTo(s: State, fd: nat, e: Event, work: Work): State
    requires fd < |s.fds|
  {
    var d := s.fds[fd];
    var c := WithSlot(HALF, work.Call?, Some(Waiter(|s.regs|, work)));
    s.(fds := s.fds[fd := Set(d, e, c).(events := d.events + {e})],
       kernel := s.kernel[fd := d.events + {e}], pending := s.pending + 1,
       regs := s.regs + [Registration(fd, e, work, Waits)])
  }

  /** A call of addEvent that nobody disturbs fails an assertion exactly for a registered event; otherwise it succeeds
      exactly when epoll_ctl does, registers the event, and has the kernel watch it. */
  lemma AddKeeps(s: State, t: nat, fd: nat, e: Event, work: Work, ctl: bool)
    requires Inv(s) && Agreed(s) && t !in s.adding
    ensures AddEvent(s, t, fd, e, work, ctl).Crash? <==> fd < |s.fds| && e in s.fds[fd].events
    ensures var o := AddEvent(s, t, fd, e, work, ctl);
            var g := Grow(s, fd);
            o.Went? ==>
              && Inv(o.s) && Agreed(o.s) && o.answer == (ctl && (fd in s.kernel <==> g.fds[fd].events != {}))
              && o.s == if o.answer then AddedTo(g, fd, e, work) else g
  {
    LookKeeps(s, t, fd, e, work);
    if AddLook(s, t, fd, e, work).Went? {
      LookAgreed(s, t, fd, e, work);
      LookedRest(Grow(s, fd), AddLook(s, t, fd, e, work).s, t, fd, e, work, ctl);
    }
  }

  /** addEvent after its first assertion; g is the state without the call. */
  lemma LookedRest(g: State, s: State, t: nat, fd: nat, e: Event, work: Work, ctl: bool)
    requires t !in g.adding && fd < |g.fds| && e !in g.fds[fd].events
    requires s == g.(adding := g.adding[t := Looked(fd, e, work, g.fds[fd].events)]) && Inv(s) && Agreed(s)
    ensures var armed := AddCtl(s, t, ctl);
            && armed.answer == (ctl && (fd in g.kernel <==> g.fds[fd].events != {}))
            && (if armed.answer then
                  && AddRest(armed.s, t) == Went(AddedTo(g, fd, e, work), true)
                  && Inv(AddedTo(g, fd, e, work)) && Agreed(AddedTo(g, fd, e, work))
                else armed.s == g && Inv(g) && Agreed(g))
  {
    CtlKeeps(s, t, ctl);
    CtlAgreed(s, t, ctl);
    CtlOf(g, s, t, fd, e, work, ctl);
    var armed := AddCtl(s, t, ctl);
    if armed.answer {
      RestKeeps(armed.s, t);
      Unadded(g.adding, t, armed.s.adding[t]);
    }
  }

  lemma Unadded(adding: map<nat, Adding>, t: nat, a: Adding)
    requires t !in adding
    ensures adding[t := a] - {t} == adding
  {
  }

  lemma CtlOf(g: State, s: State, t: nat, fd: nat, e: Event, work: Work, ctl: bool)
    requires t !in g.adding && fd < |g.fds| && e !in g.fds[fd].events
    requires s == g.(adding := g.adding[t := Looked(fd, e, work, g.fds[fd].events)])
    ensures AddCtl(s, t, ctl) ==
            if ctl && (fd in g.kernel <==> g.fds[fd].events != {})
            then Went(g.(adding := g.adding[t := Armed(fd, e, work)], kernel := g.kernel[fd := g.fds[fd].events + {e}]),
                      true)
            else Went(g, false)
  {
    Unadded(g.adding, t, s.adding[t]);
  }

  /** addEvent after its epoll_ctl. */
  lemma RestKeeps(s: State, t: nat)
    requires Inv(s) && Agreed(s) && t in s.adding && s.adding[t].Armed?
    requires s.adding[t].e !in s.fds[s.adding[t].fd].events
    ensures var a, o := s.adding[t], AddRest(s, t);
            && o.Went? && o.answer && Inv(o.s) && Agreed(o.s)
            && o.s == AddedTo(s, a.fd, a.e, a.work).(kernel := s.kernel, adding := s.adding - {t})
  {
    BitKeeps(s, t);
    BitAgreed(s, t);
    var s1 := AddBit(s, t).s;
    SchedulerKeeps(s1, t);
    SchedulerAgreed(s1, t);
    var s2 := AddScheduler(s1, t).s;
    WorkKeeps(s2, t);
    WorkAgreed(s2, t);
    assert s2.adding - {t} == s.adding - {t};
  }

  /** A region that takes effect on an event whose addEvent, by thread t, is between its bit and its work.  Before the
      scheduler is stored it goes wrong, unless it is delEvent; afterwards it finds no work and schedules nothing.  If
      it goes through, the call goes on without its bit. */
  lemma StrikeOutcome(s: State, c: Call, ctl: bool, t: nat)
    requires Inv(s) && Agreed(s) && Region(s, c).Some? && Enabled(s, c) && t in s.adding
    requires var (fd, asked) := Region(s, c).value;
             InWindow(s.adding, t, fd, s.adding[t].e) && s.adding[t].e in asked && Acts(s, fd, asked, ctl)
    ensures var o, a := Step(s, c, ctl), s.adding[t];
            && (c.DelCall? ==> o.Went?) && (!c.DelCall? && a.Marked? ==> o.Crash?)
            && (o.Went? ==>
                  && t in o.s.adding && o.s.adding[t] == a && |o.s.fds| == |s.fds|
                  && a.e !in o.s.fds[a.fd].events && Context(o.s.fds[a.fd], a.e) == BARE)
            && (o.Went? && Region(s, c).value.1 == {a.e} ==> o.s.scheduled == s.scheduled)
  {
    var a := s.adding[t];
    RegionEffect(s, c, ctl);
    assert AgreedAt(s, a.fd, a.e);
    if Step(s, c, ctl).Went? && Region(s, c).value.1 == {a.e} {
      NothingScheduled(s, c, ctl, a.e);
    }
  }

  lemma NothingScheduled(s: State, c: Call, ctl: bool, e: Event)
    requires Region(s, c).Some? && Region(s, c).value.1 == {e} && c.fd < |s.fds| && Step(s, c, ctl).Went?
    requires Context(s.fds[c.fd], e).fiber.None? && Context(s.fds[c.fd], e).call.None?
    ensures Step(s, c, ctl).s.scheduled == s.scheduled
  {
    match e
    case Read =>
    case Write =>
  }

  /** That call ends with an orphan: a context with work in it and its bit clear; without a scheduler, if the scheduler
      had been stored before. */
  lemma OrphanFollows(s: State, t: nat)
    requires Inv(s) && t in s.adding && (s.adding[t].Marked? || s.adding[t].Bound?)
    requires s.adding[t].e !in s.fds[s.adding[t].fd].events && Context(s.fds[s.adding[t].fd], s.adding[t].e) == BARE
    ensures var a := s.adding[t];
            var bound := if a.Marked? then AddScheduler(s, t) else Went(s, true);
            && bound.Went? && t in bound.s.adding && bound.s.adding[t].Bound? && bound.s.adding[t].fd < |bound.s.fds|
            && var d := AddWork(bound.s, t).s.fds[a.fd];
            && a.e !in d.events && Slot(Context(d, a.e), a.work.Call?) == Some(Waiter(|s.regs|, a.work))
            && Context(d, a.e).scheduler == a.Marked?
  {
  }

  /** The next addEvent of the event of an orphan fails its second assertion, if its epoll_ctl succeeds. */
  lemma OrphanBlocks(s: State, t: nat, fd: nat, e: Event, work: Work)
    requires Inv(s) && t !in s.adding && fd < |s.fds| && e !in s.fds[fd].events && Context(s.fds[fd], e) != BARE
    ensures AddEvent(s, t, fd, e, work, true).Crash? <==> (fd in s.kernel <==> s.fds[fd].events != {})
  {
  }
}
