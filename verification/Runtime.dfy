/** Fibers, worker threads, timers and one-shot IO events together: the wait protocol of do_io and of the hooked
    sleep (src/fiber/hook.cpp) on top of the scheduler, the timers and the IO manager.  Any number of threads, fibers
    and waits; every interleaving of the steps.  A fiber is scheduled by nobody but its creator, itself just before
    it yields, and its one-shot waits.  Fiber::yield is one step, and so is a timer callback. */
module Runtime {
  import opened Options
  import Io = IoEvents

  type FiberId = nat
  type ThreadId = nat
  type Event = Io.Event

  /** RUNNING, with the thread whose t_fiber it is. */
  datatype FiberState = Ready | Running(t: ThreadId) | Term

  /** A call of do_io: its timer_info, its arguments, and the timer of the present attempt. */
  datatype Call = Call(io: nat, fd: nat, e: Event, timer: Option<nat>)

  /** How far a fiber has got.
      Calling: at the label retry.  Arming: the call would block, and the timer is set.  Looked: in addEvent, past
      its assertion, having seen the events `seen`.  Armed: in addEvent, after its epoll_ctl.  Marked: its bit is set.
      Bound: its scheduler is stored.  Parking: the fiber is stored.  Parked: has yielded in do_io.  Yielding: about to
      yield outside it.  Paused: has yielded there. */
  datatype Pc = Work | Calling(c: Call) | Arming(c: Call) | Looked(c: Call, seen: set<Event>) | Armed(c: Call)
              | Marked(c: Call) | Bound(c: Call) | Parking(c: Call) | Parked(c: Call) | Yielding | Paused | Ended

  /** Where a fiber is kept; for the specification.  AtEvent: in a context.  Lost: wait number w was deleted, or
      replaced in its context by another. */
  datatype Place = Nowhere | Lost(w: nat) | InQueue(n: nat) | InHand(t: ThreadId)
                 | AtEvent(fd: nat, e: Event) | AtTimer(tm: nat)

  datatype Fiber = Fiber(state: FiberState, pc: Pc, place: Place)

  /** Timeout is the callback of do_io's timer, number tm, and WakeUp that of the hooked sleep. */
  datatype Task = ResumeFiber(f: FiberId) | WakeUp(f: FiberId) | Timeout(tm: nat, io: nat, fd: nat, e: Event)
  datatype Hand = Free | Holds(task: Task) | Runs(f: FiberId)

  datatype Alarm = IoAlarm(io: nat, fd: nat, e: Event) | SleepAlarm(f: FiberId)

  /** timer_info, with the fiber that is in do_io; it is freed when do_io returns. */
  datatype Info = Info(owner: FiberId, cancelled: bool)

  /** What is waiting in a context: wait number w, of fiber f. */
  datatype Waiter = Waiter(w: nat, f: FiberId)

  /** What has become of a wait: in its context, consumed by the n-th push to the task queue, deleted, or replaced in
      its context by another addEvent.  A wait begins when its fiber is stored; `heard` says whether the bit and the
      scheduler were there then. */
  datatype Fate = Waits | Woke(n: nat) | Dropped | Replaced
  datatype Wait = Wait(f: FiberId, fd: nat, e: Event, heard: bool, fate: Fate)

  /** Why a task was pushed to the task queue. */
  datatype Cause = Spawned | Itself | Slept | Expired | ByWait(w: nat)
  datatype Push = Push(task: Task, cause: Cause)

  /** The task queue maps the number of a push to its task, so that it is in the order of its keys.  `bits`,
      `schedulers` and `stored` are what is set for the descriptors: their bits, and the schedulers and fibers in their
      contexts.  `kernel` is the interest set of epoll.  `pushed` and `waits` are the history of pushes and of waits. */
  datatype State = State(fibers: map<FiberId, Fiber>, hands: map<ThreadId, Hand>,
                         queue: map<nat, Task>, pushed: seq<Push>,
                         timers: map<nat, Alarm>, nextTimer: nat,
                         bits: set<(nat, Event)>, schedulers: set<(nat, Event)>, stored: map<(nat, Event), Waiter>,
                         kernel: Io.Kernel, waits: seq<Wait>,
                         ios: map<nat, Info>, nextIo: nat)

  const INIT := State(map[], map[], map[], [], map[], 0, {}, {}, map[], map[], [], map[], 0)

  /** In each step `ctl` says whether epoll_ctl succeeds when its operation is applicable.  The five parts of addEvent
      are steps of their own, since it holds no lock on its descriptor. */
  datatype Step =
    | StartThread(t: ThreadId)
    | Spawn(f: FiberId)
    | Take(t: ThreadId, n: nat)
    | Resume(t: ThreadId)
    | RunCallback(t: ThreadId, ctl: bool)
    | SelfSchedule(t: ThreadId)
    | Sleep(t: ThreadId)
    | Yield(t: ThreadId)
    | BeginIo(t: ThreadId, fd: nat, e: Event)
    | IoDone(t: ThreadId)
    | WouldBlock(t: ThreadId, timed: bool)
    | AddLook(t: ThreadId)
    | AddCtl(t: ThreadId, ctl: bool)
    | AddBit(t: ThreadId)
    | AddScheduler(t: ThreadId)
    | AddWork(t: ThreadId)
    | AfterWake(t: ThreadId)
    | Finish(t: ThreadId)
    | Expire(tm: nat)
    | Readiness(fd: nat, r: Io.Report, ctl: bool)
    | CancelEvent(fd: nat, e: Event, ctl: bool)
    | CancelAll(fd: nat, ctl: bool)
    | DelEvent(fd: nat, e: Event, ctl: bool)

  /** Disabled: the step cannot happen here.  Crash: an assertion of the program fails, or a scheduler is null. */
  datatype Outcome = Disabled | Crash | Went(s: State)

  // ---- the steps

  function Put(s: State, f: FiberId, b: Fiber): State {
    s.(fibers := s.fibers[f := b])
  }

  function Schedule(s: State, task: Task, cause: Cause): State {
    s.(queue := s.queue[|s.pushed| := task], pushed := s.pushed + [Push(task, cause)])
  }

  /** schedule(fiber f). */
  function Enqueue(s: State, f: FiberId, task: Task, cause: Cause): State
    requires f in s.fibers
  {
    Put(Schedule(s, task, cause), f, s.fibers[f].(place := InQueue(|s.pushed|)))
  }

  /** The fiber in a context is scheduled, and the context emptied of it. */
  function Release(s: State, fd: nat, e: Event): State {
    if (fd, e) !in s.stored then s
    else
      var x := s.stored[(fd, e)];
      if x.f !in s.fibers then s
      else
        Enqueue(s, x.f, ResumeFiber(x.f), ByWait(x.w)).(
          stored := s.stored - {(fd, e)}, waits := Settled(s.waits, x.w, Woke(|s.pushed|)))
  }

  /** The bit is cleared, and the scheduler reset. */
  function Clear(s: State, fd: nat, e: Event): State {
    s.(bits := s.bits - {(fd, e)}, schedulers := s.schedulers - {(fd, e)})
  }

  /** triggerEvent where there is a scheduler: without a fiber nothing is scheduled. */
  function Trigger(s: State, fd: nat, e: Event): State {
    Clear(Release(s, fd, e), fd, e)
  }

  function Settled(waits: seq<Wait>, w: nat, fate: Fate): seq<Wait> {
    if w < |waits| then waits[w := waits[w].(fate := fate)] else waits
  }

  /** READ before WRITE. */
  function TriggerAll(s: State, fd: nat, asked: set<Event>): State {
    var s1 := if Io.Read in asked then Trigger(s, fd, Io.Read) else s;
    if Io.Write in asked then Trigger(s1, fd, Io.Write) else s1
  }

  /** The fiber in a context is taken out of it, and nobody schedules it. */
  function Evict(s: State, fd: nat, e: Event, fate: Fate): State {
    if (fd, e) !in s.stored then s
    else
      var x := s.stored[(fd, e)];
      if x.f !in s.fibers then s
      else
        Put(s, x.f, s.fibers[x.f].(place := Lost(x.w))).(
          stored := s.stored - {(fd, e)}, waits := Settled(s.waits, x.w, fate))
  }

  /** The event bits of a descriptor. */
  function Registered(bits: set<(nat, Event)>, fd: nat): set<Event> {
    (if (fd, Io.Read) in bits then {Io.Read} else {}) + (if (fd, Io.Write) in bits then {Io.Write} else {})
  }

  /** A region under the lock of fd on the events `asked` takes them out of the interest set; None: there is nothing
      to take, or epoll_ctl fails. */
  function Withdraw(s: State, fd: nat, asked: set<Event>, ctl: bool): Option<Io.Kernel> {
    var here := Registered(s.bits, fd);
    if here * asked == {} then None else Io.Ctl(s.kernel, Io.Remaining(here - asked), fd, here - asked, ctl)
  }

  /** Each of the events has a scheduler. */
  predicate Triggerable(s: State, fd: nat, asked: set<Event>) {
    && (Io.Read in asked ==> (fd, Io.Read) in s.schedulers)
    && (Io.Write in asked ==> (fd, Io.Write) in s.schedulers)
  }

  /** ... and triggers them. */
  function Fire(s: State, fd: nat, asked: set<Event>, ctl: bool): Outcome {
    match Withdraw(s, fd, asked, ctl)
    case None => Went(s)
    case Some(k) => if Triggerable(s, fd, asked) then Went(TriggerAll(s.(kernel := k), fd, asked)) else Crash
  }

  function DeleteEvent(s: State, fd: nat, e: Event, ctl: bool): State {
    match Withdraw(s, fd, {e}, ctl)
    case None => s
    case Some(k) => Clear(Evict(s.(kernel := k), fd, e, Dropped), fd, e)
  }

  predicate Runnable(s: State, t: ThreadId) {
    t in s.hands && s.hands[t].Runs? && s.hands[t].f in s.fibers
  }

  /** The scan of Scheduler::run passes over a fiber in state RUNNING. */
  predicate Eligible(s: State, task: Task) {
    !(task.ResumeFiber? && task.f in s.fibers && s.fibers[task.f].state.Running?)
  }

  function TakeTask(s: State, t: ThreadId, n: nat): Outcome {
    if !(t in s.hands && s.hands[t].Free? && n in s.queue && Eligible(s, s.queue[n])) then Disabled
    else
      var task := s.queue[n];
      var s := s.(queue := s.queue - {n}, hands := s.hands[t := Holds(task)]);
      if task.Timeout? || task.f !in s.fibers then Went(s)
      else Went(Put(s, task.f, s.fibers[task.f].(place := InHand(t))))
  }

  /** Fiber::resume, with its assertion. */
  function ResumeTask(s: State, t: ThreadId): Outcome {
    if !(t in s.hands && s.hands[t].Holds? && s.hands[t].task.ResumeFiber?) then Disabled
    else
      var f := s.hands[t].task.f;
      if f !in s.fibers || !s.fibers[f].state.Ready? then Crash
      else
        var pc := if s.fibers[f].pc.Paused? then Work else s.fibers[f].pc;
        Went(Put(s, f, Fiber(Running(t), pc, Nowhere)).(hands := s.hands[t := Runs(f)]))
  }

  /** A timer callback.  The one of do_io finds its timer_info gone, or already cancelled, or cancels the event. */
  function Callback(s: State, t: ThreadId, ctl: bool): Outcome {
    if !(t in s.hands && s.hands[t].Holds?) then Disabled
    else
      var task := s.hands[t].task;
      var s := s.(hands := s.hands[t := Free]);
      match task
      case ResumeFiber(_) => Disabled
      case WakeUp(f) => if f !in s.fibers then Disabled else Went(Enqueue(s, f, ResumeFiber(f), Slept))
      case Timeout(_, io, fd, e) => TimedOut(s, io, fd, e, ctl)
  }

  function TimedOut(s: State, io: nat, fd: nat, e: Event, ctl: bool): Outcome {
    if io !in s.ios || s.ios[io].cancelled then Went(s)
    else Fire(s.(ios := s.ios[io := s.ios[io].(cancelled := true)]), fd, {e}, ctl)
  }

  // The steps of the fiber f that a thread runs; b is what the fiber is.

  function SelfScheduled(s: State, f: FiberId, b: Fiber): Outcome {
    if b.pc.Work? then Went(Enqueue(Put(s, f, b.(pc := Yielding)), f, ResumeFiber(f), Itself)) else Disabled
  }

  function Sleeping(s: State, f: FiberId, b: Fiber): Outcome {
    if b.pc.Work?
    then Went(Put(s, f, b.(pc := Yielding, place := AtTimer(s.nextTimer))).(
                timers := s.timers[s.nextTimer := SleepAlarm(f)], nextTimer := s.nextTimer + 1))
    else Disabled
  }

  /** Fiber::yield, with its assertion. */
  function Yielded(s: State, t: ThreadId, f: FiberId, b: Fiber): Outcome {
    if !(b.pc.Yielding? || b.pc.Parking?) then Disabled
    else if !b.state.Running? then Crash
    else
      var pc := if b.pc.Parking? then Parked(b.pc.c) else Paused;
      Went(Put(s, f, b.(state := Ready, pc := pc)).(hands := s.hands[t := Free]))
  }

  function Begun(s: State, f: FiberId, b: Fiber, fd: nat, e: Event): Outcome {
    if b.pc.Work?
    then Went(Put(s, f, b.(pc := Calling(Call(s.nextIo, fd, e, None)))).(
                ios := s.ios[s.nextIo := Info(f, false)], nextIo := s.nextIo + 1))
    else Disabled
  }

  function Blocked(s: State, f: FiberId, b: Fiber, timed: bool): Outcome {
    if !b.pc.Calling? then Disabled
    else if !timed then Went(Put(s, f, b.(pc := Arming(b.pc.c.(timer := None)))))
    else
      var c := b.pc.c.(timer := Some(s.nextTimer));
      Went(Put(s, f, b.(pc := Arming(c))).(
             timers := s.timers[s.nextTimer := IoAlarm(c.io, c.fd, c.e)], nextTimer := s.nextTimer + 1))
  }

  /** do_io after its yield: cancel the timer, and report a timeout or try again. */
  function Woken(s: State, f: FiberId, b: Fiber): Outcome
    requires f in s.fibers && s.fibers[f] == b
  {
    if !b.pc.Parked? then Disabled
    else if b.pc.c.io !in s.ios then Crash
    else if s.ios[b.pc.c.io].cancelled then Went(Return(CancelTimer(s, b.pc.c), f))
    else Went(Put(CancelTimer(s, b.pc.c), f, b.(pc := Calling(b.pc.c))))
  }

  /** Fiber::MainFunc after the callback. */
  function Finished(s: State, t: ThreadId, f: FiberId, b: Fiber): Outcome {
    if b.pc.Work? then Went(Put(s, f, b.(state := Term, pc := Ended)).(hands := s.hands[t := Free])) else Disabled
  }

  function Advance(s: State, t: ThreadId, step: Step): Outcome
    requires Runnable(s, t)
  {
    var f := s.hands[t].f;
    var b := s.fibers[f];
    match step
    case SelfSchedule(_) => SelfScheduled(s, f, b)
    case Sleep(_) => Sleeping(s, f, b)
    case Yield(_) => Yielded(s, t, f, b)
    case BeginIo(_, fd, e) => Begun(s, f, b, fd, e)
    case IoDone(_) => if b.pc.Calling? then Went(Return(s, f)) else Disabled
    case WouldBlock(_, timed) => Blocked(s, f, b, timed)
    case AddLook(_) => Looking(s, f, b)
    case AddCtl(_, ctl) => if b.pc.Looked? then Arm(s, f, ctl) else Disabled
    case AddBit(_) => Marking(s, f, b)
    case AddScheduler(_) => Binding(s, f, b)
    case AddWork(_) => if b.pc.Bound? then Storing(s, f) else Disabled
    case AfterWake(_) => Woken(s, f, b)
    case Finish(_) => Finished(s, t, f, b)
    case _ => Disabled
  }

  function CancelTimer(s: State, c: Call): State {
    if c.timer.Some? then s.(timers := s.timers - {c.timer.value}) else s
  }

  /** do_io returns: its timer_info is freed. */
  function Return(s: State, f: FiberId): State
    requires f in s.fibers && HasCall(s.fibers[f].pc)
  {
    Put(s, f, s.fibers[f].(pc := Work)).(ios := s.ios - {s.fibers[f].pc.c.io})
  }

  predicate HasCall(pc: Pc) {
    pc.Calling? || pc.Arming? || pc.Looked? || pc.Armed? || pc.Marked? || pc.Bound?
    || pc.Parking? || pc.Parked?
  }

  /** addEvent up to its assertion: the same event may not be registered twice. */
  function Looking(s: State, f: FiberId, b: Fiber): Outcome {
    if !b.pc.Arming? then Disabled
    else if (b.pc.c.fd, b.pc.c.e) in s.bits then Crash
    else Went(Put(s, f, b.(pc := Looked(b.pc.c, Registered(s.bits, b.pc.c.fd)))))
  }

  /** Its epoll_ctl; when that fails do_io cancels the timer and returns. */
  function Arm(s: State, f: FiberId, ctl: bool): Outcome
    requires f in s.fibers && s.fibers[f].pc.Looked?
  {
    var b := s.fibers[f];
    var c, seen := b.pc.c, b.pc.seen;
    match Io.Ctl(s.kernel, if seen != {} then Io.Mod else Io.Add, c.fd, seen + {c.e}, ctl)
    case None => Went(Return(CancelTimer(s, c), f))
    case Some(k) => Went(Put(s, f, b.(pc := Armed(c))).(kernel := k))
  }

  /** The bit. */
  function Marking(s: State, f: FiberId, b: Fiber): Outcome {
    if !b.pc.Armed? then Disabled
    else Went(Put(s, f, b.(pc := Marked(b.pc.c))).(bits := s.bits + {(b.pc.c.fd, b.pc.c.e)}))
  }

  /** The scheduler, with the assertion that the context is empty. */
  function Binding(s: State, f: FiberId, b: Fiber): Outcome {
    if !b.pc.Marked? then Disabled
    else
      var k := (b.pc.c.fd, b.pc.c.e);
      if k in s.schedulers || k in s.stored then Crash
      else Went(Put(s, f, b.(pc := Bound(b.pc.c))).(schedulers := s.schedulers + {k}))
  }

  /** The fiber, with the assertion that it is RUNNING. */
  function Storing(s: State, f: FiberId): Outcome
    requires f in s.fibers && s.fibers[f].pc.Bound?
  {
    var c := s.fibers[f].pc.c;
    if !s.fibers[f].state.Running? then Crash else Went(Park(Evict(s, c.fd, c.e, Replaced), f, c))
  }

  function Park(s: State, f: FiberId, c: Call): State
    requires f in s.fibers
  {
    var k := (c.fd, c.e);
    Put(s, f, s.fibers[f].(pc := Parking(c), place := AtEvent(c.fd, c.e))).(
      stored := s.stored[k := Waiter(|s.waits|, f)],
      waits := s.waits + [Wait(f, c.fd, c.e, k in s.bits && k in s.schedulers, Waits)])
  }

  /** A timer expires: listExpiredCb takes it out, and idle() schedules its callback. */
  function ExpireTimer(s: State, tm: nat): Outcome {
    if tm !in s.timers then Disabled
    else
      var s' := s.(timers := s.timers - {tm});
      match s.timers[tm]
      case IoAlarm(io, fd, e) => Went(Schedule(s', Timeout(tm, io, fd, e), Expired))
      case SleepAlarm(f) => if f !in s.fibers then Disabled else Went(Enqueue(s', f, WakeUp(f), Expired))
  }

  function Apply(s: State, step: Step): Outcome {
    match step
    case StartThread(t) => if t in s.hands then Disabled else Went(s.(hands := s.hands[t := Free]))
    case Spawn(f) =>
      if f in s.fibers then Disabled
      else Went(Enqueue(Put(s, f, Fiber(Ready, Work, Nowhere)), f, ResumeFiber(f), Spawned))
    case Take(t, n) => TakeTask(s, t, n)
    case Resume(t) => ResumeTask(s, t)
    case RunCallback(t, ctl) => Callback(s, t, ctl)
    case Expire(tm) => ExpireTimer(s, tm)
    case Readiness(fd, r, ctl) => Fire(s, fd, Io.RealEvents(r, Registered(s.bits, fd)), ctl)
    case CancelEvent(fd, e, ctl) => Fire(s, fd, {e}, ctl)
    case CancelAll(fd, ctl) => Fire(s, fd, Registered(s.bits, fd), ctl)
    case DelEvent(fd, e, ctl) => Went(DeleteEvent(s, fd, e, ctl))
    case _ => if Runnable(s, step.t) then Advance(s, step.t, step) else Disabled
  }

  /** The descriptor and the events that a region under a lock works on, and whether its epoll_ctl may succeed. */
  function RegionOf(s: State, step: Step): Option<(nat, set<Event>, bool)> {
    match step
    case Readiness(fd, r, ctl) => Some((fd, Io.RealEvents(r, Registered(s.bits, fd)), ctl))
    case CancelEvent(fd, e, ctl) => Some((fd, {e}, ctl))
    case CancelAll(fd, ctl) => Some((fd, Registered(s.bits, fd), ctl))
    case DelEvent(fd, e, ctl) => Some((fd, {e}, ctl))
    case RunCallback(t, ctl) =>
      if t in s.hands && s.hands[t].Holds? && s.hands[t].task.Timeout? && s.hands[t].task.io in s.ios
         && !s.ios[s.hands[t].task.io].cancelled
      then Some((s.hands[t].task.fd, {s.hands[t].task.e}, ctl)) else None
    case _ => None
  }

  function Run(s: State, steps: seq<Step>): Outcome
    decreases |steps|
  {
    if steps == [] then Went(s)
    else
      match Apply(s, steps[0])
      case Went(t) => Run(t, steps[1..])
      case Crash => Crash
      case Disabled => Disabled
  }

  // ---- the invariant

  function Carried(task: Task): Option<FiberId> {
    if task.Timeout? then None else Some(task.f)
  }

  /** The fiber that a place will make the scheduler resume. */
  function At(s: State, p: Place): Option<FiberId> {
    match p
    case Nowhere => None
    case Lost(_) => None
    case InQueue(n) => if n in s.queue then Carried(s.queue[n]) else None
    case InHand(t) => if t in s.hands && s.hands[t].Holds? then Carried(s.hands[t].task) else None
    case AtEvent(fd, e) => if (fd, e) in s.stored then Some(s.stored[(fd, e)].f) else None
    case AtTimer(tm) => if tm in s.timers && s.timers[tm].SleepAlarm? then Some(s.timers[tm].f) else None
  }

  predicate Real(p: Place) {
    !p.Nowhere? && !p.Lost?
  }

  /** A fiber is in one place, and a place holds the fiber that is there. */
  ghost predicate Placed(s: State) {
    && (forall p :: At(s, p).Some? ==> At(s, p).value in s.fibers && s.fibers[At(s, p).value].place == p)
    && (forall f :: f in s.fibers && Real(s.fibers[f].place) ==> At(s, s.fibers[f].place) == Some(f))
  }

  /** A fiber that runs has no way to be resumed yet, unless it is about to yield; one that has yielded has one. */
  ghost predicate Sound(b: Fiber, f: FiberId, hands: map<ThreadId, Hand>) {
    match b.state
    case Running(t) =>
      && t in hands && hands[t] == Runs(f) && !b.pc.Paused? && !b.pc.Ended?
      && (b.place.Nowhere? <==> !b.pc.Parking? && !b.pc.Yielding?) && (b.pc.Looked? ==> b.pc.c.e !in b.pc.seen)
    case Ready => !b.place.Nowhere? && (b.pc.Work? || b.pc.Paused? || b.pc.Parked?)
    case Term => b.place.Nowhere? && b.pc.Ended?
  }

  ghost predicate FibersSound(fibers: map<FiberId, Fiber>, hands: map<ThreadId, Hand>) {
    forall f :: f in fibers ==> Sound(fibers[f], f, hands)
  }

  ghost predicate HandsSound(fibers: map<FiberId, Fiber>, hands: map<ThreadId, Hand>) {
    forall t :: t in hands ==>
      && (hands[t].Runs? ==> hands[t].f in fibers && fibers[hands[t].f].state == Running(t))
      && (hands[t].Holds? && hands[t].task.ResumeFiber? ==>
            hands[t].task.f in fibers && fibers[hands[t].task.f].state.Ready?)
  }

  /** A fiber in do_io has its own timer_info. */
  ghost predicate OwnInfo(fibers: map<FiberId, Fiber>, ios: map<nat, Info>) {
    forall f :: f in fibers && HasCall(fibers[f].pc) ==> fibers[f].pc.c.io in ios && ios[fibers[f].pc.c.io].owner == f
  }

  /** The timer of a fiber in do_io, if it is still set, is its own. */
  ghost predicate OwnTimer(fibers: map<FiberId, Fiber>, timers: map<nat, Alarm>, nextTimer: nat) {
    forall f :: f in fibers && HasCall(fibers[f].pc) && fibers[f].pc.c.timer.Some? ==>
      var tm := fibers[f].pc.c.timer.value;
      var c := fibers[f].pc.c;
      tm < nextTimer && (tm in timers ==> timers[tm] == IoAlarm(c.io, c.fd, c.e))
  }

  ghost predicate QueueFresh(queue: map<nat, Task>, pushed: seq<Push>) {
    forall n :: n in queue ==> n < |pushed| && pushed[n].task == queue[n]
  }

  ghost predicate Below<T>(m: map<nat, T>, next: nat) {
    forall x :: x in m ==> x < next
  }

  /** A wait that is pending is in its context, and what is in a context is a pending wait. */
  ghost predicate WaitsRegistered(events: map<(nat, Event), Waiter>, waits: seq<Wait>) {
    && (forall w :: 0 <= w < |waits| && waits[w].fate.Waits? ==>
          (waits[w].fd, waits[w].e) in events && events[(waits[w].fd, waits[w].e)] == Waiter(w, waits[w].f))
    && (forall k :: k in events ==>
          && events[k].w < |waits| && waits[events[k].w].f == events[k].f && waits[events[k].w].fate.Waits?
          && waits[events[k].w].fd == k.0 && waits[events[k].w].e == k.1)
  }

  /** What is in a context is the last wait of its fiber. */
  ghost predicate LastWaits(events: map<(nat, Event), Waiter>, waits: seq<Wait>) {
    forall k, v :: k in events && events[k].w < v < |waits| ==> waits[v].f != events[k].f
  }

  /** The pushes caused by a wait are those that the wait names: at most one. */
  ghost predicate WaitsPushOnce(waits: seq<Wait>, pushed: seq<Push>) {
    && (forall w :: 0 <= w < |waits| && waits[w].fate.Woke? ==>
          waits[w].fate.n < |pushed| && pushed[waits[w].fate.n] == Push(ResumeFiber(waits[w].f), ByWait(w)))
    && (forall n :: 0 <= n < |pushed| && pushed[n].cause.ByWait? ==>
          pushed[n].cause.w < |waits| && waits[pushed[n].cause.w].fate == Woke(n))
  }

  predicate Gone(fate: Fate) {
    fate.Dropped? || fate.Replaced?
  }

  /** A fiber is lost exactly by the deletion or the replacement of its last wait. */
  ghost predicate LostByDeletion(fibers: map<FiberId, Fiber>, waits: seq<Wait>) {
    && (forall w :: 0 <= w < |waits| && Gone(waits[w].fate) ==>
          waits[w].f in fibers && fibers[waits[w].f].place == Lost(w))
    && (forall f :: f in fibers && fibers[f].place.Lost? ==>
          var w := fibers[f].place.w;
          w < |waits| && waits[w].f == f && Gone(waits[w].fate) && forall v :: w < v < |waits| ==> waits[v].f != f)
  }

  ghost predicate Inv(s: State) {
    && Placed(s) && FibersSound(s.fibers, s.hands) && HandsSound(s.fibers, s.hands)
    && OwnInfo(s.fibers, s.ios) && OwnTimer(s.fibers, s.timers, s.nextTimer)
    && QueueFresh(s.queue, s.pushed) && Below(s.timers, s.nextTimer) && Below(s.ios, s.nextIo)
    && WaitsRegistered(s.stored, s.waits) && WaitsPushOnce(s.waits, s.pushed)
    && LastWaits(s.stored, s.waits) && LostByDeletion(s.fibers, s.waits)
  }

  lemma InitInv()
    ensures Inv(INIT)
  {
  }

  /** Fiber f goes from the place it is in to place p, which was empty. */
  lemma Moves(s: State, s': State, f: FiberId, p: Place)
    requires Placed(s) && f in s.fibers && f in s'.fibers && s'.fibers == s.fibers[f := s'.fibers[f]]
    requires s'.fibers[f].place == p && (Real(p) ==> At(s, p).None? && At(s', p) == Some(f))
    requires forall q :: q != p ==> At(s', q) == if q == s.fibers[f].place then None else At(s, q)
    ensures Placed(s')
  {
    forall q | At(s', q).Some? ensures At(s', q).value in s'.fibers && s'.fibers[At(s', q).value].place == q {
      assert q != p ==> At(s, q).Some?;
    }
    forall g | g in s'.fibers && Real(s'.fibers[g].place) ensures At(s', s'.fibers[g].place) == Some(g) {
      if g != f {
        assert At(s, s.fibers[g].place) == Some(g);
        assert Real(s.fibers[f].place) ==> At(s, s.fibers[f].place) == Some(f);
      }
    }
  }

  /** No fiber goes anywhere. */
  lemma Stays(s: State, s': State)
    requires Placed(s) && s'.fibers.Keys == s.fibers.Keys
    requires forall f :: f in s.fibers ==> s'.fibers[f].place == s.fibers[f].place
    requires forall q :: At(s', q) == At(s, q)
    ensures Placed(s')
  {
  }

  /** No fiber is lost or found. */
  lemma LostStays(fibers: map<FiberId, Fiber>, fibers': map<FiberId, Fiber>, waits: seq<Wait>)
    requires LostByDeletion(fibers, waits) && fibers.Keys <= fibers'.Keys
    requires forall f :: f in fibers' && (fibers'[f].place.Lost? || (f in fibers && fibers[f].place.Lost?)) ==>
               f in fibers && fibers'[f].place == fibers[f].place
    ensures LostByDeletion(fibers', waits)
  {
  }

  /** Fiber f changes, and is in the same call of do_io as before or in none. */
  lemma ChangesOnly(s: State, f: FiberId, b: Fiber)
    requires OwnInfo(s.fibers, s.ios) && OwnTimer(s.fibers, s.timers, s.nextTimer) && f in s.fibers
    requires HasCall(b.pc) ==> HasCall(s.fibers[f].pc) && b.pc.c == s.fibers[f].pc.c
    ensures OwnInfo(s.fibers[f := b], s.ios) && OwnTimer(s.fibers[f := b], s.timers, s.nextTimer)
  {
  }

  /** Fiber f changes, but not its state. */
  lemma SoundAt(s: State, f: FiberId, b: Fiber)
    requires FibersSound(s.fibers, s.hands) && HandsSound(s.fibers, s.hands) && f in s.fibers
    requires b.state == s.fibers[f].state && Sound(b, f, s.hands)
    ensures FibersSound(s.fibers[f := b], s.hands) && HandsSound(s.fibers[f := b], s.hands)
  {
  }

  /** A thread that runs no fiber takes something else in hand. */
  lemma HandChanges(s: State, t: ThreadId, h: Hand)
    requires FibersSound(s.fibers, s.hands) && HandsSound(s.fibers, s.hands) && (t in s.hands ==> !s.hands[t].Runs?)
    requires h.Free? || (h.Holds? && (h.task.ResumeFiber? ==> h.task.f in s.fibers && s.fibers[h.task.f].state.Ready?))
    ensures FibersSound(s.fibers, s.hands[t := h]) && HandsSound(s.fibers, s.hands[t := h])
  {
  }

  /** Fiber f goes to another place: all but that place is as it was. */
  lemma PlaceChanges(s: State, f: FiberId, b: Fiber)
    requires Inv(s) && f in s.fibers && b.state == s.fibers[f].state && Sound(b, f, s.hands)
    requires (HasCall(b.pc) ==> HasCall(s.fibers[f].pc) && b.pc.c == s.fibers[f].pc.c)
    requires !s.fibers[f].place.Lost? && !b.place.Lost?
    ensures FibersSound(s.fibers[f := b], s.hands) && HandsSound(s.fibers[f := b], s.hands)
    ensures OwnInfo(s.fibers[f := b], s.ios) && OwnTimer(s.fibers[f := b], s.timers, s.nextTimer)
    ensures LostByDeletion(s.fibers[f := b], s.waits)
  {
    ChangesOnly(s, f, b);
    SoundAt(s, f, b);
    LostStays(s.fibers, s.fibers[f := b], s.waits);
  }

  // ---- every step keeps the invariant

  lemma ScheduleKeeps(s: State, task: Task, cause: Cause)
    requires QueueFresh(s.queue, s.pushed) && WaitsPushOnce(s.waits, s.pushed) && !cause.ByWait?
    ensures var s' := Schedule(s, task, cause);
            QueueFresh(s'.queue, s'.pushed) && WaitsPushOnce(s.waits, s'.pushed)
  {
    var n, pushed := |s.pushed|, Schedule(s, task, cause).pushed;
    assert pushed[n] == Push(task, cause) && forall i :: 0 <= i < n ==> pushed[i] == s.pushed[i];
  }

  lemma SpawnKeeps(s: State, f: FiberId)
    requires Inv(s) && f !in s.fibers
    ensures Inv(Apply(s, Spawn(f)).s)
  {
    ScheduleKeeps(s, ResumeFiber(f), Spawned);
    SpawnPlaced(s, f);
  }

  lemma SpawnPlaced(s: State, f: FiberId)
    requires Placed(s) && f !in s.fibers && QueueFresh(s.queue, s.pushed)
    ensures Placed(Apply(s, Spawn(f)).s)
  {
    var s1 := Put(s, f, Fiber(Ready, Work, Nowhere));
    assert forall q :: At(s1, q) == At(s, q);
    Moves(s1, Apply(s, Spawn(f)).s, f, InQueue(|s.pushed|));
  }

  lemma TakeTimeoutKeeps(s: State, t: ThreadId, n: nat)
    requires Inv(s) && TakeTask(s, t, n).Went? && s.queue[n].Timeout?
    ensures Inv(TakeTask(s, t, n).s)
  {
    Stays(s, TakeTask(s, t, n).s);
  }

  lemma TakeFiberPlaced(s: State, t: ThreadId, n: nat)
    requires Placed(s) && TakeTask(s, t, n).Went? && !s.queue[n].Timeout?
    ensures s.queue[n].f in s.fibers && s.fibers[s.queue[n].f].place == InQueue(n)
    ensures Placed(TakeTask(s, t, n).s)
  {
    assert At(s, InQueue(n)) == Some(s.queue[n].f);
    Moves(s, TakeTask(s, t, n).s, s.queue[n].f, InHand(t));
  }

  lemma TakeFiberKeeps(s: State, t: ThreadId, n: nat)
    requires Inv(s) && TakeTask(s, t, n).Went? && !s.queue[n].Timeout?
    ensures Inv(TakeTask(s, t, n).s)
  {
    var f := s.queue[n].f;
    TakeFiberPlaced(s, t, n);
    assert Sound(s.fibers[f], f, s.hands);
    PlaceChanges(s, f, s.fibers[f].(place := InHand(t)));
    HandChanges(s.(fibers := s.fibers[f := s.fibers[f].(place := InHand(t))]), t, Holds(s.queue[n]));
  }

  lemma TakeKeeps(s: State, t: ThreadId, n: nat)
    requires Inv(s) && TakeTask(s, t, n).Went?
    ensures Inv(TakeTask(s, t, n).s)
  {
    if s.queue[n].Timeout? {
      TakeTimeoutKeeps(s, t, n);
    } else {
      TakeFiberKeeps(s, t, n);
    }
  }

  lemma ResumePlaced(s: State, t: ThreadId)
    requires Placed(s) && ResumeTask(s, t).Went?
    ensures var f := s.hands[t].task.f;
            && s.fibers[f].place == InHand(t) && Placed(ResumeTask(s, t).s)
            && (forall u :: u in s.hands && s.hands[u] == Holds(ResumeFiber(f)) ==> u == t)
  {
    var f := s.hands[t].task.f;
    assert At(s, InHand(t)) == Some(f);
    forall u | u in s.hands && s.hands[u] == Holds(ResumeFiber(f)) ensures u == t {
      assert At(s, InHand(u)) == Some(f);
    }
    Moves(s, ResumeTask(s, t).s, f, Nowhere);
  }

  /** Thread t begins to run fiber f. */
  lemma ResumeSound(s: State, t: ThreadId, f: FiberId, b: Fiber)
    requires FibersSound(s.fibers, s.hands) && HandsSound(s.fibers, s.hands) && f in s.fibers
    requires s.fibers[f].state.Ready? && t in s.hands && s.hands[t] == Holds(ResumeFiber(f))
    requires forall u :: u in s.hands && s.hands[u] == Holds(ResumeFiber(f)) ==> u == t
    requires b.state == Running(t) && Sound(b, f, s.hands[t := Runs(f)])
    ensures FibersSound(s.fibers[f := b], s.hands[t := Runs(f)]) && HandsSound(s.fibers[f := b], s.hands[t := Runs(f)])
  {
  }

  /** The assertion of Fiber::resume holds. */
  lemma ResumeKeeps(s: State, t: ThreadId)
    requires Inv(s)
    ensures !ResumeTask(s, t).Crash?
    ensures ResumeTask(s, t).Went? ==> Inv(ResumeTask(s, t).s)
  {
    if ResumeTask(s, t).Went? {
      var s' := ResumeTask(s, t).s;
      var f := s.hands[t].task.f;
      assert Sound(s.fibers[f], f, s.hands);
      ResumePlaced(s, t);
      ResumeSound(s, t, f, s'.fibers[f]);
      ChangesOnly(s, f, s'.fibers[f]);
      LostStays(s.fibers, s'.fibers, s.waits);
    }
  }

  /** A wait is settled, and leaves its context. */
  lemma WaitSettles(events: map<(nat, Event), Waiter>, waits: seq<Wait>, k: (nat, Event), fate: Fate)
    requires WaitsRegistered(events, waits) && LastWaits(events, waits) && k in events && !fate.Waits?
    ensures var waits' := Settled(waits, events[k].w, fate);
            && WaitsRegistered(events - {k}, waits') && LastWaits(events - {k}, waits')
            && |waits'| == |waits| && waits'[events[k].w].fate == fate
            && (forall w :: 0 <= w < |waits| && w != events[k].w ==> waits'[w] == waits[w])
  {
    var waits' := Settled(waits, events[k].w, fate);
    assert forall w :: 0 <= w < |waits| && w != events[k].w ==> waits'[w] == waits[w];
  }

  /** A wait is consumed by the n-th push. */
  lemma WaitWakes(s: State, fd: nat, e: Event)
    requires WaitsRegistered(s.stored, s.waits) && WaitsPushOnce(s.waits, s.pushed) && LastWaits(s.stored, s.waits)
    requires (fd, e) in s.stored && s.stored[(fd, e)].f in s.fibers
    ensures WaitsPushOnce(Release(s, fd, e).waits, Release(s, fd, e).pushed)
  {
    var s' := Release(s, fd, e);
    var x, n := s.stored[(fd, e)], |s.pushed|;
    WaitSettles(s.stored, s.waits, (fd, e), Woke(n));
    assert s'.pushed[n] == Push(ResumeFiber(x.f), ByWait(x.w));
    assert forall i :: 0 <= i < n ==> s'.pushed[i] == s.pushed[i];
  }

  lemma QueueGrows(queue: map<nat, Task>, pushed: seq<Push>, x: Push)
    requires QueueFresh(queue, pushed)
    ensures QueueFresh(queue[|pushed| := x.task], pushed + [x])
  {
  }

  lemma WaitWakesLost(s: State, fd: nat, e: Event)
    requires LostByDeletion(s.fibers, s.waits) && WaitsRegistered(s.stored, s.waits)
    requires (fd, e) in s.stored && s.stored[(fd, e)].f in s.fibers
    requires s.fibers[s.stored[(fd, e)].f].place == AtEvent(fd, e)
    ensures LostByDeletion(Release(s, fd, e).fibers, Release(s, fd, e).waits)
  {
    var s' := Release(s, fd, e);
    assert forall w :: 0 <= w < |s.waits| && w != s.stored[(fd, e)].w ==> s'.waits[w] == s.waits[w];
  }

  lemma ReleaseKeeps(s: State, fd: nat, e: Event)
    requires Inv(s)
    ensures Inv(Release(s, fd, e))
  {
    if (fd, e) in s.stored {
      var f := s.stored[(fd, e)].f;
      ReleasePlaced(s, fd, e);
      WaitSettles(s.stored, s.waits, (fd, e), Woke(|s.pushed|));
      WaitWakes(s, fd, e);
      WaitWakesLost(s, fd, e);
      QueueGrows(s.queue, s.pushed, Push(ResumeFiber(f), ByWait(s.stored[(fd, e)].w)));
      assert Sound(s.fibers[f], f, s.hands);
      PlaceChanges(s, f, s.fibers[f].(place := InQueue(|s.pushed|)));
    }
  }

  lemma ReleasePlaced(s: State, fd: nat, e: Event)
    requires Placed(s) && QueueFresh(s.queue, s.pushed) && (fd, e) in s.stored
    ensures s.stored[(fd, e)].f in s.fibers && s.fibers[s.stored[(fd, e)].f].place == AtEvent(fd, e)
    ensures Placed(Release(s, fd, e))
  {
    assert At(s, AtEvent(fd, e)) == Some(s.stored[(fd, e)].f);
    Moves(s, Release(s, fd, e), s.stored[(fd, e)].f, InQueue(|s.pushed|));
  }

  /** No fiber, and no wait, is concerned by what is set in the kernel, in the bits and in the schedulers. */
  lemma SetFreely(s: State, s': State)
    requires Inv(s) && s' == s.(kernel := s'.kernel, bits := s'.bits, schedulers := s'.schedulers)
    ensures Inv(s')
  {
    Stays(s, s');
  }

  lemma TriggerKeeps(s: State, fd: nat, e: Event)
    requires Inv(s)
    ensures Inv(Trigger(s, fd, e))
  {
    ReleaseKeeps(s, fd, e);
    SetFreely(Release(s, fd, e), Trigger(s, fd, e));
  }

  /** A region under the lock of a descriptor goes wrong exactly when it takes effect and is asked to trigger an event
      without a scheduler. */
  lemma FireKeeps(s: State, fd: nat, asked: set<Event>, ctl: bool)
    requires Inv(s)
    ensures !Fire(s, fd, asked, ctl).Disabled?
    ensures Fire(s, fd, asked, ctl).Crash? <==> Withdraw(s, fd, asked, ctl).Some? && !Triggerable(s, fd, asked)
    ensures Fire(s, fd, asked, ctl).Went? ==> Inv(Fire(s, fd, asked, ctl).s)
  {
    if Fire(s, fd, asked, ctl).Went? && Withdraw(s, fd, asked, ctl).Some? {
      var s1 := s.(kernel := Withdraw(s, fd, asked, ctl).value);
      SetFreely(s, s1);
      TriggerKeeps(s1, fd, Io.Read);
      TriggerKeeps(if Io.Read in asked then Trigger(s1, fd, Io.Read) else s1, fd, Io.Write);
    }
  }

  lemma WaitGone(s: State, fd: nat, e: Event, fate: Fate)
    requires WaitsRegistered(s.stored, s.waits) && WaitsPushOnce(s.waits, s.pushed) && (fd, e) in s.stored
    requires LastWaits(s.stored, s.waits) && Gone(fate)
    ensures WaitsPushOnce(Settled(s.waits, s.stored[(fd, e)].w, fate), s.pushed)
  {
    WaitSettles(s.stored, s.waits, (fd, e), fate);
  }

  /** The wait that goes is the last one of its fiber, for a fiber that waits has no other. */
  lemma EvictLost(s: State, fd: nat, e: Event, fate: Fate)
    requires Inv(s) && (fd, e) in s.stored && s.stored[(fd, e)].f in s.fibers && Gone(fate)
    requires s.fibers[s.stored[(fd, e)].f].place == AtEvent(fd, e)
    ensures LostByDeletion(Evict(s, fd, e, fate).fibers, Evict(s, fd, e, fate).waits)
  {
  }

  lemma EvictPlaced(s: State, fd: nat, e: Event, fate: Fate)
    requires Placed(s) && (fd, e) in s.stored
    ensures s.stored[(fd, e)].f in s.fibers && s.fibers[s.stored[(fd, e)].f].place == AtEvent(fd, e)
    ensures Placed(Evict(s, fd, e, fate))
  {
    var x := s.stored[(fd, e)];
    assert At(s, AtEvent(fd, e)) == Some(x.f);
    Moves(s, Evict(s, fd, e, fate), x.f, Lost(x.w));
  }

  lemma EvictKeeps(s: State, fd: nat, e: Event, fate: Fate)
    requires Inv(s) && Gone(fate)
    ensures Inv(Evict(s, fd, e, fate))
  {
    if (fd, e) in s.stored {
      var x := s.stored[(fd, e)];
      EvictPlaced(s, fd, e, fate);
      WaitSettles(s.stored, s.waits, (fd, e), fate);
      WaitGone(s, fd, e, fate);
      EvictLost(s, fd, e, fate);
      assert Sound(s.fibers[x.f], x.f, s.hands);
      ChangesOnly(s, x.f, s.fibers[x.f].(place := Lost(x.w)));
      SoundAt(s, x.f, s.fibers[x.f].(place := Lost(x.w)));
    }
  }

  lemma DeleteEventKeeps(s: State, fd: nat, e: Event, ctl: bool)
    requires Inv(s)
    ensures Inv(DeleteEvent(s, fd, e, ctl))
  {
    if Withdraw(s, fd, {e}, ctl).Some? {
      var s1 := s.(kernel := Withdraw(s, fd, {e}, ctl).value);
      SetFreely(s, s1);
      EvictKeeps(s1, fd, e, Dropped);
      SetFreely(Evict(s1, fd, e, Dropped), DeleteEvent(s, fd, e, ctl));
    }
  }

  /** A thread that holds no task to resume a fiber drops what it holds. */
  lemma FreeKeeps(s: State, t: ThreadId)
    requires Inv(s) && t in s.hands && s.hands[t].Holds? && s.hands[t].task.Timeout?
    ensures Inv(s.(hands := s.hands[t := Free]))
  {
    Stays(s, s.(hands := s.hands[t := Free]));
    HandChanges(s, t, Free);
  }

  lemma TimedOutKeeps(s: State, io: nat, fd: nat, e: Event, ctl: bool)
    requires Inv(s)
    ensures TimedOut(s, io, fd, e, ctl).Went? ==> Inv(TimedOut(s, io, fd, e, ctl).s)
  {
    if io in s.ios {
      var s' := s.(ios := s.ios[io := s.ios[io].(cancelled := true)]);
      Stays(s, s');
      FireKeeps(s', fd, {e}, ctl);
    }
  }

  lemma WakeUpPlaced(s: State, t: ThreadId, f: FiberId)
    requires Placed(s) && QueueFresh(s.queue, s.pushed)
    requires t in s.hands && s.hands[t] == Holds(WakeUp(f)) && f in s.fibers
    ensures s.fibers[f].place == InHand(t)
    ensures Placed(Enqueue(s.(hands := s.hands[t := Free]), f, ResumeFiber(f), Slept))
  {
    assert At(s, InHand(t)) == Some(f);
    Moves(s, Enqueue(s.(hands := s.hands[t := Free]), f, ResumeFiber(f), Slept), f, InQueue(|s.pushed|));
  }

  lemma WakeUpKeeps(s: State, t: ThreadId, f: FiberId)
    requires Inv(s) && t in s.hands && s.hands[t] == Holds(WakeUp(f)) && f in s.fibers
    ensures Inv(Enqueue(s.(hands := s.hands[t := Free]), f, ResumeFiber(f), Slept))
  {
    var s' := Enqueue(s.(hands := s.hands[t := Free]), f, ResumeFiber(f), Slept);
    WakeUpPlaced(s, t, f);
    ScheduleKeeps(s, ResumeFiber(f), Slept);
    assert Sound(s.fibers[f], f, s.hands);
    PlaceChanges(s, f, s'.fibers[f]);
    HandChanges(s.(fibers := s'.fibers), t, Free);
  }

  lemma CallbackKeeps(s: State, t: ThreadId, ctl: bool)
    requires Inv(s)
    ensures Callback(s, t, ctl).Went? ==> Inv(Callback(s, t, ctl).s)
  {
    if Callback(s, t, ctl).Went? {
      var task := s.hands[t].task;
      if task.WakeUp? {
        WakeUpKeeps(s, t, task.f);
      } else {
        FreeKeeps(s, t);
        TimedOutKeeps(s.(hands := s.hands[t := Free]), task.io, task.fd, task.e, ctl);
      }
    }
  }

  /** A timer of do_io is gone. */
  lemma TimerGone(s: State, tm: nat)
    requires Inv(s) && (tm in s.timers ==> s.timers[tm].IoAlarm?)
    ensures Inv(s.(timers := s.timers - {tm}))
  {
    Stays(s, s.(timers := s.timers - {tm}));
  }

  lemma ScheduleTimeout(s: State, task: Task)
    requires Inv(s) && task.Timeout?
    ensures Inv(Schedule(s, task, Expired))
  {
    ScheduleKeeps(s, task, Expired);
    Stays(s, Schedule(s, task, Expired));
  }

  lemma ExpireIoKeeps(s: State, tm: nat, task: Task)
    requires Inv(s) && tm in s.timers && s.timers[tm].IoAlarm? && task.Timeout?
    ensures Inv(Schedule(s.(timers := s.timers - {tm}), task, Expired))
  {
    TimerGone(s, tm);
    ScheduleTimeout(s.(timers := s.timers - {tm}), task);
  }

  lemma ExpireSleepPlaced(s: State, tm: nat, f: FiberId)
    requires Placed(s) && QueueFresh(s.queue, s.pushed) && tm in s.timers && s.timers[tm] == SleepAlarm(f)
    ensures f in s.fibers && s.fibers[f].place == AtTimer(tm)
    ensures Placed(Enqueue(s.(timers := s.timers - {tm}), f, WakeUp(f), Expired))
  {
    assert At(s, AtTimer(tm)) == Some(f);
    Moves(s, Enqueue(s.(timers := s.timers - {tm}), f, WakeUp(f), Expired), f, InQueue(|s.pushed|));
  }

  lemma ExpireSleepKeeps(s: State, tm: nat, f: FiberId)
    requires Inv(s) && tm in s.timers && s.timers[tm] == SleepAlarm(f) && f in s.fibers
    ensures Inv(Enqueue(s.(timers := s.timers - {tm}), f, WakeUp(f), Expired))
  {
    ExpireSleepPlaced(s, tm, f);
    ScheduleKeeps(s, WakeUp(f), Expired);
    assert Sound(s.fibers[f], f, s.hands);
    PlaceChanges(s, f, s.fibers[f].(place := InQueue(|s.pushed|)));
  }

  lemma ExpireKeeps(s: State, tm: nat)
    requires Inv(s)
    ensures !ExpireTimer(s, tm).Crash?
    ensures ExpireTimer(s, tm).Went? ==> Inv(ExpireTimer(s, tm).s)
  {
    if ExpireTimer(s, tm).Went? {
      match s.timers[tm]
      case IoAlarm(io, fd, e) => ExpireIoKeeps(s, tm, Timeout(tm, io, fd, e));
      case SleepAlarm(f) => ExpireSleepKeeps(s, tm, f);
    }
  }

  // ---- the steps of a running fiber

  lemma SelfSchedulePlaced(s: State, f: FiberId)
    requires Placed(s) && QueueFresh(s.queue, s.pushed) && f in s.fibers && s.fibers[f].place.Nowhere?
    requires s.fibers[f].pc.Work?
    ensures Placed(SelfScheduled(s, f, s.fibers[f]).s)
  {
    Moves(s, SelfScheduled(s, f, s.fibers[f]).s, f, InQueue(|s.pushed|));
  }

  lemma SelfScheduleKeeps(s: State, t: ThreadId, f: FiberId)
    requires Inv(s) && f in s.fibers && s.fibers[f].state == Running(t)
    ensures var o := SelfScheduled(s, f, s.fibers[f]); o.Went? ==> Inv(o.s)
  {
    var o := SelfScheduled(s, f, s.fibers[f]);
    if o.Went? {
      assert Sound(s.fibers[f], f, s.hands);
      ScheduleKeeps(s, ResumeFiber(f), Itself);
      SelfSchedulePlaced(s, f);
      PlaceChanges(s, f, o.s.fibers[f]);
      assert o.s.fibers == s.fibers[f := o.s.fibers[f]];
    }
  }

  lemma SleepPlaced(s: State, f: FiberId)
    requires Placed(s) && Below(s.timers, s.nextTimer) && f in s.fibers && s.fibers[f].place.Nowhere?
    requires s.fibers[f].pc.Work?
    ensures Placed(Sleeping(s, f, s.fibers[f]).s)
  {
    Moves(s, Sleeping(s, f, s.fibers[f]).s, f, AtTimer(s.nextTimer));
  }

  lemma SleepKeeps(s: State, t: ThreadId, f: FiberId)
    requires Inv(s) && f in s.fibers && s.fibers[f].state == Running(t)
    ensures var o := Sleeping(s, f, s.fibers[f]); o.Went? ==> Inv(o.s)
  {
    var o := Sleeping(s, f, s.fibers[f]);
    if o.Went? {
      assert Sound(s.fibers[f], f, s.hands);
      SleepPlaced(s, f);
      PlaceChanges(s, f, o.s.fibers[f]);
    }
  }

  /** Thread t, which ran fiber f, lets it go. */
  lemma LetsGo(s: State, t: ThreadId, f: FiberId, b: Fiber)
    requires FibersSound(s.fibers, s.hands) && HandsSound(s.fibers, s.hands) && f in s.fibers
    requires s.fibers[f].state == Running(t) && !b.state.Running? && Sound(b, f, s.hands)
    ensures FibersSound(s.fibers[f := b], s.hands[t := Free]) && HandsSound(s.fibers[f := b], s.hands[t := Free])
  {
    assert Sound(s.fibers[f], f, s.hands);
  }

  lemma LetsGoPlaced(s: State, t: ThreadId, f: FiberId, b: Fiber)
    requires Placed(s) && f in s.fibers && t in s.hands && s.hands[t].Runs? && b.place == s.fibers[f].place
    ensures Placed(Put(s, f, b).(hands := s.hands[t := Free]))
  {
    Stays(s, Put(s, f, b).(hands := s.hands[t := Free]));
  }

  lemma YieldKeeps(s: State, t: ThreadId, f: FiberId)
    requires Inv(s) && f in s.fibers && s.fibers[f].state == Running(t)
    ensures var o := Yielded(s, t, f, s.fibers[f]); !o.Crash? && (o.Went? ==> Inv(o.s))
  {
    var o := Yielded(s, t, f, s.fibers[f]);
    if o.Went? {
      var b := o.s.fibers[f];
      assert Sound(s.fibers[f], f, s.hands);
      ChangesOnly(s, f, b);
      LetsGo(s, t, f, b);
      LetsGoPlaced(s, t, f, b);
    }
  }

  lemma FinishKeeps(s: State, t: ThreadId, f: FiberId)
    requires Inv(s) && f in s.fibers && s.fibers[f].state == Running(t)
    ensures var o := Finished(s, t, f, s.fibers[f]); !o.Crash? && (o.Went? ==> Inv(o.s))
  {
    var o := Finished(s, t, f, s.fibers[f]);
    if o.Went? {
      var b := o.s.fibers[f];
      assert Sound(s.fibers[f], f, s.hands);
      ChangesOnly(s, f, b);
      LetsGo(s, t, f, b);
      LetsGoPlaced(s, t, f, b);
    }
  }

  /** What a fiber's call of do_io needs: its own timer_info and its own timer. */
  predicate CallSound(s: State, f: FiberId, c: Call) {
    && c.io in s.ios && s.ios[c.io].owner == f
    && (c.timer.Some? ==> c.timer.value < s.nextTimer)
    && (c.timer.Some? && c.timer.value in s.timers ==> s.timers[c.timer.value] == IoAlarm(c.io, c.fd, c.e))
  }

  /** Fiber f goes on in the state and the place it is in. */
  lemma GoesOn(s: State, f: FiberId, b: Fiber)
    requires Inv(s) && f in s.fibers && b.state == s.fibers[f].state && b.place == s.fibers[f].place
    requires Sound(b, f, s.hands) && (HasCall(b.pc) ==> CallSound(s, f, b.pc.c))
    ensures Inv(Put(s, f, b))
  {
    Stays(s, Put(s, f, b));
    SoundAt(s, f, b);
    LostStays(s.fibers, s.fibers[f := b], s.waits);
  }

  lemma InfoMade(s: State, f: FiberId)
    requires Inv(s)
    ensures Inv(s.(ios := s.ios[s.nextIo := Info(f, false)], nextIo := s.nextIo + 1))
  {
    Stays(s, s.(ios := s.ios[s.nextIo := Info(f, false)], nextIo := s.nextIo + 1));
  }

  lemma BeginIoKeeps(s: State, t: ThreadId, f: FiberId, fd: nat, e: Event)
    requires Inv(s) && f in s.fibers && s.fibers[f].state == Running(t)
    ensures var o := Begun(s, f, s.fibers[f], fd, e); o.Went? ==> Inv(o.s)
  {
    var o := Begun(s, f, s.fibers[f], fd, e);
    if o.Went? {
      assert Sound(s.fibers[f], f, s.hands);
      InfoMade(s, f);
      GoesOn(s.(ios := o.s.ios, nextIo := o.s.nextIo), f, o.s.fibers[f]);
    }
  }

  function AlarmState(s: State, c: Call): State {
    s.(timers := s.timers[s.nextTimer := IoAlarm(c.io, c.fd, c.e)], nextTimer := s.nextTimer + 1)
  }

  lemma AlarmPlaced(s: State, c: Call)
    requires Placed(s) && Below(s.timers, s.nextTimer)
    ensures Placed(AlarmState(s, c))
  {
    forall q ensures At(AlarmState(s, c), q) == At(s, q) {
      if q == AtTimer(s.nextTimer) {
        assert s.nextTimer !in s.timers;
      }
    }
    Stays(s, AlarmState(s, c));
  }

  lemma AlarmKeeps(s: State, c: Call)
    requires Inv(s)
    ensures Inv(AlarmState(s, c))
  {
    AlarmPlaced(s, c);
  }

  lemma TimedBlockKeeps(s: State, t: ThreadId, f: FiberId)
    requires Inv(s) && f in s.fibers && s.fibers[f].state == Running(t) && s.fibers[f].pc.Calling?
    ensures Inv(Blocked(s, f, s.fibers[f], true).s)
  {
    assert Sound(s.fibers[f], f, s.hands);
    var c := s.fibers[f].pc.c;
    AlarmKeeps(s, c);
    GoesOn(AlarmState(s, c), f, s.fibers[f].(pc := Arming(c.(timer := Some(s.nextTimer)))));
  }

  lemma WouldBlockKeeps(s: State, t: ThreadId, f: FiberId, timed: bool)
    requires Inv(s) && f in s.fibers && s.fibers[f].state == Running(t)
    ensures var o := Blocked(s, f, s.fibers[f], timed); o.Went? ==> Inv(o.s)
  {
    if s.fibers[f].pc.Calling? {
      if timed {
        TimedBlockKeeps(s, t, f);
      } else {
        assert Sound(s.fibers[f], f, s.hands);
        GoesOn(s, f, s.fibers[f].(pc := Arming(s.fibers[f].pc.c.(timer := None))));
      }
    }
  }

  lemma InfoFreed(s: State, f: FiberId, io: nat)
    requires Inv(s) && f in s.fibers && io in s.ios && s.ios[io].owner == f && !HasCall(s.fibers[f].pc)
    ensures Inv(s.(ios := s.ios - {io}))
  {
    Stays(s, s.(ios := s.ios - {io}));
  }

  /** do_io returns from a state in which the fiber has nowhere to be resumed from. */
  lemma ReturnKeeps(s: State, f: FiberId)
    requires Inv(s) && f in s.fibers && s.fibers[f].state.Running?
    requires HasCall(s.fibers[f].pc) && !s.fibers[f].pc.Parking?
    ensures Inv(Return(s, f))
  {
    assert Sound(s.fibers[f], f, s.hands);
    var b := s.fibers[f].(pc := Work);
    GoesOn(s, f, b);
    InfoFreed(Put(s, f, b), f, s.fibers[f].pc.c.io);
  }

  lemma CancelTimerKeeps(s: State, f: FiberId)
    requires Inv(s) && f in s.fibers && HasCall(s.fibers[f].pc)
    ensures Inv(CancelTimer(s, s.fibers[f].pc.c))
  {
    if s.fibers[f].pc.c.timer.Some? {
      TimerGone(s, s.fibers[f].pc.c.timer.value);
    }
  }

  /** addEvent's assertion fails exactly for a registered event. */
  lemma LookKeeps(s: State, t: ThreadId, f: FiberId)
    requires Inv(s) && f in s.fibers && s.fibers[f].state == Running(t)
    ensures var o := Looking(s, f, s.fibers[f]);
            && (o.Crash? <==> s.fibers[f].pc.Arming? && (s.fibers[f].pc.c.fd, s.fibers[f].pc.c.e) in s.bits)
            && (o.Went? ==> Inv(o.s))
  {
    var o := Looking(s, f, s.fibers[f]);
    if o.Went? {
      assert Sound(s.fibers[f], f, s.hands);
      GoesOn(s, f, o.s.fibers[f]);
    }
  }

  lemma ArmKeeps(s: State, f: FiberId, ctl: bool)
    requires Inv(s) && f in s.fibers && s.fibers[f].pc.Looked? && s.fibers[f].state.Running?
    ensures Arm(s, f, ctl).Went? && Inv(Arm(s, f, ctl).s)
  {
    var b := s.fibers[f];
    assert Sound(b, f, s.hands);
    if Io.Ctl(s.kernel, if b.pc.seen != {} then Io.Mod else Io.Add, b.pc.c.fd, b.pc.seen + {b.pc.c.e}, ctl).None? {
      CancelTimerKeeps(s, f);
      ReturnKeeps(CancelTimer(s, b.pc.c), f);
    } else {
      var armed := b.(pc := Armed(b.pc.c));
      GoesOn(s, f, armed);
      SetFreely(Put(s, f, armed), Arm(s, f, ctl).s);
    }
  }

  lemma MarkKeeps(s: State, t: ThreadId, f: FiberId)
    requires Inv(s) && f in s.fibers && s.fibers[f].state == Running(t)
    ensures var o := Marking(s, f, s.fibers[f]); !o.Crash? && (o.Went? ==> Inv(o.s))
  {
    var o := Marking(s, f, s.fibers[f]);
    if o.Went? {
      assert Sound(s.fibers[f], f, s.hands);
      GoesOn(s, f, o.s.fibers[f]);
      SetFreely(Put(s, f, o.s.fibers[f]), o.s);
    }
  }

  /** addEvent's second assertion fails exactly when there is something in the context. */
  lemma BindKeeps(s: State, t: ThreadId, f: FiberId)
    requires Inv(s) && f in s.fibers && s.fibers[f].state == Running(t)
    ensures var o := Binding(s, f, s.fibers[f]);
            && (o.Crash? <==> s.fibers[f].pc.Marked? && var k := (s.fibers[f].pc.c.fd, s.fibers[f].pc.c.e);
                              k in s.schedulers || k in s.stored)
            && (o.Went? ==> Inv(o.s))
  {
    var o := Binding(s, f, s.fibers[f]);
    if o.Went? {
      assert Sound(s.fibers[f], f, s.hands);
      GoesOn(s, f, o.s.fibers[f]);
      SetFreely(Put(s, f, o.s.fibers[f]), o.s);
    }
  }

  lemma ParkPlaced(s: State, f: FiberId, c: Call)
    requires Placed(s) && f in s.fibers && s.fibers[f].place.Nowhere? && (c.fd, c.e) !in s.stored
    ensures Placed(Park(s, f, c))
  {
    Moves(s, Park(s, f, c), f, AtEvent(c.fd, c.e));
  }

  lemma ParkWaits(s: State, f: FiberId, c: Call)
    requires Inv(s) && f in s.fibers && s.fibers[f].place.Nowhere? && (c.fd, c.e) !in s.stored
    ensures var s' := Park(s, f, c);
            && WaitsRegistered(s'.stored, s'.waits) && WaitsPushOnce(s'.waits, s.pushed)
            && LastWaits(s'.stored, s'.waits) && LostByDeletion(s.fibers, s'.waits)
  {
    var x := Park(s, f, c).waits[|s.waits|];
    NoOtherWait(s, f);
    WaitBegins(s.stored, s.waits, s.pushed, x);
    LastBegins(s, f, x);
  }

  lemma ParkKeeps(s: State, f: FiberId, c: Call)
    requires Inv(s) && f in s.fibers && s.fibers[f].state.Running? && s.fibers[f].pc == Bound(c)
    requires (c.fd, c.e) !in s.stored
    ensures Inv(Park(s, f, c))
  {
    var s' := Park(s, f, c);
    assert Sound(s.fibers[f], f, s.hands);
    ParkPlaced(s, f, c);
    ParkWaits(s, f, c);
    PlaceChanges(s, f, s'.fibers[f]);
    LostStays(s.fibers, s'.fibers, s'.waits);
  }

  /** The last part of addEvent puts its fiber in the context, in place of any other. */
  lemma StoreKeeps(s: State, f: FiberId)
    requires Inv(s) && f in s.fibers && s.fibers[f].pc.Bound? && s.fibers[f].state.Running?
    ensures Storing(s, f).Went? && Inv(Storing(s, f).s)
  {
    var c := s.fibers[f].pc.c;
    assert Sound(s.fibers[f], f, s.hands);
    NoOtherWait(s, f);
    EvictKeeps(s, c.fd, c.e, Replaced);
    PlacedWaiters(s);
    ParkKeeps(Evict(s, c.fd, c.e, Replaced), f, c);
  }

  /** The fibers that wait for an event are in its context. */
  ghost predicate WaitersPlaced(s: State) {
    forall k :: k in s.stored ==> s.stored[k].f in s.fibers && s.fibers[s.stored[k].f].place == AtEvent(k.0, k.1)
  }

  lemma PlacedWaiters(s: State)
    requires Placed(s)
    ensures WaitersPlaced(s)
  {
    forall k | k in s.stored ensures s.stored[k].f in s.fibers && s.fibers[s.stored[k].f].place == AtEvent(k.0, k.1) {
      assert At(s, AtEvent(k.0, k.1)) == Some(s.stored[k].f);
    }
  }

  lemma WaitBegins(events: map<(nat, Event), Waiter>, waits: seq<Wait>, pushed: seq<Push>, x: Wait)
    requires WaitsRegistered(events, waits) && WaitsPushOnce(waits, pushed) && (x.fd, x.e) !in events && x.fate.Waits?
    ensures WaitsRegistered(events[(x.fd, x.e) := Waiter(|waits|, x.f)], waits + [x])
    ensures WaitsPushOnce(waits + [x], pushed)
  {
    var n, waits' := |waits|, waits + [x];
    assert waits'[n].fate.Waits? && forall w :: 0 <= w < n ==> waits'[w] == waits[w];
  }

  /** A fiber that is nowhere waits for nothing. */
  lemma NoOtherWait(s: State, f: FiberId)
    requires Placed(s) && f in s.fibers && s.fibers[f].place.Nowhere?
    ensures forall k :: k in s.stored ==> s.stored[k].f != f
  {
    forall k | k in s.stored ensures s.stored[k].f != f {
      assert At(s, AtEvent(k.0, k.1)) == Some(s.stored[k].f);
    }
  }

  lemma LastBegins(s: State, f: FiberId, x: Wait)
    requires LastWaits(s.stored, s.waits) && WaitsRegistered(s.stored, s.waits) && x.f == f && x.fate.Waits?
    requires LostByDeletion(s.fibers, s.waits) && f in s.fibers && s.fibers[f].place.Nowhere?
    requires forall k :: k in s.stored ==> s.stored[k].f != f
    ensures LastWaits(s.stored[(x.fd, x.e) := Waiter(|s.waits|, f)], s.waits + [x])
    ensures LostByDeletion(s.fibers, s.waits + [x])
  {
    var n, waits := |s.waits|, s.waits + [x];
    assert waits[n] == x && forall w :: 0 <= w < n ==> waits[w] == s.waits[w];
  }

  /** Back to the label retry. */
  lemma RetryKeeps(s: State, f: FiberId)
    requires Inv(s) && f in s.fibers && s.fibers[f].state.Running? && s.fibers[f].pc.Parked?
    ensures Inv(Put(s, f, s.fibers[f].(pc := Calling(s.fibers[f].pc.c))))
  {
    assert Sound(s.fibers[f], f, s.hands);
    GoesOn(s, f, s.fibers[f].(pc := Calling(s.fibers[f].pc.c)));
  }

  lemma AfterWakeKeeps(s: State, t: ThreadId, f: FiberId)
    requires Inv(s) && f in s.fibers && s.fibers[f].state == Running(t)
    ensures var o := Woken(s, f, s.fibers[f]); !o.Crash? && (o.Went? ==> Inv(o.s))
  {
    if s.fibers[f].pc.Parked? {
      var c := s.fibers[f].pc.c;
      var s1 := CancelTimer(s, c);
      assert Sound(s.fibers[f], f, s.hands);
      CancelTimerKeeps(s, f);
      if s.ios[c.io].cancelled {
        ReturnKeeps(s1, f);
      } else {
        RetryKeeps(s1, f);
      }
    }
  }

  /** The parts of addEvent up to its epoll_ctl. */
  lemma AddFirstKeeps(s: State, t: ThreadId, step: Step)
    requires Inv(s) && Runnable(s, t) && (step.AddLook? || step.AddCtl?)
    ensures Advance(s, t, step).Went? ==> Inv(Advance(s, t, step).s)
  {
    var f := s.hands[t].f;
    RunsIt(s, t);
    if step.AddLook? {
      assert Advance(s, t, step) == Looking(s, f, s.fibers[f]);
      LookKeeps(s, t, f);
    } else if s.fibers[f].pc.Looked? {
      assert Advance(s, t, step) == Arm(s, f, step.ctl);
      ArmKeeps(s, f, step.ctl);
    }
  }

  /** The parts after it. */
  lemma AddLastKeeps(s: State, t: ThreadId, step: Step)
    requires Inv(s) && Runnable(s, t) && (step.AddBit? || step.AddScheduler? || step.AddWork?)
    ensures Advance(s, t, step).Went? ==> Inv(Advance(s, t, step).s)
  {
    var f := s.hands[t].f;
    RunsIt(s, t);
    if step.AddBit? {
      assert Advance(s, t, step) == Marking(s, f, s.fibers[f]);
      MarkKeeps(s, t, f);
    } else if step.AddScheduler? {
      assert Advance(s, t, step) == Binding(s, f, s.fibers[f]);
      BindKeeps(s, t, f);
    } else if s.fibers[f].pc.Bound? {
      assert Advance(s, t, step) == Storing(s, f);
      StoreKeeps(s, f);
    }
  }

  lemma RunsIt(s: State, t: ThreadId)
    requires Inv(s) && Runnable(s, t)
    ensures s.fibers[s.hands[t].f].state == Running(t)
  {
  }

  /** The five parts of addEvent. */
  predicate AddStep(step: Step) {
    step.AddLook? || step.AddCtl? || step.AddBit? || step.AddScheduler? || step.AddWork?
  }

  /** The steps of a fiber in do_io, but for addEvent. */
  lemma IoKeeps(s: State, t: ThreadId, step: Step)
    requires Inv(s) && Runnable(s, t) && (step.BeginIo? || step.IoDone? || step.WouldBlock? || step.AfterWake?)
    ensures !Advance(s, t, step).Crash?
    ensures Advance(s, t, step).Went? ==> Inv(Advance(s, t, step).s)
  {
    var f := s.hands[t].f;
    match step
    case BeginIo(_, fd, e) => BeginIoKeeps(s, t, f, fd, e);
    case IoDone(_) => if s.fibers[f].pc.Calling? { ReturnKeeps(s, f); }
    case WouldBlock(_, timed) => WouldBlockKeeps(s, t, f, timed);
    case AfterWake(_) => AfterWakeKeeps(s, t, f);
  }

  lemma AdvanceKeeps(s: State, t: ThreadId, step: Step)
    requires Inv(s) && Runnable(s, t) && (step.Yield? || step.SelfSchedule? || step.Sleep? || step.Finish?)
    ensures !Advance(s, t, step).Crash?
    ensures Advance(s, t, step).Went? ==> Inv(Advance(s, t, step).s)
  {
    var f := s.hands[t].f;
    match step
    case Yield(_) => YieldKeeps(s, t, f);
    case SelfSchedule(_) => SelfScheduleKeeps(s, t, f);
    case Sleep(_) => SleepKeeps(s, t, f);
    case Finish(_) => FinishKeeps(s, t, f);
  }

  /** The regions under the lock of a descriptor. */
  lemma RegionKeeps(s: State, step: Step)
    requires Inv(s) && (step.Readiness? || step.CancelEvent? || step.CancelAll? || step.DelEvent?)
    ensures Apply(s, step).Went? ==> Inv(Apply(s, step).s)
  {
    if step.DelEvent? {
      DeleteEventKeeps(s, step.fd, step.e, step.ctl);
    } else {
      var (fd, asked, ctl) := RegionOf(s, step).value;
      assert Apply(s, step) == Fire(s, fd, asked, ctl);
      FireKeeps(s, fd, asked, ctl);
    }
  }

  /** Everything but the steps of a running fiber and the regions. */
  lemma SchedulingKeeps(s: State, step: Step)
    requires Inv(s)
    requires step.StartThread? || step.Spawn? || step.Take? || step.Resume? || step.RunCallback? || step.Expire?
    ensures Apply(s, step).Crash? ==> step.RunCallback?
    ensures Apply(s, step).Went? ==> Inv(Apply(s, step).s)
  {
    match step
    case StartThread(t) => if t !in s.hands { StartKeeps(s, t); }
    case Spawn(f) => if f !in s.fibers { SpawnKeeps(s, f); }
    case Take(t, n) => if TakeTask(s, t, n).Went? { TakeKeeps(s, t, n); }
    case Resume(t) => ResumeKeeps(s, t);
    case RunCallback(t, ctl) => CallbackKeeps(s, t, ctl);
    case Expire(tm) => ExpireKeeps(s, tm);
  }

  lemma StartKeeps(s: State, t: ThreadId)
    requires Inv(s) && t !in s.hands
    ensures Inv(s.(hands := s.hands[t := Free]))
  {
    Stays(s, s.(hands := s.hands[t := Free]));
    HandChanges(s, t, Free);
  }

  /** Every step keeps the invariant, whatever falls into an addEvent. */
  lemma ApplyKeeps(s: State, step: Step)
    requires Inv(s)
    ensures Apply(s, step).Went? ==> Inv(Apply(s, step).s)
  {
    if step.Readiness? || step.CancelEvent? || step.CancelAll? || step.DelEvent? {
      RegionKeeps(s, step);
    } else if step.StartThread? || step.Spawn? || step.Take? || step.Resume? || step.RunCallback? || step.Expire? {
      SchedulingKeeps(s, step);
    } else if Runnable(s, step.t) {
      if step.AddLook? || step.AddCtl? {
        AddFirstKeeps(s, step.t, step);
      } else if AddStep(step) {
        AddLastKeeps(s, step.t, step);
      } else if step.BeginIo? || step.IoDone? || step.WouldBlock? || step.AfterWake? {
        IoKeeps(s, step.t, step);
      } else {
        AdvanceKeeps(s, step.t, step);
      }
    }
  }

  function Then(o: Outcome, steps: seq<Step>): Outcome {
    if o.Went? then Run(o.s, steps) else o
  }

  lemma RunFrom(s: State, steps: seq<Step>, i: nat)
    requires i < |steps|
    ensures Run(s, steps[..i + 1]) == Then(Apply(s, steps[0]), steps[1..][..i])
  {
    assert steps[..i + 1][0] == steps[0] && steps[..i + 1][1..] == steps[1..][..i];
  }

  /** Every run keeps the invariant. */
  lemma {:induction false} RunKeeps(s: State, steps: seq<Step>)
    requires Inv(s) && Run(s, steps).Went?
    ensures Inv(Run(s, steps).s)
    decreases |steps|
  {
    if steps != [] {
      ApplyKeeps(s, steps[0]);
      RunKeeps(Apply(s, steps[0]).s, steps[1..]);
    }
  }

  // ---- main results

  /** Thread t has taken the task to resume f, or is running f. */
  predicate HasInHand(s: State, t: ThreadId, f: FiberId) {
    t in s.hands && (s.hands[t] == Holds(ResumeFiber(f)) || s.hands[t] == Runs(f))
  }

  /** In every reachable state a fiber is in the hands of at most one thread; it is RUNNING exactly when a thread
      runs it, and READY when a thread is about to resume it; it is never both in hand and queued. */
  lemma OneThreadPerFiber(steps: seq<Step>, f: FiberId, t: ThreadId, u: ThreadId, n: nat)
    requires Run(INIT, steps).Went?
    requires HasInHand(Run(INIT, steps).s, t, f)
    ensures var s := Run(INIT, steps).s;
            && f in s.fibers
            && (HasInHand(s, u, f) ==> u == t)
            && (s.hands[t].Runs? <==> s.fibers[f].state == Running(t))
            && (s.hands[t].Holds? <==> s.fibers[f].state == Ready)
            && (s.hands[t].Holds? && n in s.queue ==> Carried(s.queue[n]) != Some(f))
  {
    InitInv();
    RunKeeps(INIT, steps);
    var s := Run(INIT, steps).s;
    assert s.hands[t].Holds? ==> At(s, InHand(t)) == Some(f);
    assert HasInHand(s, u, f) && s.hands[u].Holds? ==> At(s, InHand(u)) == Some(f);
    assert n in s.queue ==> At(s, InQueue(n)) == Carried(s.queue[n]);
  }

  /** The assertions of resume and of yield hold in every reachable state, even when an event or a timer fires while
      its fiber is still RUNNING; the fiber that addEvent stores is RUNNING, and the timer_info of a call of do_io
      exists as long as the call. */
  lemma ResumeAndYieldHold(steps: seq<Step>, t: ThreadId)
    requires Run(INIT, steps).Went?
    ensures var s := Run(INIT, steps).s;
            && !ResumeTask(s, t).Crash?
            && (Runnable(s, t) ==>
                  var f := s.hands[t].f;
                  && s.fibers[f].state == Running(t)
                  && !Yielded(s, t, f, s.fibers[f]).Crash? && !Woken(s, f, s.fibers[f]).Crash?)
  {
    InitInv();
    RunKeeps(INIT, steps);
    var s := Run(INIT, steps).s;
    ResumeKeeps(s, t);
    if Runnable(s, t) {
      YieldKeeps(s, t, s.hands[t].f);
      AfterWakeKeeps(s, t, s.hands[t].f);
    }
  }

  /** Wait number w is the last one of fiber f. */
  predicate LastWait(s: State, f: FiberId, w: nat) {
    w < |s.waits| && s.waits[w].f == f && forall v :: w < v < |s.waits| ==> s.waits[v].f != f
  }

  /** A fiber that has yielded is queued or taken for resumption, in a context, or sleeps on a timer that is set, and in
      one of these places only; it is in none of them if and only if its last wait was deleted or replaced. */
  lemma OnePlace(s: State, f: FiberId)
    requires Inv(s) && f in s.fibers && s.fibers[f].state.Ready?
    ensures (forall p :: At(s, p) != Some(f)) <==> exists w: nat :: LastWait(s, f, w) && Gone(s.waits[w].fate)
    ensures forall p, q :: At(s, p) == Some(f) && At(s, q) == Some(f) ==> p == q
  {
    assert Sound(s.fibers[f], f, s.hands);
    var p := s.fibers[f].place;
    if p.Lost? {
      assert LastWait(s, f, p.w);
      forall q ensures At(s, q) != Some(f) {
      }
    } else {
      assert At(s, p) == Some(f);
    }
  }

  /** One shot: over every interleaving of readiness, timeout, cancelEvent, cancelAll and delEvent, whatever falls into
      an addEvent, a wait pushes its own fiber to the task queue exactly once when it is consumed, and never otherwise;
      until it is consumed, deleted or replaced it is in its context. */
  lemma WaitWakesOnce(steps: seq<Step>, w: nat)
    requires Run(INIT, steps).Went? && w < |Run(INIT, steps).s.waits|
    ensures var s := Run(INIT, steps).s;
            var x := s.waits[w];
            match x.fate
            case Waits => (x.fd, x.e) in s.stored && s.stored[(x.fd, x.e)] == Waiter(w, x.f)
              && (forall n :: 0 <= n < |s.pushed| ==> s.pushed[n].cause != ByWait(w))
            case Woke(k) => k < |s.pushed| && s.pushed[k] == Push(ResumeFiber(x.f), ByWait(w))
              && (forall n :: 0 <= n < |s.pushed| && s.pushed[n].cause == ByWait(w) ==> n == k)
            case _ => forall n :: 0 <= n < |s.pushed| ==> s.pushed[n].cause != ByWait(w)
  {
    InitInv();
    RunKeeps(INIT, steps);
  }

  /** The numbers of timer_infos are not used again. */
  lemma FreedStaysFreed(s: State, step: Step, io: nat)
    requires io < s.nextIo && io !in s.ios && Apply(s, step).Went?
    ensures var s' := Apply(s, step).s; io < s'.nextIo && io !in s'.ios
  {
    if step.Readiness? || step.CancelEvent? || step.CancelAll? || step.DelEvent? {
      RegionFreed(s, step, io);
    } else if step.RunCallback? {
      CallbackFreed(s, step.t, step.ctl, io);
    } else if step.StartThread? || step.Spawn? || step.Take? || step.Resume? || step.Expire? {
    } else {
      AdvanceFreed(s, step.t, step, io);
    }
  }

  lemma TriggerFrame(s: State, fd: nat, e: Event)
    ensures Trigger(s, fd, e).ios == s.ios && Trigger(s, fd, e).nextIo == s.nextIo
  {
  }

  lemma FireFrame(s: State, fd: nat, asked: set<Event>, ctl: bool)
    ensures var o := Fire(s, fd, asked, ctl); o.Went? ==> o.s.ios == s.ios && o.s.nextIo == s.nextIo
  {
    var k := Withdraw(s, fd, asked, ctl);
    if k.Some? {
      var s1 := s.(kernel := k.value);
      TriggerFrame(s1, fd, Io.Read);
      TriggerFrame(if Io.Read in asked then Trigger(s1, fd, Io.Read) else s1, fd, Io.Write);
    }
  }

  lemma RegionFreed(s: State, step: Step, io: nat)
    requires step.Readiness? || step.CancelEvent? || step.CancelAll? || step.DelEvent?
    requires io < s.nextIo && io !in s.ios && Apply(s, step).Went?
    ensures var s' := Apply(s, step).s; io < s'.nextIo && io !in s'.ios
  {
    if step.Readiness? {
      FireFrame(s, step.fd, Io.RealEvents(step.r, Registered(s.bits, step.fd)), step.ctl);
    } else if step.CancelEvent? {
      FireFrame(s, step.fd, {step.e}, step.ctl);
    } else if step.CancelAll? {
      FireFrame(s, step.fd, Registered(s.bits, step.fd), step.ctl);
    }
  }

  lemma CallbackFreed(s: State, t: ThreadId, ctl: bool, io: nat)
    requires io < s.nextIo && io !in s.ios && Callback(s, t, ctl).Went?
    ensures var s' := Callback(s, t, ctl).s; io < s'.nextIo && io !in s'.ios
  {
    var task := s.hands[t].task;
    if task.Timeout? && task.io in s.ios {
      var s1 := s.(hands := s.hands[t := Free]);
      FireFrame(s1.(ios := s.ios[task.io := s.ios[task.io].(cancelled := true)]), task.fd, {task.e}, ctl);
    }
  }

  lemma AddFreed(s: State, t: ThreadId, step: Step, io: nat)
    requires Runnable(s, t) && AddStep(step) && io < s.nextIo && io !in s.ios && Advance(s, t, step).Went?
    ensures var s' := Advance(s, t, step).s; io < s'.nextIo && io !in s'.ios
  {
  }

  lemma AdvanceFreed(s: State, t: ThreadId, step: Step, io: nat)
    requires Runnable(s, t) && io < s.nextIo && io !in s.ios && Advance(s, t, step).Went?
    ensures var s' := Advance(s, t, step).s; io < s'.nextIo && io !in s'.ios
  {
    if AddStep(step) {
      AddFreed(s, t, step, io);
    }
  }

  lemma {:induction false} FreedForGood(s: State, steps: seq<Step>, io: nat)
    requires Inv(s) && io < s.nextIo && io !in s.ios && Run(s, steps).Went?
    ensures var s' := Run(s, steps).s; io < s'.nextIo && io !in s'.ios
    decreases |steps|
  {
    if steps != [] {
      ApplyKeeps(s, steps[0]);
      FreedStaysFreed(s, steps[0], io);
      FreedForGood(Apply(s, steps[0]).s, steps[1..], io);
    }
  }

  /** do_io returns and frees its timer_info; however much later its timeout callback runs, the callback changes
      nothing. */
  lemma LateTimeoutIsInert(before: seq<Step>, after: seq<Step>, tm: nat, io: nat, fd: nat, e: Event,
                           t: ThreadId, ctl: bool)
    requires Run(INIT, before).Went?
    requires var s := Run(INIT, before).s; io < s.nextIo && io !in s.ios && Run(s, after).Went?
    requires var s := Run(Run(INIT, before).s, after).s; t in s.hands && s.hands[t] == Holds(Timeout(tm, io, fd, e))
    ensures var s := Run(Run(INIT, before).s, after).s;
            Apply(s, RunCallback(t, ctl)) == Went(s.(hands := s.hands[t := Free]))
  {
    InitInv();
    RunKeeps(INIT, before);
    FreedForGood(Run(INIT, before).s, after, io);
  }
}
