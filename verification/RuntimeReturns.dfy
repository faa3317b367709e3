/** How a call of do_io goes on after its fiber was resumed (src/fiber/hook.cpp:141-155): it returns with a timeout
    exactly when the callback of one of its timers has been run, and otherwise tries again. */
module RuntimeReturns {
  import opened Options
  import opened Runtime
  import opened RuntimeTimeouts
  import Io = IoEvents

  /** The step runs the callback of a timer of call number io. */
  predicate RunsTimeout(s: State, step: Step, io: nat) {
    && step.RunCallback? && step.t in s.hands && s.hands[step.t].Holds?
    && s.hands[step.t].task.Timeout? && s.hands[step.t].task.io == io
  }

  /** Somewhere in the run from s the callback of a timer of call number io is run. */
  ghost predicate TimeoutRun(s: State, steps: seq<Step>, io: nat)
    decreases |steps|
  {
    steps != [] && Apply(s, steps[0]).Went? &&
    (RunsTimeout(s, steps[0], io) || TimeoutRun(Apply(s, steps[0]).s, steps[1..], io))
  }

  /** The step sets a timer for call number io. */
  predicate SetsTimerOf(s: State, step: Step, io: nat) {
    && step.WouldBlock? && step.timed && Runnable(s, step.t)
    && s.fibers[s.hands[step.t].f].pc.Calling? && s.fibers[s.hands[step.t].f].pc.c.io == io
  }

  ghost predicate TimerSet(s: State, steps: seq<Step>, io: nat)
    decreases |steps|
  {
    steps != [] && Apply(s, steps[0]).Went? &&
    (SetsTimerOf(s, steps[0], io) || TimerSet(Apply(s, steps[0]).s, steps[1..], io))
  }

  // ---- the numbers of calls

  predicate Pending(task: Task, io: nat) {
    task.Timeout? && task.io == io
  }

  /** A timer of call number io is set, or its callback is queued or in hand, or has been run. */
  ghost predicate Alarmed(s: State, io: nat) {
    || (exists tm :: tm in s.timers && s.timers[tm].IoAlarm? && s.timers[tm].io == io)
    || (exists n :: n in s.queue && Pending(s.queue[n], io))
    || (exists t :: t in s.hands && s.hands[t].Holds? && Pending(s.hands[t].task, io))
    || Cancelled(s, io)
  }

  /** Whatever is alarmed has begun. */
  ghost predicate AllBegun(s: State) {
    forall io: nat :: Alarmed(s, io) ==> io < s.nextIo
  }

  /** A call that is alarmed now was alarmed before. */
  ghost predicate NoNewAlarm(s: State, s': State) {
    s.nextIo <= s'.nextIo && forall io: nat :: Alarmed(s', io) ==> Alarmed(s, io)
  }

  lemma TriggerAlarms(s: State, fd: nat, e: Event)
    ensures NoNewAlarm(s, Trigger(s, fd, e))
  {
    var s' := Trigger(s, fd, e);
    forall io: nat | Alarmed(s', io) ensures Alarmed(s, io) {
      if n :| n in s'.queue && Pending(s'.queue[n], io) {
        assert n in s.queue && Pending(s.queue[n], io);
      }
    }
  }

  lemma FireAlarms(s: State, fd: nat, asked: set<Event>, ctl: bool)
    requires Fire(s, fd, asked, ctl).Went?
    ensures NoNewAlarm(s, Fire(s, fd, asked, ctl).s)
  {
    var k := Withdraw(s, fd, asked, ctl);
    if k.Some? {
      var s1 := s.(kernel := k.value);
      assert NoNewAlarm(s, s1);
      TriggerAlarms(s1, fd, Io.Read);
      TriggerAlarms(if Io.Read in asked then Trigger(s1, fd, Io.Read) else s1, fd, Io.Write);
    }
  }

  lemma RegionAlarms(s: State, step: Step)
    requires Apply(s, step).Went?
    requires step.Readiness? || step.CancelEvent? || step.CancelAll? || step.DelEvent?
    ensures NoNewAlarm(s, Apply(s, step).s)
  {
    var (fd, asked, ctl) := RegionOf(s, step).value;
    if step.DelEvent? {
      DeleteFrame(s, fd, step.e, ctl, 0);
      DeleteNextIo(s, fd, step.e, ctl);
    } else {
      assert Apply(s, step) == Fire(s, fd, asked, ctl);
      FireAlarms(s, fd, asked, ctl);
    }
  }

  lemma DeleteNextIo(s: State, fd: nat, e: Event, ctl: bool)
    ensures DeleteEvent(s, fd, e, ctl).nextIo == s.nextIo
  {
  }

  lemma CallbackAlarms(s: State, t: ThreadId, ctl: bool)
    requires Callback(s, t, ctl).Went?
    ensures NoNewAlarm(s, Callback(s, t, ctl).s)
  {
    var task := s.hands[t].task;
    var s1 := s.(hands := s.hands[t := Free]);
    forall io: nat | Alarmed(s1, io) ensures Alarmed(s, io) {
    }
    if task.WakeUp? {
      EnqueueAlarms(s1, task.f, ResumeFiber(task.f), Slept);
    } else if task.io in s.ios && !s.ios[task.io].cancelled {
      var s2 := s1.(ios := s.ios[task.io := s.ios[task.io].(cancelled := true)]);
      assert Alarmed(s, task.io) by { assert Pending(s.hands[t].task, task.io); }
      forall io: nat | Alarmed(s2, io) ensures Alarmed(s, io) {
        assert io != task.io ==> Alarmed(s1, io);
      }
      FireAlarms(s2, task.fd, {task.e}, ctl);
    }
  }

  /** Scheduling a fiber. */
  lemma EnqueueAlarms(s: State, f: FiberId, task: Task, cause: Cause)
    requires f in s.fibers && !task.Timeout?
    ensures NoNewAlarm(s, Enqueue(s, f, task, cause))
  {
    var s' := Enqueue(s, f, task, cause);
    forall io: nat | Alarmed(s', io) ensures Alarmed(s, io) {
      if n :| n in s'.queue && Pending(s'.queue[n], io) {
        assert n in s.queue && Pending(s.queue[n], io);
      }
    }
  }

  lemma TakeAlarms(s: State, t: ThreadId, n: nat)
    requires TakeTask(s, t, n).Went?
    ensures NoNewAlarm(s, TakeTask(s, t, n).s)
  {
    var s' := TakeTask(s, t, n).s;
    forall io: nat | Alarmed(s', io) ensures Alarmed(s, io) {
      if u :| u in s'.hands && s'.hands[u].Holds? && Pending(s'.hands[u].task, io) {
        assert u == t ==> Pending(s.queue[n], io);
      }
    }
  }

  lemma ExpireAlarms(s: State, tm: nat)
    requires ExpireTimer(s, tm).Went?
    ensures NoNewAlarm(s, ExpireTimer(s, tm).s)
  {
    var s1 := s.(timers := s.timers - {tm});
    match s.timers[tm]
    case IoAlarm(io, fd, e) => ExpireIoAlarm(s, tm, Timeout(tm, io, fd, e));
    case SleepAlarm(f) =>
      assert NoNewAlarm(s, s1);
      EnqueueAlarms(s1, f, WakeUp(f), Expired);
  }

  lemma ExpireIoAlarm(s: State, tm: nat, task: Task)
    requires tm in s.timers && s.timers[tm].IoAlarm? && task.Timeout? && task.io == s.timers[tm].io
    ensures NoNewAlarm(s, Schedule(s.(timers := s.timers - {tm}), task, Expired))
  {
    var s' := Schedule(s.(timers := s.timers - {tm}), task, Expired);
    forall io: nat | Alarmed(s', io) ensures Alarmed(s, io) {
      if n :| n in s'.queue && Pending(s'.queue[n], io) {
        assert n == |s.pushed| || (n in s.queue && Pending(s.queue[n], io));
      }
    }
  }

  /** Starting a thread, making a fiber, and resuming one. */
  lemma QuietAlarms(s: State, step: Step)
    requires Apply(s, step).Went? && (step.StartThread? || step.Spawn? || step.Resume?)
    ensures NoNewAlarm(s, Apply(s, step).s)
  {
    var s' := Apply(s, step).s;
    forall io: nat | Alarmed(s', io) ensures Alarmed(s, io) {
      if n :| n in s'.queue && Pending(s'.queue[n], io) {
        assert n in s.queue && Pending(s.queue[n], io);
      }
    }
  }

  lemma AddAlarms(s: State, t: ThreadId, step: Step)
    requires Runnable(s, t) && AddStep(step) && Advance(s, t, step).Went?
    ensures NoNewAlarm(s, Advance(s, t, step).s)
  {
    AddFrame(s, t, step);
    AddNextIo(s, t, step);
  }

  lemma AddNextIo(s: State, t: ThreadId, step: Step)
    requires Runnable(s, t) && AddStep(step) && Advance(s, t, step).Went?
    ensures Advance(s, t, step).s.nextIo == s.nextIo
  {
  }

  /** The other steps of a running fiber, but for the one that sets the timer. */
  lemma FiberAlarms(s: State, t: ThreadId, step: Step)
    requires Runnable(s, t) && !AddStep(step) && !step.WouldBlock? && Advance(s, t, step).Went?
    ensures NoNewAlarm(s, Advance(s, t, step).s)
  {
    if step.IoDone? || step.AfterWake? {
      IoFrame(s, t, step);
      IoNextIo(s, t, step);
    } else if step.SelfSchedule? {
      SelfAlarms(s, t);
    } else {
      OtherAlarms(s, t, step);
    }
  }

  lemma IoNextIo(s: State, t: ThreadId, step: Step)
    requires Runnable(s, t) && (step.IoDone? || step.AfterWake?) && Advance(s, t, step).Went?
    ensures Advance(s, t, step).s.nextIo == s.nextIo
  {
  }

  lemma SelfAlarms(s: State, t: ThreadId)
    requires Runnable(s, t) && Advance(s, t, SelfSchedule(t)).Went?
    ensures NoNewAlarm(s, Advance(s, t, SelfSchedule(t)).s)
  {
    var s' := Advance(s, t, SelfSchedule(t)).s;
    forall io: nat | Alarmed(s', io) ensures Alarmed(s, io) {
      if n :| n in s'.queue && Pending(s'.queue[n], io) {
        assert n in s.queue && Pending(s.queue[n], io);
      }
    }
  }

  lemma OtherAlarms(s: State, t: ThreadId, step: Step)
    requires Runnable(s, t) && (step.Sleep? || step.Yield? || step.BeginIo? || step.Finish?)
    requires Advance(s, t, step).Went?
    ensures NoNewAlarm(s, Advance(s, t, step).s)
  {
  }

  lemma BlockAlarms(s: State, t: ThreadId, timed: bool, io: nat)
    requires Runnable(s, t) && Advance(s, t, WouldBlock(t, timed)).Went?
    requires Alarmed(Advance(s, t, WouldBlock(t, timed)).s, io)
    ensures Alarmed(s, io) || SetsTimerOf(s, WouldBlock(t, timed), io)
  {
  }

  /** A call becomes alarmed only by setting a timer. */
  lemma StepAlarms(s: State, step: Step, io: nat)
    requires Apply(s, step).Went?
    ensures s.nextIo <= Apply(s, step).s.nextIo
    ensures Alarmed(Apply(s, step).s, io) ==> Alarmed(s, io) || SetsTimerOf(s, step, io)
  {
    if step.Readiness? || step.CancelEvent? || step.CancelAll? || step.DelEvent? {
      RegionAlarms(s, step);
    } else if step.RunCallback? {
      CallbackAlarms(s, step.t, step.ctl);
    } else if step.Take? {
      TakeAlarms(s, step.t, step.n);
    } else if step.Expire? {
      ExpireAlarms(s, step.tm);
    } else if step.StartThread? || step.Spawn? || step.Resume? {
      QuietAlarms(s, step);
    } else if AddStep(step) {
      AddAlarms(s, step.t, step);
    } else if !step.WouldBlock? {
      FiberAlarms(s, step.t, step);
    } else if Alarmed(Apply(s, step).s, io) {
      BlockAlarms(s, step.t, step.timed, io);
    }
  }

  lemma StepBegun(s: State, step: Step)
    requires Inv(s) && AllBegun(s) && Apply(s, step).Went?
    ensures AllBegun(Apply(s, step).s)
  {
    forall io: nat | Alarmed(Apply(s, step).s, io) ensures io < Apply(s, step).s.nextIo {
      StepAlarms(s, step, io);
    }
    StepAlarms(s, step, 0);
  }

  // ---- what the timer_info says

  /** After a step the timer_info of call number io, if it is there, says that a timeout has come exactly when it said
      so before or the step runs the callback. */
  ghost predicate NotesExactly(s: State, s': State, ran: bool, io: nat) {
    io in s'.ios ==> (s'.ios[io].cancelled <==> Cancelled(s, io) || ran)
  }

  lemma CallbackNotes(s: State, t: ThreadId, ctl: bool, io: nat)
    requires Callback(s, t, ctl).Went?
    ensures NotesExactly(s, Callback(s, t, ctl).s, RunsTimeout(s, RunCallback(t, ctl), io), io)
  {
    var task := s.hands[t].task;
    var s1 := s.(hands := s.hands[t := Free]);
    if task.Timeout? && task.io in s.ios && !s.ios[task.io].cancelled {
      FireFrame(s1.(ios := s.ios[task.io := s.ios[task.io].(cancelled := true)]), task.fd, {task.e}, ctl);
    }
  }

  lemma RegionNotes(s: State, step: Step, io: nat)
    requires Apply(s, step).Went?
    requires step.Readiness? || step.CancelEvent? || step.CancelAll? || step.DelEvent?
    ensures NotesExactly(s, Apply(s, step).s, false, io)
  {
    var (fd, asked, ctl) := RegionOf(s, step).value;
    if step.DelEvent? {
      DeleteFrame(s, fd, step.e, ctl, 0);
    } else {
      assert Apply(s, step) == Fire(s, fd, asked, ctl);
      FireFrame(s, fd, asked, ctl);
    }
  }

  lemma FiberNotes(s: State, t: ThreadId, step: Step, io: nat)
    requires Below(s.ios, s.nextIo) && Runnable(s, t) && Advance(s, t, step).Went?
    ensures NotesExactly(s, Advance(s, t, step).s, false, io)
  {
    if AddStep(step) {
      AddFrame(s, t, step);
    }
  }

  lemma StepNotes(s: State, step: Step, io: nat)
    requires Below(s.ios, s.nextIo) && Apply(s, step).Went?
    ensures NotesExactly(s, Apply(s, step).s, RunsTimeout(s, step, io), io)
  {
    if step.Readiness? || step.CancelEvent? || step.CancelAll? || step.DelEvent? {
      RegionNotes(s, step, io);
    } else if step.RunCallback? {
      CallbackNotes(s, step.t, step.ctl, io);
    } else if !(step.StartThread? || step.Spawn? || step.Take? || step.Resume? || step.Expire?) {
      FiberNotes(s, step.t, step, io);
    }
  }

  lemma {:induction false} RunNotes(s: State, steps: seq<Step>, io: nat)
    requires Inv(s) && AllBegun(s) && Run(s, steps).Went? && io in Run(s, steps).s.ios
    ensures Run(s, steps).s.ios[io].cancelled <==> Cancelled(s, io) || TimeoutRun(s, steps, io)
    decreases |steps|
  {
    if steps != [] {
      var s1 := Apply(s, steps[0]).s;
      ApplyKeeps(s, steps[0]);
      StepBegun(s, steps[0]);
      StepNotes(s, steps[0], io);
      RunNotes(s1, steps[1..], io);
      if io !in s1.ios {
        if io < s1.nextIo {
          FreedForGood(s1, steps[1..], io);
        }
        StepAlarms(s, steps[0], io);
        assert !Alarmed(s, io);
        assert RunsTimeout(s, steps[0], io) ==> Pending(s.hands[steps[0].t].task, io);
      }
    }
  }

  lemma {:induction false} RunAlarms(s: State, steps: seq<Step>, io: nat)
    requires Run(s, steps).Went?
    ensures Alarmed(Run(s, steps).s, io) ==> Alarmed(s, io) || TimerSet(s, steps, io)
    decreases |steps|
  {
    if steps != [] {
      RunAlarms(Apply(s, steps[0]).s, steps[1..], io);
      StepAlarms(s, steps[0], io);
    }
  }

  // ---- main results

  /** The same, by what the timer_info says. */
  lemma WokenBy(s: State, t: ThreadId)
    requires OwnInfo(s.fibers, s.ios) && Apply(s, AfterWake(t)).Went?
    ensures var s', f := Apply(s, AfterWake(t)).s, s.hands[t].f;
            && Runnable(s, t) && s.fibers[f].pc.Parked? && f in s'.fibers
            && var c := s.fibers[f].pc.c;
            && c.io in s.ios
            && (if s.ios[c.io].cancelled then s'.fibers[f].pc == Work && s'.ios == s.ios - {c.io}
                else s'.fibers[f].pc == Calling(c) && s'.ios == s.ios)
            && s'.timers == (if c.timer.Some? then s.timers - {c.timer.value} else s.timers)
            && s'.hands == s.hands && s'.queue == s.queue
  {
  }

  /** Over every run: a fiber that goes on after its wait in do_io leaves the call, and its timer_info is freed, if and
      only if the callback of one of the timers of that call has been run; otherwise it is back at the label retry, in
      the same call with the same timer_info.  In both cases its own timer is no longer set, and the others are as they
      were. */
  lemma ReturnsExactly(steps: seq<Step>, t: ThreadId)
    requires Run(INIT, steps).Went? && Apply(Run(INIT, steps).s, AfterWake(t)).Went?
    ensures var s, s' := Run(INIT, steps).s, Apply(Run(INIT, steps).s, AfterWake(t)).s;
            var f := s.hands[t].f;
            && f in s.fibers && s.fibers[f].pc.Parked? && f in s'.fibers
            && var c := s.fibers[f].pc.c;
            && c.io in s.ios
            && (if TimeoutRun(INIT, steps, c.io) then s'.fibers[f].pc == Work && s'.ios == s.ios - {c.io}
                else s'.fibers[f].pc == Calling(c) && s'.ios == s.ios)
            && s'.timers == (if c.timer.Some? then s.timers - {c.timer.value} else s.timers)
            && s'.hands == s.hands && s'.queue == s.queue
  {
    InitInv();
    RunKeeps(INIT, steps);
    var s := Run(INIT, steps).s;
    WokenBy(s, t);
    RunNotes(INIT, steps, s.fibers[s.hands[t].f].pc.c.io);
  }

  /** A call of do_io that never sets a timer is never left with a timeout. */
  lemma NoTimerNoTimeout(steps: seq<Step>, io: nat)
    requires Run(INIT, steps).Went? && io in Run(INIT, steps).s.ios
    ensures TimeoutRun(INIT, steps, io) ==> TimerSet(INIT, steps, io)
  {
    InitInv();
    RunNotes(INIT, steps, io);
    RunAlarms(INIT, steps, io);
  }

  // ---- when a call ends

  /** epoll_ctl in the addEvent of the fiber that thread t runs can succeed, and does. */
  predicate Watches(s: State, t: ThreadId, ctl: bool)
    requires Runnable(s, t) && s.fibers[s.hands[t].f].pc.Looked?
  {
    var pc := s.fibers[s.hands[t].f].pc;
    ctl && (pc.c.fd in s.kernel <==> pc.seen != {})
  }

  lemma ArmExact(s: State, f: FiberId, ctl: bool)
    requires f in s.fibers && s.fibers[f].pc.Looked?
    ensures var o, c, seen := Arm(s, f, ctl), s.fibers[f].pc.c, s.fibers[f].pc.seen;
            && o.Went? && o.s.hands == s.hands && o.s.queue == s.queue && f in o.s.fibers
            && if ctl && (c.fd in s.kernel <==> seen != {})
               then o.s.fibers[f].pc == Armed(c) && o.s.kernel == s.kernel[c.fd := seen + {c.e}]
                    && o.s.timers == s.timers && o.s.ios == s.ios
               else o.s.fibers[f].pc == Work && o.s.kernel == s.kernel && o.s.ios == s.ios - {c.io}
                    && o.s.timers == (if c.timer.Some? then s.timers - {c.timer.value} else s.timers)
  {
  }

  /** The epoll_ctl of addEvent.  If it succeeds the kernel watches the event with those that addEvent has seen, and
      nothing else changes; if not, do_io cancels its timer and returns. */
  lemma AddCtlExact(s: State, t: ThreadId, ctl: bool)
    requires Runnable(s, t) && s.fibers[s.hands[t].f].pc.Looked?
    ensures var o, f := Apply(s, AddCtl(t, ctl)), s.hands[t].f;
            var c, seen := s.fibers[f].pc.c, s.fibers[f].pc.seen;
            && o.Went? && o.s.hands == s.hands && o.s.queue == s.queue && f in o.s.fibers
            && if Watches(s, t, ctl)
               then o.s.fibers[f].pc == Armed(c) && o.s.kernel == s.kernel[c.fd := seen + {c.e}]
                    && o.s.timers == s.timers && o.s.ios == s.ios
               else o.s.fibers[f].pc == Work && o.s.kernel == s.kernel && o.s.ios == s.ios - {c.io}
                    && o.s.timers == (if c.timer.Some? then s.timers - {c.timer.value} else s.timers)
  {
    ArmExact(s, s.hands[t].f, ctl);
  }

  /** The ways out of call number io: the operation does not block; the fiber goes on after its wait and a timeout has
      come; or addEvent fails. */
  predicate EndsCall(s: State, step: Step, io: nat) {
    && (step.IoDone? || step.AfterWake? || step.AddCtl?) && Runnable(s, step.t)
    && var pc := s.fibers[s.hands[step.t].f].pc;
    && HasCall(pc) && pc.c.io == io
    && (step.IoDone? ==> pc.Calling?)
    && (step.AfterWake? ==> pc.Parked? && Cancelled(s, io))
    && (step.AddCtl? ==> pc.Looked? && !Watches(s, step.t, step.ctl))
  }

  /** do_io returns in these three ways, and in no other. */
  lemma CallEndsExactly(s: State, step: Step, io: nat)
    requires Inv(s) && io in s.ios && Apply(s, step).Went?
    ensures io !in Apply(s, step).s.ios <==> EndsCall(s, step, io)
  {
    if step.Readiness? || step.CancelEvent? || step.CancelAll? || step.DelEvent? {
      RegionIos(s, step);
    } else if step.RunCallback? {
      CallbackIos(s, step.t, step.ctl);
    } else if !(step.StartThread? || step.Spawn? || step.Take? || step.Resume? || step.Expire?) {
      FiberEnds(s, step, io);
    }
  }

  lemma RegionIos(s: State, step: Step)
    requires Apply(s, step).Went?
    requires step.Readiness? || step.CancelEvent? || step.CancelAll? || step.DelEvent?
    ensures Apply(s, step).s.ios == s.ios
  {
    var (fd, asked, ctl) := RegionOf(s, step).value;
    if step.DelEvent? {
      DeleteFrame(s, fd, step.e, ctl, 0);
    } else {
      assert Apply(s, step) == Fire(s, fd, asked, ctl);
      FireFrame(s, fd, asked, ctl);
    }
  }

  lemma CallbackIos(s: State, t: ThreadId, ctl: bool)
    requires Callback(s, t, ctl).Went?
    ensures Callback(s, t, ctl).s.ios.Keys == s.ios.Keys
  {
    var task := s.hands[t].task;
    if task.Timeout? && task.io in s.ios && !s.ios[task.io].cancelled {
      var s1 := s.(hands := s.hands[t := Free], ios := s.ios[task.io := s.ios[task.io].(cancelled := true)]);
      FireFrame(s1, task.fd, {task.e}, ctl);
    }
  }

  lemma FiberEnds(s: State, step: Step, io: nat)
    requires Inv(s) && io in s.ios && Apply(s, step).Went?
    requires !(step.Readiness? || step.CancelEvent? || step.CancelAll? || step.DelEvent? || step.RunCallback?)
    requires !(step.StartThread? || step.Spawn? || step.Take? || step.Resume? || step.Expire?)
    ensures io !in Apply(s, step).s.ios <==> EndsCall(s, step, io)
  {
    if step.AddCtl? {
      AddCtlExact(s, step.t, step.ctl);
    } else if step.AfterWake? {
      WokenBy(s, step.t);
    } else if AddStep(step) {
      AddGoesOn(s, step.t, step);
    } else if step.IoDone? {
      DoneReturns(s, step.t);
    } else {
      OthersGoOn(s, step.t, step);
    }
  }

  lemma DoneReturns(s: State, t: ThreadId)
    requires Runnable(s, t) && Advance(s, t, IoDone(t)).Went?
    ensures var pc := s.fibers[s.hands[t].f].pc; pc.Calling? && Advance(s, t, IoDone(t)).s.ios == s.ios - {pc.c.io}
  {
  }

  lemma OthersGoOn(s: State, t: ThreadId, step: Step)
    requires Runnable(s, t) && !AddStep(step) && !step.IoDone? && !step.AfterWake? && Advance(s, t, step).Went?
    ensures s.ios.Keys <= Advance(s, t, step).s.ios.Keys
  {
  }

  /** No other part of addEvent gives up. */
  lemma AddGoesOn(s: State, t: ThreadId, step: Step)
    requires Runnable(s, t) && AddStep(step) && !step.AddCtl? && Advance(s, t, step).Went?
    ensures Advance(s, t, step).s.ios == s.ios
  {
    if step.AddWork? {
      StoreFrame(s, s.hands[t].f);
    }
  }
}
