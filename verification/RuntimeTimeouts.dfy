/** What becomes of the timeout of do_io (src/fiber/hook.cpp:125-145).  As long as its callback has not been run, the
    timer is set or the callback is queued or in hand; and a callback that finds nothing to cancel leaves its fiber to
    wait without any timeout. */
module RuntimeTimeouts {
  import opened Options
  import opened Runtime
  import opened RuntimeWaits
  import Io = IoEvents

  /** The timer is set, or its callback is queued or in hand. */
  ghost predicate Rings(s: State, tm: nat, io: nat, fd: nat, e: Event) {
    || (tm in s.timers && s.timers[tm] == IoAlarm(io, fd, e))
    || (exists n :: n in s.queue && s.queue[n] == Timeout(tm, io, fd, e))
    || (exists t :: t in s.hands && s.hands[t] == Holds(Timeout(tm, io, fd, e)))
  }

  /** The fiber is in do_io, past the setting of its timer. */
  predicate Timed(pc: Pc) {
    HasCall(pc) && !pc.Calling? && pc.c.timer.Some?
  }

  predicate Cancelled(s: State, io: nat) {
    io in s.ios && s.ios[io].cancelled
  }

  /** The timeout of fiber f is to come, or its timer_info says that it came. */
  ghost predicate Provided(s: State, f: FiberId) {
    f in s.fibers && Timed(s.fibers[f].pc) ==>
      var c := s.fibers[f].pc.c; Rings(s, c.timer.value, c.io, c.fd, c.e) || Cancelled(s, c.io)
  }

  /** What rings goes on to ring, and what is cancelled stays cancelled, for the call of fiber f. */
  ghost predicate GoesOnRinging(s: State, s': State, c: Call)
    requires c.timer.Some?
  {
    && (Rings(s, c.timer.value, c.io, c.fd, c.e) ==>
          Rings(s', c.timer.value, c.io, c.fd, c.e) || Cancelled(s', c.io))
    && (Cancelled(s, c.io) ==> Cancelled(s', c.io))
  }

  /** Nothing is taken away: the queue and the timers grow, and no hand drops a timeout. */
  ghost predicate Grows(s: State, s': State, c: Call)
    requires c.timer.Some?
  {
    && (c.timer.value in s.timers && s.timers[c.timer.value] == IoAlarm(c.io, c.fd, c.e) ==>
          c.timer.value in s'.timers && s'.timers[c.timer.value] == s.timers[c.timer.value])
    && (forall n :: n in s.queue ==> n in s'.queue && s'.queue[n] == s.queue[n])
    && (forall t :: t in s.hands && s.hands[t].Holds? && s.hands[t].task.Timeout? ==>
          t in s'.hands && s'.hands[t] == s.hands[t])
    && (Cancelled(s, c.io) ==> Cancelled(s', c.io))
  }

  lemma GrowsRinging(s: State, s': State, c: Call)
    requires c.timer.Some? && Grows(s, s', c)
    ensures GoesOnRinging(s, s', c)
  {
    var tm := c.timer.value;
    if n :| n in s.queue && s.queue[n] == Timeout(tm, c.io, c.fd, c.e) {
      assert n in s'.queue && s'.queue[n] == Timeout(tm, c.io, c.fd, c.e);
    }
    if t :| t in s.hands && s.hands[t] == Holds(Timeout(tm, c.io, c.fd, c.e)) {
      assert t in s'.hands && s'.hands[t] == Holds(Timeout(tm, c.io, c.fd, c.e));
    }
  }

  lemma ExpireRinging(s: State, tm: nat, c: Call)
    requires QueueFresh(s.queue, s.pushed) && ExpireTimer(s, tm).Went? && c.timer.Some?
    ensures GoesOnRinging(s, ExpireTimer(s, tm).s, c)
  {
    var s' := ExpireTimer(s, tm).s;
    if tm == c.timer.value && s.timers[tm] == IoAlarm(c.io, c.fd, c.e) {
      assert |s.pushed| in s'.queue && s'.queue[|s.pushed|] == Timeout(tm, c.io, c.fd, c.e);
    } else {
      GrowsRinging(s, s', c);
    }
  }

  lemma TakeRinging(s: State, t: ThreadId, n: nat, c: Call)
    requires TakeTask(s, t, n).Went? && c.timer.Some?
    ensures GoesOnRinging(s, TakeTask(s, t, n).s, c)
  {
    var s', tm := TakeTask(s, t, n).s, c.timer.value;
    if s.queue[n] == Timeout(tm, c.io, c.fd, c.e) {
      assert t in s'.hands && s'.hands[t] == Holds(Timeout(tm, c.io, c.fd, c.e));
    } else {
      if m :| m in s.queue && s.queue[m] == Timeout(tm, c.io, c.fd, c.e) {
        assert m in s'.queue && s'.queue[m] == Timeout(tm, c.io, c.fd, c.e);
      }
      if u :| u in s.hands && s.hands[u] == Holds(Timeout(tm, c.io, c.fd, c.e)) {
        assert u in s'.hands && s'.hands[u] == Holds(Timeout(tm, c.io, c.fd, c.e));
      }
    }
  }

  /** A region under a lock takes away no timer, no task and no timer_info. */
  ghost predicate OnlyPushes(s: State, s': State) {
    && s'.timers == s.timers && s'.hands == s.hands && s'.ios == s.ios && QueueFresh(s'.queue, s'.pushed)
    && forall n :: n in s.queue ==> n in s'.queue && s'.queue[n] == s.queue[n]
  }

  lemma TriggerPushes(s: State, fd: nat, e: Event)
    requires QueueFresh(s.queue, s.pushed)
    ensures OnlyPushes(s, Trigger(s, fd, e))
  {
    if (fd, e) in s.stored {
      var x := s.stored[(fd, e)];
      QueueGrows(s.queue, s.pushed, Push(ResumeFiber(x.f), ByWait(x.w)));
    }
  }

  lemma FirePushes(s: State, fd: nat, asked: set<Event>, ctl: bool)
    requires QueueFresh(s.queue, s.pushed) && Fire(s, fd, asked, ctl).Went?
    ensures OnlyPushes(s, Fire(s, fd, asked, ctl).s)
  {
    var k := Withdraw(s, fd, asked, ctl);
    if k.Some? {
      var s1 := s.(kernel := k.value);
      TriggerPushes(s1, fd, Io.Read);
      TriggerPushes(if Io.Read in asked then Trigger(s1, fd, Io.Read) else s1, fd, Io.Write);
    }
  }

  /** What a callback leaves: it drops the task in hand and takes no other away, and notes a timeout. */
  lemma CallbackLeaves(s: State, t: ThreadId, ctl: bool)
    requires QueueFresh(s.queue, s.pushed) && Callback(s, t, ctl).Went?
    ensures var task, s' := s.hands[t].task, Callback(s, t, ctl).s;
            && s'.timers == s.timers && s'.hands == s.hands[t := Free]
            && (forall n :: n in s.queue ==> n in s'.queue && s'.queue[n] == s.queue[n])
            && (forall io :: Cancelled(s, io) ==> Cancelled(s', io))
            && (task.Timeout? && task.io in s.ios ==> Cancelled(s', task.io))
  {
    var task := s.hands[t].task;
    if task.Timeout? && task.io in s.ios && !s.ios[task.io].cancelled {
      var s1 := s.(hands := s.hands[t := Free], ios := s.ios[task.io := s.ios[task.io].(cancelled := true)]);
      FirePushes(s1, task.fd, {task.e}, ctl);
    }
  }

  lemma CallbackRinging(s: State, t: ThreadId, ctl: bool, c: Call)
    requires QueueFresh(s.queue, s.pushed) && Callback(s, t, ctl).Went? && c.timer.Some? && c.io in s.ios
    ensures GoesOnRinging(s, Callback(s, t, ctl).s, c)
  {
    var task, s', tm := s.hands[t].task, Callback(s, t, ctl).s, c.timer.value;
    CallbackLeaves(s, t, ctl);
    if task != Timeout(tm, c.io, c.fd, c.e) {
      if u :| u in s.hands && s.hands[u] == Holds(Timeout(tm, c.io, c.fd, c.e)) {
        assert u in s'.hands && s'.hands[u] == Holds(Timeout(tm, c.io, c.fd, c.e));
      }
      if n :| n in s.queue && s.queue[n] == Timeout(tm, c.io, c.fd, c.e) {
        assert n in s'.queue && s'.queue[n] == Timeout(tm, c.io, c.fd, c.e);
      }
    }
  }

  /** What a step of fiber g leaves of the timers and the timer_infos: all but its own. */
  lemma CancelsOwn(s: State, s': State, g: FiberId, f: FiberId)
    requires OwnInfo(s.fibers, s.ios) && OwnTimer(s.fibers, s.timers, s.nextTimer)
    requires f in s.fibers && g in s.fibers && f != g && Timed(s.fibers[f].pc) && HasCall(s.fibers[g].pc)
    requires s'.timers == CancelTimer(s, s.fibers[g].pc.c).timers || s'.timers == s.timers
    requires s'.ios == s.ios || s'.ios == s.ios - {s.fibers[g].pc.c.io}
    requires s'.hands == s.hands && s'.queue == s.queue
    ensures Grows(s, s', s.fibers[f].pc.c)
  {
  }

  /** What a part of addEvent changes of timers and timer_infos: nothing, or it gives up. */
  lemma AddFrame(s: State, t: ThreadId, step: Step)
    requires Runnable(s, t) && AddStep(step) && Advance(s, t, step).Went?
    ensures var g, s' := s.hands[t].f, Advance(s, t, step).s;
            && HasCall(s.fibers[g].pc) && !s.fibers[g].pc.Calling? && s'.hands == s.hands && s'.queue == s.queue
            && g in s'.fibers
            && var c := s.fibers[g].pc.c;
            || (s'.timers == s.timers && s'.ios == s.ios && HasCall(s'.fibers[g].pc) && s'.fibers[g].pc.c == c)
            || (s'.timers == CancelTimer(s, c).timers && s'.ios == s.ios - {c.io} && s'.fibers[g].pc.Work?)
  {
    var g := s.hands[t].f;
    if step.AddCtl? {
      ArmFrame(s, g, step.ctl);
    } else if step.AddWork? {
      StoreFrame(s, g);
    }
  }

  lemma ArmFrame(s: State, g: FiberId, ctl: bool)
    requires g in s.fibers && s.fibers[g].pc.Looked?
    ensures var s', c := Arm(s, g, ctl).s, s.fibers[g].pc.c;
            && Arm(s, g, ctl).Went? && s'.hands == s.hands && s'.queue == s.queue && g in s'.fibers
            && (|| (s'.timers == s.timers && s'.ios == s.ios && s'.fibers[g].pc == Armed(c))
                || (s'.timers == CancelTimer(s, c).timers && s'.ios == s.ios - {c.io} && s'.fibers[g].pc.Work?))
  {
  }

  lemma StoreFrame(s: State, g: FiberId)
    requires g in s.fibers && s.fibers[g].pc.Bound? && Storing(s, g).Went?
    ensures var s' := Storing(s, g).s;
            && s'.hands == s.hands && s'.queue == s.queue && s'.timers == s.timers && s'.ios == s.ios
            && g in s'.fibers && s'.fibers[g].pc == Parking(s.fibers[g].pc.c)
  {
  }

  lemma AddGrows(s: State, t: ThreadId, step: Step, f: FiberId)
    requires Inv(s) && Runnable(s, t) && AddStep(step) && Advance(s, t, step).Went?
    requires f in s.fibers && f != s.hands[t].f && Timed(s.fibers[f].pc)
    ensures Grows(s, Advance(s, t, step).s, s.fibers[f].pc.c)
  {
    AddFrame(s, t, step);
    CancelsOwn(s, Advance(s, t, step).s, s.hands[t].f, f);
  }

  lemma IoFrame(s: State, t: ThreadId, step: Step)
    requires Runnable(s, t) && (step.IoDone? || step.AfterWake?) && Advance(s, t, step).Went?
    ensures var g, s' := s.hands[t].f, Advance(s, t, step).s;
            && HasCall(s.fibers[g].pc) && s'.hands == s.hands && s'.queue == s.queue && g in s'.fibers
            && (s'.timers == CancelTimer(s, s.fibers[g].pc.c).timers || s'.timers == s.timers)
            && (s'.ios == s.ios || s'.ios == s.ios - {s.fibers[g].pc.c.io}) && !Timed(s'.fibers[g].pc)
  {
  }

  lemma IoGrows(s: State, t: ThreadId, step: Step, f: FiberId)
    requires Inv(s) && Runnable(s, t) && (step.IoDone? || step.AfterWake?) && Advance(s, t, step).Went?
    requires f in s.fibers && f != s.hands[t].f && Timed(s.fibers[f].pc)
    ensures Grows(s, Advance(s, t, step).s, s.fibers[f].pc.c)
  {
    IoFrame(s, t, step);
    CancelsOwn(s, Advance(s, t, step).s, s.hands[t].f, f);
  }

  /** The steps that make something: a timer, a timer_info, a task. */
  lemma MakesGrow(s: State, t: ThreadId, step: Step, c: Call)
    requires QueueFresh(s.queue, s.pushed) && Below(s.timers, s.nextTimer) && Below(s.ios, s.nextIo)
    requires Runnable(s, t) && Advance(s, t, step).Went? && c.timer.Some?
    requires step.SelfSchedule? || step.Sleep? || step.Yield? || step.BeginIo? || step.WouldBlock? || step.Finish?
    ensures Grows(s, Advance(s, t, step).s, c)
  {
    if step.BeginIo? || step.WouldBlock? {
      CallsGrow(s, s.hands[t].f, step, c);
    }
  }

  lemma CallsGrow(s: State, f: FiberId, step: Step, c: Call)
    requires Below(s.timers, s.nextTimer) && Below(s.ios, s.nextIo) && f in s.fibers && c.timer.Some?
    requires step.BeginIo? || step.WouldBlock?
    ensures var b := s.fibers[f];
            var o := if step.BeginIo? then Begun(s, f, b, step.fd, step.e) else Blocked(s, f, b, step.timed);
            o.Went? ==> Grows(s, o.s, c)
  {
  }

  lemma AdvanceGrows(s: State, t: ThreadId, step: Step, f: FiberId)
    requires Inv(s) && Runnable(s, t) && Advance(s, t, step).Went?
    requires f in s.fibers && f != s.hands[t].f && Timed(s.fibers[f].pc)
    ensures Grows(s, Advance(s, t, step).s, s.fibers[f].pc.c)
  {
    if AddStep(step) {
      AddGrows(s, t, step, f);
    } else if step.IoDone? || step.AfterWake? {
      IoGrows(s, t, step, f);
    } else {
      MakesGrow(s, t, step, s.fibers[f].pc.c);
    }
  }

  lemma OwnBlock(s: State, f: FiberId, timed: bool)
    requires f in s.fibers && Blocked(s, f, s.fibers[f], timed).Went?
    ensures Provided(Blocked(s, f, s.fibers[f], timed).s, f)
  {
  }

  lemma OwnYield(s: State, t: ThreadId, f: FiberId)
    requires QueueFresh(s.queue, s.pushed) && Below(s.timers, s.nextTimer) && Below(s.ios, s.nextIo)
    requires Runnable(s, t) && Advance(s, t, Yield(t)).Went? && f == s.hands[t].f && Provided(s, f)
    ensures Provided(Advance(s, t, Yield(t)).s, f)
  {
    if Timed(s.fibers[f].pc) {
      MakesGrow(s, t, Yield(t), s.fibers[f].pc.c);
      GrowsRinging(s, Advance(s, t, Yield(t)).s, s.fibers[f].pc.c);
    }
  }

  /** The fiber is not in a call of do_io, or at its beginning. */
  lemma OwnOther(s: State, t: ThreadId, step: Step)
    requires Runnable(s, t) && Advance(s, t, step).Went?
    requires step.SelfSchedule? || step.Sleep? || step.BeginIo? || step.Finish?
    ensures Provided(Advance(s, t, step).s, s.hands[t].f)
  {
  }

  /** The fiber's own steps: it goes on in the same call, or has set its timer just now, or is past waiting. */
  lemma OwnStep(s: State, t: ThreadId, step: Step, f: FiberId)
    requires Inv(s) && Runnable(s, t) && Advance(s, t, step).Went? && f == s.hands[t].f && Provided(s, f)
    ensures Provided(Advance(s, t, step).s, f)
  {
    if AddStep(step) {
      OwnAdd(s, t, step, f);
    } else if step.WouldBlock? {
      OwnBlock(s, f, step.timed);
    } else if step.Yield? {
      OwnYield(s, t, f);
    } else if step.IoDone? || step.AfterWake? {
      IoFrame(s, t, step);
    } else {
      OwnOther(s, t, step);
    }
  }

  lemma OwnAdd(s: State, t: ThreadId, step: Step, f: FiberId)
    requires Runnable(s, t) && AddStep(step) && Advance(s, t, step).Went? && f == s.hands[t].f && Provided(s, f)
    ensures Provided(Advance(s, t, step).s, f)
  {
    AddFrame(s, t, step);
    if s.fibers[f].pc.c.timer.Some? && HasCall(Advance(s, t, step).s.fibers[f].pc) {
      GrowsRinging(s, Advance(s, t, step).s, s.fibers[f].pc.c);
    }
  }

  /** The fiber is as far as it was. */
  ghost predicate SamePc(s: State, s': State, f: FiberId) {
    f in s'.fibers ==> f in s.fibers && s'.fibers[f].pc == s.fibers[f].pc
  }

  lemma TriggerSamePc(s: State, fd: nat, e: Event, f: FiberId)
    ensures SamePc(s, Trigger(s, fd, e), f)
  {
  }

  lemma FireSamePc(s: State, fd: nat, asked: set<Event>, ctl: bool, f: FiberId)
    requires Fire(s, fd, asked, ctl).Went?
    ensures SamePc(s, Fire(s, fd, asked, ctl).s, f)
  {
    var k := Withdraw(s, fd, asked, ctl);
    if k.Some? {
      var s1 := s.(kernel := k.value);
      TriggerSamePc(s1, fd, Io.Read, f);
      TriggerSamePc(if Io.Read in asked then Trigger(s1, fd, Io.Read) else s1, fd, Io.Write, f);
    }
  }

  lemma FireProvided(s: State, fd: nat, asked: set<Event>, ctl: bool, f: FiberId)
    requires QueueFresh(s.queue, s.pushed) && Provided(s, f) && Fire(s, fd, asked, ctl).Went?
    ensures Provided(Fire(s, fd, asked, ctl).s, f)
  {
    FireSamePc(s, fd, asked, ctl, f);
    FirePushes(s, fd, asked, ctl);
    if f in s.fibers && Timed(s.fibers[f].pc) {
      GrowsRinging(s, Fire(s, fd, asked, ctl).s, s.fibers[f].pc.c);
    }
  }

  lemma DeleteProvided(s: State, fd: nat, e: Event, ctl: bool, f: FiberId)
    requires Provided(s, f)
    ensures Provided(DeleteEvent(s, fd, e, ctl), f)
  {
    DeleteFrame(s, fd, e, ctl, f);
    if f in s.fibers && Timed(s.fibers[f].pc) {
      GrowsRinging(s, DeleteEvent(s, fd, e, ctl), s.fibers[f].pc.c);
    }
  }

  lemma RegionProvided(s: State, step: Step, f: FiberId)
    requires QueueFresh(s.queue, s.pushed) && Provided(s, f) && Apply(s, step).Went?
    requires step.Readiness? || step.CancelEvent? || step.CancelAll? || step.DelEvent?
    ensures Provided(Apply(s, step).s, f)
  {
    var (fd, asked, ctl) := RegionOf(s, step).value;
    if step.DelEvent? {
      DeleteProvided(s, fd, step.e, ctl, f);
    } else {
      assert Apply(s, step) == Fire(s, fd, asked, ctl);
      FireProvided(s, fd, asked, ctl, f);
    }
  }

  lemma DeleteFrame(s: State, fd: nat, e: Event, ctl: bool, f: FiberId)
    ensures var s' := DeleteEvent(s, fd, e, ctl);
            SamePc(s, s', f) && s'.timers == s.timers && s'.hands == s.hands && s'.ios == s.ios && s'.queue == s.queue
  {
  }

  lemma CallbackSamePc(s: State, t: ThreadId, ctl: bool, f: FiberId)
    requires Callback(s, t, ctl).Went?
    ensures SamePc(s, Callback(s, t, ctl).s, f)
  {
    var task := s.hands[t].task;
    if task.Timeout? && task.io in s.ios && !s.ios[task.io].cancelled {
      var s1 := s.(hands := s.hands[t := Free], ios := s.ios[task.io := s.ios[task.io].(cancelled := true)]);
      FireSamePc(s1, task.fd, {task.e}, ctl, f);
    }
  }

  /** The steps of the scheduler leave a fiber in its call. */
  lemma SchedulingSamePc(s: State, step: Step, f: FiberId)
    requires Apply(s, step).Went? && f in Apply(s, step).s.fibers && Timed(Apply(s, step).s.fibers[f].pc)
    requires step.StartThread? || step.Spawn? || step.Take? || step.Resume? || step.Expire?
    ensures SamePc(s, Apply(s, step).s, f)
  {
    if step.Take? {
      TakeSamePc(s, step.t, step.n, f);
    } else if step.Expire? {
      ExpireSamePc(s, step.tm, f);
    }
  }

  lemma TakeSamePc(s: State, t: ThreadId, n: nat, f: FiberId)
    requires TakeTask(s, t, n).Went?
    ensures SamePc(s, TakeTask(s, t, n).s, f)
  {
  }

  lemma ExpireSamePc(s: State, tm: nat, f: FiberId)
    requires ExpireTimer(s, tm).Went?
    ensures SamePc(s, ExpireTimer(s, tm).s, f)
  {
  }

  /** Starting a thread, making a fiber, and resuming one. */
  lemma QuietRinging(s: State, step: Step, c: Call)
    requires QueueFresh(s.queue, s.pushed) && Apply(s, step).Went? && c.timer.Some?
    requires step.StartThread? || step.Spawn? || step.Resume?
    ensures GoesOnRinging(s, Apply(s, step).s, c)
  {
    GrowsRinging(s, Apply(s, step).s, c);
  }

  lemma CallbackProvided(s: State, t: ThreadId, ctl: bool, f: FiberId)
    requires Inv(s) && Provided(s, f) && Callback(s, t, ctl).Went?
    ensures Provided(Callback(s, t, ctl).s, f)
  {
    CallbackSamePc(s, t, ctl, f);
    if f in s.fibers && Timed(s.fibers[f].pc) {
      CallbackRinging(s, t, ctl, s.fibers[f].pc.c);
    }
  }

  lemma SchedulingProvided(s: State, step: Step, f: FiberId)
    requires QueueFresh(s.queue, s.pushed) && Provided(s, f) && Apply(s, step).Went?
    requires step.StartThread? || step.Spawn? || step.Take? || step.Resume? || step.Expire?
    ensures Provided(Apply(s, step).s, f)
  {
    var s' := Apply(s, step).s;
    if f in s'.fibers && Timed(s'.fibers[f].pc) {
      SchedulingSamePc(s, step, f);
      var c := s.fibers[f].pc.c;
      match step
      case Take(t, n) => TakeRinging(s, t, n, c);
      case Expire(tm) => ExpireRinging(s, tm, c);
      case _ => QuietRinging(s, step, c);
    }
  }

  lemma AdvanceProvided(s: State, t: ThreadId, step: Step, f: FiberId)
    requires Inv(s) && Provided(s, f) && Runnable(s, t) && Advance(s, t, step).Went?
    ensures Provided(Advance(s, t, step).s, f)
  {
    var g := s.hands[t].f;
    if f == g {
      OwnStep(s, t, step, f);
    } else {
      AdvanceSamePc(s, t, step, f);
      if f in s.fibers && Timed(s.fibers[f].pc) {
        AdvanceGrows(s, t, step, f);
        GrowsRinging(s, Advance(s, t, step).s, s.fibers[f].pc.c);
      }
    }
  }

  lemma AdvanceSamePc(s: State, t: ThreadId, step: Step, f: FiberId)
    requires Runnable(s, t) && Advance(s, t, step).Went? && f != s.hands[t].f
    ensures SamePc(s, Advance(s, t, step).s, f)
  {
    if !step.AddWork? {
      AdvanceOnly(s, t, step);
    }
  }

  lemma StepProvided(s: State, step: Step, f: FiberId)
    requires Inv(s) && Provided(s, f) && Apply(s, step).Went?
    ensures Provided(Apply(s, step).s, f)
  {
    if step.Readiness? || step.CancelEvent? || step.CancelAll? || step.DelEvent? {
      RegionProvided(s, step, f);
    } else if step.RunCallback? {
      CallbackProvided(s, step.t, step.ctl, f);
    } else if step.StartThread? || step.Spawn? || step.Take? || step.Resume? || step.Expire? {
      SchedulingProvided(s, step, f);
    } else {
      AdvanceProvided(s, step.t, step, f);
    }
  }

  lemma {:induction false} RunProvided(s: State, steps: seq<Step>, f: FiberId)
    requires Inv(s) && Provided(s, f) && Run(s, steps).Went?
    ensures Provided(Run(s, steps).s, f)
    decreases |steps|
  {
    if steps != [] {
      ApplyKeeps(s, steps[0]);
      StepProvided(s, steps[0], f);
      RunProvided(Apply(s, steps[0]).s, steps[1..], f);
    }
  }

  /** Over every run: a fiber that waits with a timeout has its timer set, or its callback queued or in hand, unless a
      timeout of the same do_io has come already, and is noted in its timer_info. */
  lemma TimeoutToCome(steps: seq<Step>, f: FiberId)
    requires Run(INIT, steps).Went? && f in Run(INIT, steps).s.fibers && Timed(Run(INIT, steps).s.fibers[f].pc)
    ensures var s := Run(INIT, steps).s;
            var c := s.fibers[f].pc.c;
            Rings(s, c.timer.value, c.io, c.fd, c.e) || Cancelled(s, c.io)
  {
    InitInv();
    RunProvided(INIT, steps, f);
  }

  /** When a timeout comes and leaves its fiber waiting: the callback of fiber f's timer moves the fiber to the task
      queue exactly when no timeout of the same do_io has come before, the event is registered, epoll_ctl succeeds, and
      the fiber is in the context. */
  lemma TimeoutWakesExactly(s: State, t: ThreadId, ctl: bool, f: FiberId)
    requires Inv(s) && f in s.fibers && Timed(s.fibers[f].pc) && Callback(s, t, ctl).Went?
    requires var c := s.fibers[f].pc.c; s.hands[t] == Holds(Timeout(c.timer.value, c.io, c.fd, c.e))
    ensures var c, s' := s.fibers[f].pc.c, Callback(s, t, ctl).s;
            && Cancelled(s', c.io) && f in s'.fibers
            && (s'.fibers[f].place.InQueue? && !s.fibers[f].place.InQueue? <==>
                !s.ios[c.io].cancelled && ctl && c.fd in s.kernel && (c.fd, c.e) in s.bits
                && s.fibers[f].place == AtEvent(c.fd, c.e))
            && (!(s'.fibers[f].place.InQueue? && !s.fibers[f].place.InQueue?) ==> s'.fibers[f] == s.fibers[f])
  {
    var c := s.fibers[f].pc.c;
    PlacedWaiters(s);
    if !s.ios[c.io].cancelled {
      var s1 := s.(hands := s.hands[t := Free], ios := s.ios[c.io := s.ios[c.io].(cancelled := true)]);
      RegisteredIff(s.bits, c.fd, c.e);
      assert s.fibers[f].place == AtEvent(c.fd, c.e) ==> At(s, AtEvent(c.fd, c.e)) == Some(f);
      FireOne(s1, c.fd, c.e, ctl, f);
    }
  }

  lemma FireOne(s: State, fd: nat, e: Event, ctl: bool, f: FiberId)
    requires WaitersPlaced(s) && f in s.fibers && Fire(s, fd, {e}, ctl).Went?
    ensures var s' := Fire(s, fd, {e}, ctl).s;
            && f in s'.fibers && s'.ios == s.ios
            && s'.fibers[f] == if ctl && fd in s.kernel && (fd, e) in s.bits && (fd, e) in s.stored
                                  && s.stored[(fd, e)].f == f
                               then s.fibers[f].(place := InQueue(|s.pushed|)) else s.fibers[f]
  {
    RegisteredIff(s.bits, fd, e);
    var here := Registered(s.bits, fd);
    assert here * {e} != {} <==> e in here;
    match e
    case Read =>
    case Write =>
  }
}
