/** What becomes of a fiber that waits: whose wait was deleted or replaced, whose context has no scheduler, and whose
    event the kernel does not watch because a region under the lock of the descriptor fell into its addEvent. */
module RuntimeWaits {
  import opened Options
  import opened Runtime
  import Io = IoEvents
  import IoInterest

  // ---- steps and fibers

  /** s' has another fiber f. */
  ghost predicate Only(s: State, s': State, f: FiberId) {
    f in s'.fibers && s'.fibers == s.fibers[f := s'.fibers[f]]
  }

  lemma AddOnly(s: State, t: ThreadId, step: Step)
    requires Runnable(s, t) && AddStep(step) && !step.AddWork? && Advance(s, t, step).Went?
    ensures Only(s, Advance(s, t, step).s, s.hands[t].f)
  {
    var f := s.hands[t].f;
    if step.AddCtl? {
      ArmOnly(s, f, step.ctl);
    }
  }

  lemma ArmOnly(s: State, f: FiberId, ctl: bool)
    requires f in s.fibers && s.fibers[f].pc.Looked?
    ensures Only(s, Arm(s, f, ctl).s, f)
  {
  }

  lemma IoOnly(s: State, t: ThreadId, step: Step)
    requires Runnable(s, t) && (step.BeginIo? || step.IoDone? || step.WouldBlock?) && Advance(s, t, step).Went?
    ensures Only(s, Advance(s, t, step).s, s.hands[t].f)
  {
  }

  lemma WokenOnly(s: State, f: FiberId)
    requires f in s.fibers && Woken(s, f, s.fibers[f]).Went?
    ensures Only(s, Woken(s, f, s.fibers[f]).s, f)
  {
  }

  lemma OtherOnly(s: State, t: ThreadId, step: Step)
    requires Runnable(s, t) && (step.Yield? || step.SelfSchedule? || step.Sleep? || step.Finish?)
    requires Advance(s, t, step).Went?
    ensures Only(s, Advance(s, t, step).s, s.hands[t].f)
  {
  }

  /** A step of a running fiber changes no other, but for the last part of addEvent. */
  lemma AdvanceOnly(s: State, t: ThreadId, step: Step)
    requires Runnable(s, t) && !step.AddWork? && Advance(s, t, step).Went?
    ensures Only(s, Advance(s, t, step).s, s.hands[t].f)
  {
    if AddStep(step) {
      AddOnly(s, t, step);
    } else if step.BeginIo? || step.IoDone? || step.WouldBlock? {
      IoOnly(s, t, step);
    } else if step.AfterWake? {
      WokenOnly(s, s.hands[t].f);
    } else {
      OtherOnly(s, t, step);
    }
  }

  // ---- what the steps do to contexts and interest set

  /** The fiber is in addEvent, past its assertion. */
  predicate Adds(fibers: map<FiberId, Fiber>, g: FiberId) {
    g in fibers && (fibers[g].pc.Looked? || fibers[g].pc.Armed? || fibers[g].pc.Marked? || fibers[g].pc.Bound?)
  }

  ghost predicate AddsSame(fibers: map<FiberId, Fiber>, fibers': map<FiberId, Fiber>) {
    forall g :: (Adds(fibers, g) <==> Adds(fibers', g)) && (Adds(fibers, g) ==> fibers'[g].pc == fibers[g].pc)
  }

  /** Event k is one of those of fd. */
  predicate Hit(k: (nat, Event), fd: nat, asked: set<Event>) {
    k.0 == fd && k.1 in asked
  }

  /** The events `asked` of fd are cleared and their contexts reset. */
  ghost predicate Cleared(s: State, s': State, fd: nat, asked: set<Event>) {
    && (forall k :: k in s'.bits <==> k in s.bits && !Hit(k, fd, asked))
    && (forall k :: k in s'.schedulers <==> k in s.schedulers && !Hit(k, fd, asked))
    && (forall k :: k in s'.stored <==> k in s.stored && !Hit(k, fd, asked))
    && (forall k :: k in s'.stored ==> s'.stored[k] == s.stored[k])
    && WaitsKept(s.waits, s'.waits)
  }

  /** The waits are the same ones, and none has been replaced. */
  ghost predicate WaitsKept(waits: seq<Wait>, waits': seq<Wait>) {
    |waits'| == |waits| && forall w :: 0 <= w < |waits| ==> Kept(waits[w], waits'[w])
  }

  predicate Kept(x: Wait, y: Wait) {
    y.heard == x.heard && y.fd == x.fd && y.e == x.e && (y.fate.Replaced? ==> x.fate.Replaced?)
  }

  ghost predicate ContextsSame(s: State, s': State) {
    s'.bits == s.bits && s'.schedulers == s.schedulers && s'.stored == s.stored && s'.waits == s.waits
  }

  /** What a region does: its events go out of the descriptor and out of the interest set, or nothing changes. */
  ghost predicate Took(s: State, s': State, fd: nat, asked: set<Event>, ctl: bool) {
    AddsSame(s.fibers, s'.fibers) &&
    match Withdraw(s, fd, asked, ctl)
    case None => s'.kernel == s.kernel && ContextsSame(s, s')
    case Some(k) => s'.kernel == k && Cleared(s, s', fd, asked)
  }

  lemma SettledKept(waits: seq<Wait>, w: nat, fate: Fate)
    requires !fate.Replaced?
    ensures WaitsKept(waits, Settled(waits, w, fate))
  {
  }

  lemma ReleaseFibers(s: State, fd: nat, e: Event)
    requires WaitersPlaced(s)
    ensures AddsSame(s.fibers, Release(s, fd, e).fibers) && WaitersPlaced(Release(s, fd, e))
  {
  }

  lemma ReleaseTakes(s: State, fd: nat, e: Event)
    requires WaitersPlaced(s)
    ensures var s' := Release(s, fd, e);
            && AddsSame(s.fibers, s'.fibers) && s'.kernel == s.kernel && s'.bits == s.bits
            && s'.schedulers == s.schedulers && s'.stored == s.stored - {(fd, e)} && WaitsKept(s.waits, s'.waits)
            && WaitersPlaced(s')
  {
    ReleaseFibers(s, fd, e);
    if (fd, e) in s.stored {
      SettledKept(s.waits, s.stored[(fd, e)].w, Woke(|s.pushed|));
    }
  }

  lemma TriggerTakes(s: State, fd: nat, e: Event)
    requires WaitersPlaced(s)
    ensures var s' := Trigger(s, fd, e);
            AddsSame(s.fibers, s'.fibers) && s'.kernel == s.kernel && Cleared(s, s', fd, {e}) && WaitersPlaced(s')
  {
    ReleaseTakes(s, fd, e);
    ClearedOne(s, Release(s, fd, e), Trigger(s, fd, e), fd, e);
  }

  lemma ClearedOne(s: State, s1: State, s2: State, fd: nat, e: Event)
    requires s1.bits == s.bits && s1.schedulers == s.schedulers && s1.stored == s.stored - {(fd, e)}
    requires WaitsKept(s.waits, s1.waits)
    requires s2 == Clear(s1, fd, e)
    ensures Cleared(s, s2, fd, {e})
  {
    forall k: (nat, Event) ensures Hit(k, fd, {e}) <==> k == (fd, e) {
    }
  }

  lemma ClearedTwice(s: State, s1: State, s2: State, fd: nat, a: set<Event>, b: set<Event>)
    requires Cleared(s, s1, fd, a) && Cleared(s1, s2, fd, b)
    ensures Cleared(s, s2, fd, a + b)
  {
    forall k: (nat, Event) ensures Hit(k, fd, a + b) <==> Hit(k, fd, a) || Hit(k, fd, b) {
    }
  }

  lemma ClearedNone(s: State, fd: nat)
    ensures Cleared(s, s, fd, {})
  {
  }

  lemma TriggerIfTakes(s: State, fd: nat, e: Event, asked: set<Event>)
    requires WaitersPlaced(s)
    ensures var s' := if e in asked then Trigger(s, fd, e) else s;
            && AddsSame(s.fibers, s'.fibers) && s'.kernel == s.kernel && WaitersPlaced(s')
            && Cleared(s, s', fd, if e in asked then {e} else {})
  {
    TriggerTakes(s, fd, e);
    ClearedNone(s, fd);
  }

  lemma BothEvents(asked: set<Event>)
    ensures asked == (if Io.Read in asked then {Io.Read} else {}) + (if Io.Write in asked then {Io.Write} else {})
  {
    assert forall e: Event :: e in asked ==> e == Io.Read || e == Io.Write;
  }

  lemma TriggerAllTakes(s: State, fd: nat, asked: set<Event>)
    requires WaitersPlaced(s)
    ensures var s' := TriggerAll(s, fd, asked);
            AddsSame(s.fibers, s'.fibers) && s'.kernel == s.kernel && Cleared(s, s', fd, asked)
  {
    var s1 := if Io.Read in asked then Trigger(s, fd, Io.Read) else s;
    TriggerIfTakes(s, fd, Io.Read, asked);
    TriggerIfTakes(s1, fd, Io.Write, asked);
    AddsTwice(s.fibers, s1.fibers, TriggerAll(s, fd, asked).fibers);
    BothEvents(asked);
    ClearedTwice(s, s1, TriggerAll(s, fd, asked), fd, if Io.Read in asked then {Io.Read} else {},
                 if Io.Write in asked then {Io.Write} else {});
  }

  lemma AddsTwice(a: map<FiberId, Fiber>, b: map<FiberId, Fiber>, c: map<FiberId, Fiber>)
    requires AddsSame(a, b) && AddsSame(b, c)
    ensures AddsSame(a, c)
  {
  }

  lemma FireTook(s: State, fd: nat, asked: set<Event>, ctl: bool)
    requires WaitersPlaced(s) && Fire(s, fd, asked, ctl).Went?
    ensures Took(s, Fire(s, fd, asked, ctl).s, fd, asked, ctl)
  {
    if Withdraw(s, fd, asked, ctl).Some? {
      TriggerAllTakes(s.(kernel := Withdraw(s, fd, asked, ctl).value), fd, asked);
    }
  }

  lemma EvictTakes(s: State, fd: nat, e: Event, fate: Fate)
    requires WaitersPlaced(s)
    ensures var s' := Evict(s, fd, e, fate);
            && AddsSame(s.fibers, s'.fibers) && s'.kernel == s.kernel && s'.bits == s.bits
            && s'.schedulers == s.schedulers && s'.stored == s.stored - {(fd, e)} && |s'.waits| == |s.waits|
            && (forall w :: 0 <= w < |s.waits| ==> s'.waits[w].heard == s.waits[w].heard)
            && (!fate.Replaced? ==> WaitsKept(s.waits, s'.waits))
  {
  }

  lemma DeleteTook(s: State, fd: nat, e: Event, ctl: bool)
    requires WaitersPlaced(s)
    ensures Took(s, DeleteEvent(s, fd, e, ctl), fd, {e}, ctl)
  {
    if Withdraw(s, fd, {e}, ctl).Some? {
      var s1 := s.(kernel := Withdraw(s, fd, {e}, ctl).value);
      EvictTakes(s1, fd, e, Dropped);
      ClearedOne(s1, Evict(s1, fd, e, Dropped), DeleteEvent(s, fd, e, ctl), fd, e);
    }
  }

  lemma RegisteredIff(bits: set<(nat, Event)>, fd: nat, e: Event)
    ensures e in Registered(bits, fd) <==> (fd, e) in bits
  {
  }

  /** The events `asked` of fd are no longer registered. */
  lemma RegisteredAfter(bits: set<(nat, Event)>, bits': set<(nat, Event)>, fd: nat, asked: set<Event>, g: nat)
    requires forall k :: k in bits' <==> k in bits && !Hit(k, fd, asked)
    ensures Registered(bits', g) == if g == fd then Registered(bits, g) - asked else Registered(bits, g)
  {
    forall e: Event ensures e in Registered(bits', g) <==> e in Registered(bits, g) && !(g == fd && e in asked) {
      RegisteredIff(bits, g, e);
      RegisteredIff(bits', g, e);
      assert Hit((g, e), fd, asked) <==> g == fd && e in asked;
    }
  }

  lemma TimeoutTook(s: State, t: ThreadId, ctl: bool)
    requires WaitersPlaced(s) && RegionOf(s, RunCallback(t, ctl)).Some? && Callback(s, t, ctl).Went?
    ensures Took(s, Callback(s, t, ctl).s, s.hands[t].task.fd, {s.hands[t].task.e}, ctl)
  {
    var task := s.hands[t].task;
    var s1 := s.(hands := s.hands[t := Free], ios := s.ios[task.io := s.ios[task.io].(cancelled := true)]);
    FireTook(s1, task.fd, {task.e}, ctl);
  }

  lemma RegionTook(s: State, step: Step)
    requires WaitersPlaced(s) && RegionOf(s, step).Some? && Apply(s, step).Went?
    ensures var (fd, asked, ctl) := RegionOf(s, step).value; Took(s, Apply(s, step).s, fd, asked, ctl)
  {
    var (fd, asked, ctl) := RegionOf(s, step).value;
    if step.RunCallback? {
      TimeoutTook(s, step.t, ctl);
    } else if step.DelEvent? {
      DeleteTook(s, fd, step.e, ctl);
    } else {
      FireTook(s, fd, asked, ctl);
    }
  }

  /** Nothing changes for contexts and interest set. */
  ghost predicate Aside(s: State, s': State) {
    AddsSame(s.fibers, s'.fibers) && s'.kernel == s.kernel && ContextsSame(s, s')
  }

  lemma OneAside(s: State, s': State, f: FiberId)
    requires f in s'.fibers && s'.fibers == s.fibers[f := s'.fibers[f]] && !Adds(s.fibers, f) && !Adds(s'.fibers, f)
    requires s'.kernel == s.kernel && ContextsSame(s, s')
    ensures Aside(s, s')
  {
  }

  lemma AdvanceAside(s: State, t: ThreadId, step: Step)
    requires Runnable(s, t) && (step.Yield? || step.SelfSchedule? || step.Sleep? || step.Finish?)
    requires Advance(s, t, step).Went? && Only(s, Advance(s, t, step).s, s.hands[t].f)
    ensures Aside(s, Advance(s, t, step).s)
  {
    OneAside(s, Advance(s, t, step).s, s.hands[t].f);
  }

  lemma IoAside(s: State, t: ThreadId, step: Step)
    requires Runnable(s, t) && (step.BeginIo? || step.IoDone? || step.WouldBlock?)
    requires Advance(s, t, step).Went? && Only(s, Advance(s, t, step).s, s.hands[t].f)
    ensures Aside(s, Advance(s, t, step).s)
  {
    OneAside(s, Advance(s, t, step).s, s.hands[t].f);
  }

  lemma WokenContexts(s: State, f: FiberId)
    requires f in s.fibers && Woken(s, f, s.fibers[f]).Went?
    ensures var s' := Woken(s, f, s.fibers[f]).s;
            ContextsSame(s, s') && s'.kernel == s.kernel && f in s'.fibers && !Adds(s'.fibers, f) && !Adds(s.fibers, f)
  {
  }

  lemma WokenAside(s: State, f: FiberId)
    requires f in s.fibers && Woken(s, f, s.fibers[f]).Went? && Only(s, Woken(s, f, s.fibers[f]).s, f)
    ensures Aside(s, Woken(s, f, s.fibers[f]).s)
  {
    WokenContexts(s, f);
    OneAside(s, Woken(s, f, s.fibers[f]).s, f);
  }

  /** Fiber f goes to another place, or none does. */
  lemma PlaceAside(s: State, s': State, f: FiberId)
    requires s'.fibers == s.fibers || (f in s.fibers && f in s'.fibers && s'.fibers[f].pc == s.fibers[f].pc
                                       && s'.fibers == s.fibers[f := s'.fibers[f]])
    requires s'.kernel == s.kernel && ContextsSame(s, s')
    ensures Aside(s, s')
  {
  }

  lemma TakeAside(s: State, t: ThreadId, n: nat)
    requires TakeTask(s, t, n).Went?
    ensures Aside(s, TakeTask(s, t, n).s)
  {
    PlaceAside(s, TakeTask(s, t, n).s, if s.queue[n].Timeout? then 0 else s.queue[n].f);
  }

  lemma ExpireAside(s: State, tm: nat)
    requires ExpireTimer(s, tm).Went?
    ensures Aside(s, ExpireTimer(s, tm).s)
  {
    PlaceAside(s, ExpireTimer(s, tm).s, if s.timers[tm].IoAlarm? then 0 else s.timers[tm].f);
  }

  lemma SpawnAside(s: State, f: FiberId)
    requires f !in s.fibers
    ensures Aside(s, Apply(s, Spawn(f)).s)
  {
  }

  lemma ResumeAside(s: State, t: ThreadId)
    requires FibersSound(s.fibers, s.hands) && ResumeTask(s, t).Went?
    ensures Aside(s, ResumeTask(s, t).s)
  {
    var f := s.hands[t].task.f;
    assert Sound(s.fibers[f], f, s.hands);
    OneAside(s, ResumeTask(s, t).s, f);
  }

  lemma CallbackAside(s: State, t: ThreadId, ctl: bool)
    requires Callback(s, t, ctl).Went? && RegionOf(s, RunCallback(t, ctl)).None?
    ensures Aside(s, Callback(s, t, ctl).s)
  {
  }

  /** A step that is no region and no part of addEvent leaves all that aside. */
  lemma OthersAside(s: State, step: Step)
    requires FibersSound(s.fibers, s.hands) && RegionOf(s, step).None? && !AddStep(step) && Apply(s, step).Went?
    ensures Aside(s, Apply(s, step).s)
  {
    if step.Spawn? {
      SpawnAside(s, step.f);
    } else if step.Take? {
      TakeAside(s, step.t, step.n);
    } else if step.Resume? {
      ResumeAside(s, step.t);
    } else if step.RunCallback? {
      CallbackAside(s, step.t, step.ctl);
    } else if step.Expire? {
      ExpireAside(s, step.tm);
    } else if !step.StartThread? {
      AdvanceOnly(s, step.t, step);
      if step.BeginIo? || step.IoDone? || step.WouldBlock? {
        IoAside(s, step.t, step);
      } else if step.AfterWake? {
        WokenAside(s, s.hands[step.t].f);
      } else {
        AdvanceAside(s, step.t, step);
      }
    }
  }

  // ---- a fiber that nothing resumes

  ghost predicate LookedBusy(fibers: map<FiberId, Fiber>, fd: nat) {
    forall g :: Adds(fibers, g) && fibers[g].pc.Looked? && fibers[g].pc.c.fd == fd ==> fibers[g].pc.seen != {}
  }

  /** Something is registered for fd, the kernel does not know the descriptor, and no addEvent that saw the descriptor
      without events is under way. */
  ghost predicate Unknown(s: State, fd: nat) {
    Registered(s.bits, fd) != {} && fd !in s.kernel && LookedBusy(s.fibers, fd)
  }

  /** Fiber f has yielded; and its wait was deleted or replaced, or it is in a context without a scheduler, or the
      kernel does not know the descriptor it waits for. */
  ghost predicate Forsaken(s: State, f: FiberId) {
    && f in s.fibers && s.fibers[f].state.Ready?
    && (s.fibers[f].place.Lost? ||
        (s.fibers[f].place.AtEvent? && var p := s.fibers[f].place; (p.fd, p.e) !in s.schedulers || Unknown(s, p.fd)))
  }

  /** The fiber has not moved, but that it may have been put out of a context. */
  ghost predicate Rests(s: State, s': State, f: FiberId) {
    && f in s.fibers && f in s'.fibers && s'.fibers[f].state == s.fibers[f].state && s'.fibers[f].pc == s.fibers[f].pc
    && (s'.fibers[f].place == s.fibers[f].place || (s.fibers[f].place.AtEvent? && s'.fibers[f].place.Lost?))
  }

  lemma TriggerRests(s: State, fd: nat, e: Event, f: FiberId)
    requires f in s.fibers && ((fd, e) in s.stored ==> s.stored[(fd, e)].f != f)
    ensures var s' := Trigger(s, fd, e); f in s'.fibers && s'.fibers[f] == s.fibers[f]
  {
  }

  /** A region triggers no fiber whose context has no scheduler, and none on a descriptor that the kernel does not
      know. */
  lemma FireRests(s: State, fd: nat, asked: set<Event>, ctl: bool, f: FiberId)
    requires WaitersPlaced(s) && f in s.fibers && Fire(s, fd, asked, ctl).Went?
    requires s.fibers[f].place.AtEvent? ==>
               var p := s.fibers[f].place; (p.fd, p.e) !in s.schedulers || p.fd !in s.kernel
    ensures Rests(s, Fire(s, fd, asked, ctl).s, f)
  {
    var k := Withdraw(s, fd, asked, ctl);
    if k.Some? {
      var s1 := s.(kernel := k.value);
      forall e | e in asked && (fd, e) in s.stored ensures s.stored[(fd, e)].f != f {
        assert e == Io.Read || e == Io.Write;
      }
      if Io.Read in asked { TriggerRests(s1, fd, Io.Read, f); }
      if Io.Write in asked {
        TriggerTakes(s1, fd, Io.Read);
        TriggerRests(if Io.Read in asked then Trigger(s1, fd, Io.Read) else s1, fd, Io.Write, f);
      }
    }
  }

  lemma EvictRests(s: State, fd: nat, e: Event, fate: Fate, f: FiberId)
    requires WaitersPlaced(s) && f in s.fibers
    ensures Rests(s, Evict(s, fd, e, fate), f)
  {
  }

  lemma CallbackRests(s: State, t: ThreadId, ctl: bool, f: FiberId)
    requires Placed(s) && WaitersPlaced(s) && Forsaken(s, f) && Callback(s, t, ctl).Went?
    ensures Rests(s, Callback(s, t, ctl).s, f)
  {
    var task := s.hands[t].task;
    if task.WakeUp? {
      assert At(s, InHand(t)) == Some(task.f);
    } else if task.io in s.ios && !s.ios[task.io].cancelled {
      var s1 := s.(hands := s.hands[t := Free], ios := s.ios[task.io := s.ios[task.io].(cancelled := true)]);
      FireRests(s1, task.fd, {task.e}, ctl, f);
    }
  }

  lemma RegionRests(s: State, step: Step, f: FiberId)
    requires WaitersPlaced(s) && Forsaken(s, f) && Apply(s, step).Went?
    requires step.Readiness? || step.CancelEvent? || step.CancelAll?
    ensures Rests(s, Apply(s, step).s, f)
  {
    var (fd, asked, ctl) := RegionOf(s, step).value;
    assert Apply(s, step) == Fire(s, fd, asked, ctl);
    FireRests(s, fd, asked, ctl, f);
  }

  lemma SchedulingRests(s: State, step: Step, f: FiberId)
    requires Placed(s) && Forsaken(s, f) && Apply(s, step).Went?
    requires step.StartThread? || step.Spawn? || step.Take? || step.Resume? || step.Expire?
    ensures Rests(s, Apply(s, step).s, f)
  {
    if step.Take? && !s.queue[step.n].Timeout? {
      assert At(s, InQueue(step.n)) == Some(s.queue[step.n].f);
    } else if step.Resume? {
      assert At(s, InHand(step.t)) == Some(s.hands[step.t].task.f);
    } else if step.Expire? && s.timers[step.tm].SleepAlarm? {
      assert At(s, AtTimer(step.tm)) == Some(s.timers[step.tm].f);
    }
  }

  lemma StoringRests(s: State, g: FiberId, f: FiberId)
    requires WaitersPlaced(s) && f in s.fibers && g in s.fibers && g != f
    requires s.fibers[g].pc.Bound? && Storing(s, g).Went?
    ensures Rests(s, Storing(s, g).s, f)
  {
    EvictRests(s, s.fibers[g].pc.c.fd, s.fibers[g].pc.c.e, Replaced, f);
  }

  lemma AdvanceRests(s: State, t: ThreadId, step: Step, f: FiberId)
    requires Inv(s) && Forsaken(s, f) && Runnable(s, t) && Advance(s, t, step).Went?
    ensures Rests(s, Advance(s, t, step).s, f)
  {
    RunsIt(s, t);
    PlacedWaiters(s);
    if step.AddWork? {
      StoringRests(s, s.hands[t].f, f);
    } else {
      AdvanceOnly(s, t, step);
    }
  }

  /** No step resumes a forsaken fiber. */
  lemma StepRests(s: State, step: Step, f: FiberId)
    requires Inv(s) && Forsaken(s, f) && Apply(s, step).Went?
    ensures Rests(s, Apply(s, step).s, f)
  {
    PlacedWaiters(s);
    if step.Readiness? || step.CancelEvent? || step.CancelAll? {
      RegionRests(s, step, f);
    } else if step.DelEvent? {
      DeleteRests(s, step.fd, step.e, step.ctl, f);
    } else if step.RunCallback? {
      CallbackRests(s, step.t, step.ctl, f);
    } else if step.StartThread? || step.Spawn? || step.Take? || step.Resume? || step.Expire? {
      SchedulingRests(s, step, f);
    } else {
      AdvanceRests(s, step.t, step, f);
    }
  }

  lemma DeleteRests(s: State, fd: nat, e: Event, ctl: bool, f: FiberId)
    requires WaitersPlaced(s) && f in s.fibers
    ensures Rests(s, DeleteEvent(s, fd, e, ctl), f)
  {
    if Withdraw(s, fd, {e}, ctl).Some? {
      EvictRests(s.(kernel := Withdraw(s, fd, {e}, ctl).value), fd, e, Dropped, f);
    }
  }

  // What a part of addEvent does to the kernel and to the schedulers.

  lemma AddUnknown(s: State, t: ThreadId, step: Step, fd: nat)
    requires Unknown(s, fd) && Runnable(s, t) && AddStep(step) && Advance(s, t, step).Went? && WaitersPlaced(s)
    ensures Unknown(Advance(s, t, step).s, fd)
  {
    var f, s' := s.hands[t].f, Advance(s, t, step).s;
    if step.AddWork? {
      EvictTakes(s, s.fibers[f].pc.c.fd, s.fibers[f].pc.c.e, Replaced);
      WorkBusy(s, f, fd);
    } else if step.AddCtl? {
      ArmUnknown(s, f, step.ctl, fd);
    } else {
      AddOnly(s, t, step);
      BitsGrow(s.bits, s'.bits, fd);
    }
  }

  lemma ArmUnknown(s: State, f: FiberId, ctl: bool, fd: nat)
    requires Unknown(s, fd) && f in s.fibers && s.fibers[f].pc.Looked?
    ensures Unknown(Arm(s, f, ctl).s, fd)
  {
    assert Adds(s.fibers, f);
    ArmOnly(s, f, ctl);
  }

  lemma BitsGrow(bits: set<(nat, Event)>, bits': set<(nat, Event)>, fd: nat)
    requires bits <= bits' && Registered(bits, fd) != {}
    ensures Registered(bits', fd) != {}
  {
  }

  lemma WorkBusy(s: State, f: FiberId, fd: nat)
    requires WaitersPlaced(s) && f in s.fibers && s.fibers[f].pc.Bound? && Storing(s, f).Went?
    requires LookedBusy(s.fibers, fd)
    ensures LookedBusy(Storing(s, f).s.fibers, fd)
  {
    var c := s.fibers[f].pc.c;
    EvictTakes(s, c.fd, c.e, Replaced);
    BusySame(s.fibers, Evict(s, c.fd, c.e, Replaced).fibers, fd);
  }

  lemma BusySame(fibers: map<FiberId, Fiber>, fibers': map<FiberId, Fiber>, fd: nat)
    requires AddsSame(fibers, fibers') && LookedBusy(fibers, fd)
    ensures LookedBusy(fibers', fd)
  {
  }

  lemma TookUnknown(s: State, s': State, g: nat, asked: set<Event>, ctl: bool, fd: nat)
    requires Took(s, s', g, asked, ctl) && Unknown(s, fd)
    ensures Unknown(s', fd)
  {
    BusySame(s.fibers, s'.fibers, fd);
    if Withdraw(s, g, asked, ctl).Some? {
      RegisteredAfter(s.bits, s'.bits, g, asked, fd);
    }
  }

  /** A descriptor with events that the kernel does not know stays unknown. */
  lemma UnknownStays(s: State, step: Step, fd: nat)
    requires WaitersPlaced(s) && FibersSound(s.fibers, s.hands) && Apply(s, step).Went? && Unknown(s, fd)
    ensures Unknown(Apply(s, step).s, fd)
  {
    if AddStep(step) {
      AddUnknown(s, step.t, step, fd);
    } else if RegionOf(s, step).Some? {
      var (g, asked, ctl) := RegionOf(s, step).value;
      RegionTook(s, step);
      TookUnknown(s, Apply(s, step).s, g, asked, ctl, fd);
    } else {
      OthersAside(s, step);
      BusySame(s.fibers, Apply(s, step).s.fibers, fd);
    }
  }

  /** A context with a fiber and without a scheduler does not get one. */
  lemma NoSchedulerStays(s: State, step: Step, k: (nat, Event))
    requires WaitersPlaced(s) && FibersSound(s.fibers, s.hands) && Apply(s, step).Went?
    requires k in s.stored && k !in s.schedulers
    ensures k !in Apply(s, step).s.schedulers
  {
    if AddStep(step) {
      AddNoScheduler(s, step.t, step, k);
    } else if RegionOf(s, step).Some? {
      RegionTook(s, step);
    } else {
      OthersAside(s, step);
    }
  }

  lemma AddNoScheduler(s: State, t: ThreadId, step: Step, k: (nat, Event))
    requires Runnable(s, t) && AddStep(step) && Advance(s, t, step).Went? && WaitersPlaced(s)
    requires k in s.stored && k !in s.schedulers
    ensures k !in Advance(s, t, step).s.schedulers
  {
    if step.AddWork? {
      EvictTakes(s, s.fibers[s.hands[t].f].pc.c.fd, s.fibers[s.hands[t].f].pc.c.e, Replaced);
    }
  }

  lemma ForsakenStep(s: State, step: Step, f: FiberId)
    requires Inv(s) && Forsaken(s, f) && Apply(s, step).Went?
    ensures Forsaken(Apply(s, step).s, f) && Rests(s, Apply(s, step).s, f)
  {
    StepRests(s, step, f);
    PlacedWaiters(s);
    if s.fibers[f].place.AtEvent? {
      var p := s.fibers[f].place;
      assert At(s, p) == Some(f);
      if (p.fd, p.e) !in s.schedulers {
        NoSchedulerStays(s, step, (p.fd, p.e));
      } else {
        UnknownStays(s, step, p.fd);
      }
    }
  }

  /** A forsaken fiber is never resumed: neither readiness nor its own timeout, cancelEvent, cancelAll, delEvent or any
      other step, in any later run. */
  lemma {:induction false} ForsakenForGood(s: State, steps: seq<Step>, f: FiberId)
    requires Inv(s) && Forsaken(s, f) && Run(s, steps).Went?
    ensures Forsaken(Run(s, steps).s, f) && Rests(s, Run(s, steps).s, f)
    decreases |steps|
  {
    if steps != [] {
      ApplyKeeps(s, steps[0]);
      ForsakenStep(s, steps[0], f);
      ForsakenForGood(Apply(s, steps[0]).s, steps[1..], f);
    }
  }

  /** The fiber whose last wait was deleted or replaced has yielded for good. */
  lemma DeletedNeverResumed(before: seq<Step>, after: seq<Step>, f: FiberId, w: nat)
    requires Run(INIT, before).Went? && Run(Run(INIT, before).s, after).Went?
    requires var s := Run(INIT, before).s;
             f in s.fibers && s.fibers[f].state.Ready? && LastWait(s, f, w) && Gone(s.waits[w].fate)
    ensures var s' := Run(Run(INIT, before).s, after).s;
            f in s'.fibers && s'.fibers[f].state.Ready? && forall p :: At(s', p) != Some(f)
  {
    InitInv();
    RunKeeps(INIT, before);
    var s := Run(INIT, before).s;
    RunKeeps(s, after);
    ForsakenForGood(s, after, f);
  }

  // ---- when the kernel watches what fibers wait for

  /** The events of fd for which some fiber has made its epoll_ctl and not yet set its bit. */
  function ArmedAt(fibers: map<FiberId, Fiber>, fd: nat): set<Event> {
    set g | g in fibers && fibers[g].pc.Armed? && fibers[g].pc.c.fd == fd :: fibers[g].pc.c.e
  }

  predicate AgreesAt(s: State, fd: nat) {
    IoInterest.Agree(Registered(s.bits, fd) + ArmedAt(s.fibers, fd), s.kernel, fd)
  }

  /** The kernel watches exactly what is registered or about to be. */
  ghost predicate KernelAgrees(s: State) {
    forall fd: nat :: AgreesAt(s, fd)
  }

  /** The step takes effect on a descriptor in the middle of an addEvent: a region under the lock of the descriptor
      takes away the interest in an armed event; or addEvent's epoll_ctl goes by a bit that has been cleared since. */
  predicate Intrudes(s: State, step: Step) {
    match RegionOf(s, step)
    case Some((fd, asked, ctl)) =>
      Withdraw(s, fd, asked, ctl).Some? && !(ArmedAt(s.fibers, fd) <= Registered(s.bits, fd) - asked)
    case None =>
      step.AddCtl? && Runnable(s, step.t) && s.fibers[s.hands[step.t].f].pc.Looked? &&
      var pc := s.fibers[s.hands[step.t].f].pc;
      && step.ctl && pc.seen != {} && pc.c.fd in s.kernel
      && !(pc.seen <= Registered(s.bits, pc.c.fd) + ArmedAt(s.fibers, pc.c.fd))
  }

  lemma ArmedSame(fibers: map<FiberId, Fiber>, fibers': map<FiberId, Fiber>, fd: nat)
    requires AddsSame(fibers, fibers')
    ensures ArmedAt(fibers', fd) == ArmedAt(fibers, fd)
  {
    forall e | e in ArmedAt(fibers, fd) ensures e in ArmedAt(fibers', fd) {
      var g :| g in fibers && fibers[g].pc.Armed? && fibers[g].pc.c.fd == fd && fibers[g].pc.c.e == e;
      assert Adds(fibers, g);
    }
    forall e | e in ArmedAt(fibers', fd) ensures e in ArmedAt(fibers, fd) {
      var g :| g in fibers' && fibers'[g].pc.Armed? && fibers'[g].pc.c.fd == fd && fibers'[g].pc.c.e == e;
      assert Adds(fibers', g);
    }
  }

  lemma AsideAgrees(s: State, s': State)
    requires KernelAgrees(s) && Aside(s, s')
    ensures KernelAgrees(s')
  {
    forall fd: nat ensures AgreesAt(s', fd) {
      assert AgreesAt(s, fd);
      ArmedSame(s.fibers, s'.fibers, fd);
    }
  }

  lemma TookAgrees(s: State, s': State, fd: nat, asked: set<Event>, ctl: bool)
    requires KernelAgrees(s) && Took(s, s', fd, asked, ctl) && Withdraw(s, fd, asked, ctl).Some?
    ensures KernelAgrees(s') <==> ArmedAt(s.fibers, fd) <= Registered(s.bits, fd) - asked
  {
    var here := Registered(s.bits, fd);
    forall g: nat
      ensures AgreesAt(s, g) && ArmedAt(s'.fibers, g) == ArmedAt(s.fibers, g)
      ensures Registered(s'.bits, g) == if g == fd then here - asked else Registered(s.bits, g)
    {
      ArmedSame(s.fibers, s'.fibers, g);
      RegisteredAfter(s.bits, s'.bits, fd, asked, g);
    }
    IoInterest.RegionAgree(here, ArmedAt(s.fibers, fd), here - asked, s.kernel, s'.kernel, fd);
    assert AgreesAt(s', fd) <==> ArmedAt(s.fibers, fd) <= here - asked;
    forall g: nat | g != fd ensures AgreesAt(s', g) {
      assert AgreesAt(s, g) && (g in s'.kernel <==> g in s.kernel);
    }
  }

  /** Fiber f, which was not armed, is armed now or is not. */
  lemma ArmedGrows(fibers: map<FiberId, Fiber>, f: FiberId, b: Fiber, fd: nat)
    requires f in fibers && !fibers[f].pc.Armed?
    ensures ArmedAt(fibers[f := b], fd) ==
            ArmedAt(fibers, fd) + if b.pc.Armed? && b.pc.c.fd == fd then {b.pc.c.e} else {}
  {
    forall e | e in ArmedAt(fibers, fd) ensures e in ArmedAt(fibers[f := b], fd) {
      var g :| g in fibers && fibers[g].pc.Armed? && fibers[g].pc.c.fd == fd && fibers[g].pc.c.e == e;
      assert g in fibers[f := b] && fibers[f := b][g] == fibers[g];
    }
    if b.pc.Armed? && b.pc.c.fd == fd {
      assert f in fibers[f := b] && fibers[f := b][f] == b;
    }
  }

  lemma LookAgrees(s: State, f: FiberId)
    requires KernelAgrees(s) && f in s.fibers && Looking(s, f, s.fibers[f]).Went?
    ensures KernelAgrees(Looking(s, f, s.fibers[f]).s)
  {
    var s' := Looking(s, f, s.fibers[f]).s;
    forall fd: nat ensures AgreesAt(s', fd) {
      assert AgreesAt(s, fd);
      ArmedGrows(s.fibers, f, s'.fibers[f], fd);
    }
  }

  /** epoll_ctl fails, and do_io returns. */
  lemma GiveUpAgrees(s: State, f: FiberId, ctl: bool)
    requires KernelAgrees(s) && f in s.fibers && s.fibers[f].pc.Looked? && !Arm(s, f, ctl).s.fibers[f].pc.Armed?
    ensures KernelAgrees(Arm(s, f, ctl).s)
  {
    var s' := Arm(s, f, ctl).s;
    forall fd: nat ensures AgreesAt(s', fd) {
      assert AgreesAt(s, fd);
      ArmedGrows(s.fibers, f, s'.fibers[f], fd);
    }
  }

  lemma ArmAgrees(s: State, f: FiberId, ctl: bool)
    requires KernelAgrees(s) && f in s.fibers && s.fibers[f].pc.Looked? && s.fibers[f].pc.c.e !in s.fibers[f].pc.seen
    requires Arm(s, f, ctl).s.fibers[f].pc.Armed?
    ensures var pc := s.fibers[f].pc;
            KernelAgrees(Arm(s, f, ctl).s) <==>
            pc.seen <= Registered(s.bits, pc.c.fd) + ArmedAt(s.fibers, pc.c.fd)
  {
    var pc, s' := s.fibers[f].pc, Arm(s, f, ctl).s;
    forall g: nat
      ensures AgreesAt(s, g)
      ensures ArmedAt(s'.fibers, g) == ArmedAt(s.fibers, g) + if g == pc.c.fd then {pc.c.e} else {}
    {
      ArmedGrows(s.fibers, f, s'.fibers[f], g);
    }
    IoInterest.ArmAgree(Registered(s.bits, pc.c.fd), ArmedAt(s.fibers, pc.c.fd), pc.seen, pc.c.e,
                        s.kernel, s'.kernel, pc.c.fd);
    assert AgreesAt(s', pc.c.fd) <==> pc.seen <= Registered(s.bits, pc.c.fd) + ArmedAt(s.fibers, pc.c.fd);
    forall g: nat | g != pc.c.fd ensures AgreesAt(s', g) {
      assert AgreesAt(s, g) && (g in s'.kernel <==> g in s.kernel);
    }
  }

  lemma MarkArmed(fibers: map<FiberId, Fiber>, f: FiberId, b: Fiber, fd: nat)
    requires f in fibers && fibers[f].pc.Armed? && !b.pc.Armed?
    ensures ArmedAt(fibers[f := b], fd) + (if fd == fibers[f].pc.c.fd then {fibers[f].pc.c.e} else {}) ==
            ArmedAt(fibers, fd)
  {
    var c := fibers[f].pc.c;
    forall e | e in ArmedAt(fibers, fd) && !(fd == c.fd && e == c.e) ensures e in ArmedAt(fibers[f := b], fd) {
      var g :| g in fibers && fibers[g].pc.Armed? && fibers[g].pc.c.fd == fd && fibers[g].pc.c.e == e;
      assert g in fibers[f := b] && fibers[f := b][g] == fibers[g];
    }
  }

  lemma MarkRegistered(bits: set<(nat, Event)>, c: Call, fd: nat)
    ensures Registered(bits + {(c.fd, c.e)}, fd) == Registered(bits, fd) + if fd == c.fd then {c.e} else {}
  {
    forall e: Event
      ensures e in Registered(bits + {(c.fd, c.e)}, fd) <==> e in Registered(bits, fd) || (fd == c.fd && e == c.e)
    {
      RegisteredIff(bits, fd, e);
      RegisteredIff(bits + {(c.fd, c.e)}, fd, e);
    }
  }

  lemma MarkAgrees(s: State, f: FiberId)
    requires KernelAgrees(s) && f in s.fibers && Marking(s, f, s.fibers[f]).Went?
    ensures KernelAgrees(Marking(s, f, s.fibers[f]).s)
  {
    var s', c := Marking(s, f, s.fibers[f]).s, s.fibers[f].pc.c;
    forall fd: nat ensures AgreesAt(s', fd) {
      assert AgreesAt(s, fd);
      MarkArmed(s.fibers, f, s'.fibers[f], fd);
      MarkRegistered(s.bits, c, fd);
      assert Registered(s'.bits, fd) + ArmedAt(s'.fibers, fd) == Registered(s.bits, fd) + ArmedAt(s.fibers, fd);
    }
  }

  /** The scheduler and the fiber are no concern of the kernel. */
  lemma LaterAgrees(s: State, s': State)
    requires KernelAgrees(s) && s'.kernel == s.kernel && s'.bits == s.bits
    requires forall g :: g in s'.fibers && s'.fibers[g].pc.Armed? <==> g in s.fibers && s.fibers[g].pc.Armed?
    requires forall g :: g in s.fibers && s.fibers[g].pc.Armed? ==> s'.fibers[g].pc == s.fibers[g].pc
    ensures KernelAgrees(s')
  {
    forall fd: nat ensures AgreesAt(s', fd) {
      assert AgreesAt(s, fd);
      assert ArmedAt(s'.fibers, fd) == ArmedAt(s.fibers, fd) by {
        forall e | e in ArmedAt(s.fibers, fd) ensures e in ArmedAt(s'.fibers, fd) {
          var g :| g in s.fibers && s.fibers[g].pc.Armed? && s.fibers[g].pc.c.fd == fd && s.fibers[g].pc.c.e == e;
          assert g in s'.fibers && s'.fibers[g].pc.Armed?;
        }
      }
    }
  }

  lemma WorkAgrees(s: State, f: FiberId)
    requires WaitersPlaced(s) && KernelAgrees(s) && f in s.fibers && s.fibers[f].pc.Bound? && Storing(s, f).Went?
    ensures KernelAgrees(Storing(s, f).s)
  {
    var c := s.fibers[f].pc.c;
    EvictTakes(s, c.fd, c.e, Replaced);
    LaterAgrees(s, Storing(s, f).s);
  }

  lemma AddAgrees(s: State, step: Step)
    requires Inv(s) && KernelAgrees(s) && AddStep(step) && Apply(s, step).Went?
    ensures KernelAgrees(Apply(s, step).s) <==> !Intrudes(s, step)
  {
    var f := s.hands[step.t].f;
    if step.AddLook? {
      LookAgrees(s, f);
    } else if step.AddBit? {
      MarkAgrees(s, f);
    } else if step.AddScheduler? {
      LaterAgrees(s, Apply(s, step).s);
    } else if step.AddWork? {
      PlacedWaiters(s);
      WorkAgrees(s, f);
    } else {
      assert Sound(s.fibers[f], f, s.hands);
      if Arm(s, f, step.ctl).s.fibers[f].pc.Armed? {
        ArmAgrees(s, f, step.ctl);
      } else {
        GiveUpAgrees(s, f, step.ctl);
      }
    }
  }

  /** One step keeps the kernel in step with the waits exactly when it does not intrude. */
  lemma StepAgrees(s: State, step: Step)
    requires Inv(s) && KernelAgrees(s) && Apply(s, step).Went?
    ensures KernelAgrees(Apply(s, step).s) <==> !Intrudes(s, step)
  {
    if AddStep(step) {
      AddAgrees(s, step);
    } else if RegionOf(s, step).Some? {
      var (fd, asked, ctl) := RegionOf(s, step).value;
      PlacedWaiters(s);
      RegionTook(s, step);
      if Withdraw(s, fd, asked, ctl).Some? {
        TookAgrees(s, Apply(s, step).s, fd, asked, ctl);
      } else {
        AsideAgrees(s, Apply(s, step).s);
      }
    } else {
      OthersAside(s, step);
      AsideAgrees(s, Apply(s, step).s);
    }
  }

  /** The first i steps go through, and the kernel agrees with the waits then. */
  ghost predicate AgreesBefore(s: State, steps: seq<Step>, i: nat)
    requires i <= |steps|
  {
    Run(s, steps[..i]).Went? && KernelAgrees(Run(s, steps[..i]).s)
  }

  predicate IntrudesAt(s: State, steps: seq<Step>, i: nat)
    requires i < |steps|
  {
    Run(s, steps[..i]).Went? && Intrudes(Run(s, steps[..i]).s, steps[i])
  }

  lemma Shifted(s: State, steps: seq<Step>, i: nat)
    requires steps != [] && Apply(s, steps[0]).Went? && 0 < i <= |steps|
    ensures var t := Apply(s, steps[0]).s;
            && (AgreesBefore(s, steps, i) <==> AgreesBefore(t, steps[1..], i - 1))
            && (i < |steps| ==> (IntrudesAt(s, steps, i) <==> IntrudesAt(t, steps[1..], i - 1)))
  {
    RunFrom(s, steps, i - 1);
  }

  lemma {:induction false} StaysInStep(s: State, steps: seq<Step>)
    requires Inv(s) && KernelAgrees(s) && Run(s, steps).Went?
    ensures (forall i :: 0 <= i <= |steps| ==> AgreesBefore(s, steps, i))
       <==> (forall i :: 0 <= i < |steps| ==> !IntrudesAt(s, steps, i))
    decreases |steps|
  {
    assert AgreesBefore(s, steps, 0);
    if steps != [] {
      var t := Apply(s, steps[0]).s;
      ApplyKeeps(s, steps[0]);
      StepAgrees(s, steps[0]);
      forall i: nat | 0 < i <= |steps|
        ensures AgreesBefore(s, steps, i) <==> AgreesBefore(t, steps[1..], i - 1)
        ensures i < |steps| ==> (IntrudesAt(s, steps, i) <==> IntrudesAt(t, steps[1..], i - 1))
      {
        Shifted(s, steps, i);
      }
      assert AgreesBefore(s, steps, 1) <==> !IntrudesAt(s, steps, 0);
      if KernelAgrees(t) {
        StaysInStep(t, steps[1..]);
        StaysFrom(s, t, steps);
      }
    }
  }

  lemma StaysFrom(s: State, t: State, steps: seq<Step>)
    requires steps != [] && AgreesBefore(s, steps, 0) && !IntrudesAt(s, steps, 0)
    requires forall i: nat :: 0 < i <= |steps| ==> (AgreesBefore(s, steps, i) <==> AgreesBefore(t, steps[1..], i - 1))
    requires forall i: nat :: 0 < i < |steps| ==> (IntrudesAt(s, steps, i) <==> IntrudesAt(t, steps[1..], i - 1))
    requires (forall i :: 0 <= i <= |steps[1..]| ==> AgreesBefore(t, steps[1..], i))
        <==> (forall i :: 0 <= i < |steps[1..]| ==> !IntrudesAt(t, steps[1..], i))
    ensures (forall i :: 0 <= i <= |steps| ==> AgreesBefore(s, steps, i))
       <==> (forall i :: 0 <= i < |steps| ==> !IntrudesAt(s, steps, i))
  {
    forall i | 0 <= i <= |steps[1..]| ensures AgreesBefore(t, steps[1..], i) <==> AgreesBefore(s, steps, i + 1) {
    }
    forall i | 0 <= i < |steps[1..]| ensures IntrudesAt(t, steps[1..], i) <==> IntrudesAt(s, steps, i + 1) {
    }
  }

  /** Over every run of the whole runtime: what fibers wait for and what the kernel watches agree in every state, up to
      the calls of addEvent under way, if and only if no step intrudes on such a call. */
  lemma WaitsWatchedExact(steps: seq<Step>)
    requires Run(INIT, steps).Went?
    ensures (forall i :: 0 <= i <= |steps| ==> AgreesBefore(INIT, steps, i))
       <==> (forall i :: 0 <= i < |steps| ==> !IntrudesAt(INIT, steps, i))
  {
    InitInv();
    assert KernelAgrees(INIT);
    StaysInStep(INIT, steps);
  }

  /** Without an intrusion the kernel watches the event of every fiber that is in a context with its bit set. */
  lemma WaiterIsWatched(steps: seq<Step>, f: FiberId)
    requires Run(INIT, steps).Went? && forall i :: 0 <= i < |steps| ==> !IntrudesAt(INIT, steps, i)
    requires f in Run(INIT, steps).s.fibers && Run(INIT, steps).s.fibers[f].place.AtEvent?
    requires var s := Run(INIT, steps).s; (s.fibers[f].place.fd, s.fibers[f].place.e) in s.bits
    ensures var s := Run(INIT, steps).s;
            var p := s.fibers[f].place;
            p.fd in s.kernel && p.e in s.kernel[p.fd]
  {
    WaitsWatchedExact(steps);
    assert steps[..|steps|] == steps && AgreesBefore(INIT, steps, |steps|);
    InitInv();
    RunKeeps(INIT, steps);
    WatchedHere(Run(INIT, steps).s, f);
  }

  lemma WatchedHere(s: State, f: FiberId)
    requires KernelAgrees(s) && f in s.fibers && s.fibers[f].place.AtEvent?
    requires (s.fibers[f].place.fd, s.fibers[f].place.e) in s.bits
    ensures var p := s.fibers[f].place; p.fd in s.kernel && p.e in s.kernel[p.fd]
  {
    var p := s.fibers[f].place;
    assert AgreesAt(s, p.fd);
    RegisteredIff(s.bits, p.fd, p.e);
  }
}
