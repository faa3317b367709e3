/** Which runs of the runtime go wrong.  The bits, schedulers and fibers in the contexts agree, event by event, exactly
    as long as no step breaks a rule there; and a fiber that has yielded is out of reach exactly when its wait was
    deleted, replaced, or not heard, because its event was taken away before the fiber was stored. */
module RuntimeFaults {
  import opened Options
  import opened Runtime
  import opened RuntimeWaits
  import Io = IoEvents

  /** Fiber g is in an addEvent of event k, between the bit and the work. */
  predicate InWindow(fibers: map<FiberId, Fiber>, g: FiberId, k: (nat, Event)) {
    && g in fibers && (fibers[g].pc.Marked? || fibers[g].pc.Bound?)
    && fibers[g].pc.c.fd == k.0 && fibers[g].pc.c.e == k.1
  }

  ghost predicate Window(fibers: map<FiberId, Fiber>, k: (nat, Event)) {
    exists g :: InWindow(fibers, g, k)
  }

  /** A bit that is set stands for one wait: a complete context, or one fiber between the bit and the work. */
  ghost predicate AgreedAt(s: State, k: (nat, Event)) {
    if Window(s.fibers, k) then
      && k in s.bits && k !in s.stored
      && (forall g :: InWindow(s.fibers, g, k) ==> (k in s.schedulers <==> s.fibers[g].pc.Bound?))
      && (forall g, h :: InWindow(s.fibers, g, k) && InWindow(s.fibers, h, k) ==> g == h)
    else (k in s.bits <==> k in s.stored) && (k in s.bits <==> k in s.schedulers)
  }

  ghost predicate Agreed(s: State) {
    forall k :: AgreedAt(s, k)
  }

  /** The step breaks a rule of the program at event k.  It adds an event that is registered; or sets a bit that has
      been set meanwhile; or is a region under the lock of a descriptor, a timeout among them, that takes effect on an
      event that is not registered, or whose addEvent is between its bit and its work. */
  ghost predicate Faulty(s: State, step: Step, k: (nat, Event)) {
    match RegionOf(s, step)
    case Some((fd, asked, ctl)) =>
      Hit(k, fd, asked) && Withdraw(s, fd, asked, ctl).Some? && (k !in s.bits || Window(s.fibers, k))
    case None =>
      && (step.AddLook? || step.AddBit?) && Runnable(s, step.t)
      && var pc := s.fibers[s.hands[step.t].f].pc;
      (if step.AddLook? then pc.Arming? else pc.Armed?) && k == (pc.c.fd, pc.c.e) && k in s.bits
  }

  // ---- one step

  /** Nothing changes for event k. */
  lemma SameAt(s: State, s': State, k: (nat, Event))
    requires k in s'.bits <==> k in s.bits
    requires k in s'.schedulers <==> k in s.schedulers
    requires k in s'.stored <==> k in s.stored
    requires forall g :: InWindow(s.fibers, g, k) <==> InWindow(s'.fibers, g, k)
    requires forall g :: InWindow(s.fibers, g, k) ==> g in s'.fibers && s'.fibers[g].pc == s.fibers[g].pc
    ensures AgreedAt(s, k) <==> AgreedAt(s', k)
  {
    assert Window(s.fibers, k) <==> Window(s'.fibers, k);
  }

  lemma WindowSame(fibers: map<FiberId, Fiber>, fibers': map<FiberId, Fiber>, g: FiberId, k: (nat, Event))
    requires AddsSame(fibers, fibers')
    ensures InWindow(fibers, g, k) <==> InWindow(fibers', g, k)
    ensures InWindow(fibers, g, k) ==> g in fibers' && fibers'[g].pc == fibers[g].pc
  {
    assert Adds(fibers, g) <==> Adds(fibers', g);
  }

  lemma AsideAt(s: State, s': State, k: (nat, Event))
    requires Aside(s, s')
    ensures AgreedAt(s, k) <==> AgreedAt(s', k)
  {
    forall g ensures InWindow(s.fibers, g, k) <==> InWindow(s'.fibers, g, k)
              ensures InWindow(s.fibers, g, k) ==> g in s'.fibers && s'.fibers[g].pc == s.fibers[g].pc
    {
      WindowSame(s.fibers, s'.fibers, g, k);
    }
    SameAt(s, s', k);
  }

  lemma TookAt(s: State, s': State, fd: nat, asked: set<Event>, ctl: bool, k: (nat, Event))
    requires Took(s, s', fd, asked, ctl) && Withdraw(s, fd, asked, ctl).Some?
    ensures !Hit(k, fd, asked) ==> (AgreedAt(s, k) <==> AgreedAt(s', k))
    ensures Hit(k, fd, asked) ==> (AgreedAt(s', k) <==> !Window(s.fibers, k))
  {
    forall g ensures InWindow(s.fibers, g, k) <==> InWindow(s'.fibers, g, k)
              ensures InWindow(s.fibers, g, k) ==> g in s'.fibers && s'.fibers[g].pc == s.fibers[g].pc
    {
      WindowSame(s.fibers, s'.fibers, g, k);
    }
    if !Hit(k, fd, asked) {
      SameAt(s, s', k);
    }
    assert Window(s.fibers, k) <==> Window(s'.fibers, k);
  }

  /** A region that went through on an unregistered event would have found no scheduler. */
  lemma HitRegistered(s: State, step: Step, k: (nat, Event))
    requires RegionOf(s, step).Some? && Apply(s, step).Went? && AgreedAt(s, k)
    requires var (fd, asked, ctl) := RegionOf(s, step).value; Hit(k, fd, asked) && Withdraw(s, fd, asked, ctl).Some?
    ensures k in s.bits
  {
    var (fd, asked, ctl) := RegionOf(s, step).value;
    assert k == (fd, k.1) && (k.1 == Io.Read || k.1 == Io.Write);
    RegisteredIff(s.bits, fd, k.1);
    if !step.DelEvent? {
      RegionFires(s, step);
    }
  }

  /** A region that is not delEvent goes wrong exactly when it takes effect on an event without a scheduler. */
  lemma RegionFires(s: State, step: Step)
    requires RegionOf(s, step).Some? && !step.DelEvent?
    ensures var (fd, asked, ctl) := RegionOf(s, step).value;
            && (Apply(s, step).Crash? <==> Withdraw(s, fd, asked, ctl).Some? && !Triggerable(s, fd, asked))
            && !Apply(s, step).Disabled?
  {
  }

  lemma RegionAt(s: State, step: Step, k: (nat, Event))
    requires Inv(s) && RegionOf(s, step).Some? && Apply(s, step).Went? && AgreedAt(s, k)
    ensures AgreedAt(Apply(s, step).s, k) <==> !Faulty(s, step, k)
  {
    var (fd, asked, ctl) := RegionOf(s, step).value;
    PlacedWaiters(s);
    RegionTook(s, step);
    if Withdraw(s, fd, asked, ctl).None? {
      AsideAt(s, Apply(s, step).s, k);
    } else {
      TookAt(s, Apply(s, step).s, fd, asked, ctl, k);
      if Hit(k, fd, asked) {
        HitRegistered(s, step, k);
      }
    }
  }

  /** Fiber f moves on in addEvent, and not in the window of k. */
  lemma MovesAt(s: State, s': State, f: FiberId, k: (nat, Event))
    requires f in s.fibers && Only(s, s', f) && !InWindow(s.fibers, f, k) && !InWindow(s'.fibers, f, k)
    requires k in s'.bits <==> k in s.bits
    requires k in s'.schedulers <==> k in s.schedulers
    requires k in s'.stored <==> k in s.stored
    ensures AgreedAt(s, k) <==> AgreedAt(s', k)
  {
    SameAt(s, s', k);
  }

  lemma MarkAt(s: State, f: FiberId, k: (nat, Event))
    requires f in s.fibers && s.fibers[f].pc.Armed? && AgreedAt(s, k)
    ensures var c := s.fibers[f].pc.c;
            AgreedAt(Marking(s, f, s.fibers[f]).s, k) <==> !(k == (c.fd, c.e) && k in s.bits)
  {
    var c, s' := s.fibers[f].pc.c, Marking(s, f, s.fibers[f]).s;
    if k != (c.fd, c.e) {
      assert !(k.0 == c.fd && k.1 == c.e) by { assert k == (k.0, k.1); }
      MovesAt(s, s', f, k);
    } else {
      assert InWindow(s'.fibers, f, k) && !InWindow(s.fibers, f, k);
      if Window(s.fibers, k) {
        var g :| InWindow(s.fibers, g, k);
        assert InWindow(s'.fibers, g, k) && g != f;
      } else {
        assert forall g :: InWindow(s'.fibers, g, k) ==> g == f || InWindow(s.fibers, g, k);
      }
    }
  }

  lemma BindAt(s: State, f: FiberId, k: (nat, Event))
    requires f in s.fibers && s.fibers[f].pc.Marked? && Binding(s, f, s.fibers[f]).Went? && AgreedAt(s, k)
    ensures AgreedAt(Binding(s, f, s.fibers[f]).s, k)
  {
    var c, s' := s.fibers[f].pc.c, Binding(s, f, s.fibers[f]).s;
    if k != (c.fd, c.e) {
      assert !(k.0 == c.fd && k.1 == c.e) by { assert k == (k.0, k.1); }
      MovesAt(s, s', f, k);
    } else {
      assert InWindow(s.fibers, f, k) && InWindow(s'.fibers, f, k);
      assert forall g :: InWindow(s'.fibers, g, k) ==> InWindow(s.fibers, g, k);
    }
  }

  /** What the last part of addEvent leaves. */
  lemma StoreEffect(s: State, f: FiberId)
    requires WaitersPlaced(s) && f in s.fibers && s.fibers[f].pc.Bound? && s.fibers[f].state.Running?
    ensures var c, s' := s.fibers[f].pc.c, Storing(s, f).s;
            var k := (c.fd, c.e);
            && Storing(s, f).Went? && s'.bits == s.bits && s'.schedulers == s.schedulers && s'.kernel == s.kernel
            && s'.stored.Keys == s.stored.Keys + {k} && s'.stored[k] == Waiter(|s.waits|, f)
            && (forall j :: j in s.stored && j != k ==> s'.stored[j] == s.stored[j])
            && |s'.waits| == |s.waits| + 1 && (forall w :: 0 <= w < |s.waits| ==> s'.waits[w].heard == s.waits[w].heard)
            && s'.waits[|s.waits|] == Wait(f, c.fd, c.e, k in s.bits && k in s.schedulers, Waits)
  {
    EvictTakes(s, s.fibers[f].pc.c.fd, s.fibers[f].pc.c.e, Replaced);
  }

  /** ... and that it moves no other fiber. */
  lemma StorePcs(s: State, f: FiberId, g: FiberId)
    requires WaitersPlaced(s) && f in s.fibers && s.fibers[f].pc.Bound? && s.fibers[f].state.Running?
    ensures var s' := Storing(s, f).s;
            && f in s'.fibers && s'.fibers[f].pc == Parking(s.fibers[f].pc.c)
            && (g != f ==> (g in s'.fibers <==> g in s.fibers) && (g in s.fibers ==> s'.fibers[g].pc == s.fibers[g].pc))
  {
  }

  lemma StoreAt(s: State, f: FiberId, k: (nat, Event))
    requires WaitersPlaced(s) && f in s.fibers && s.fibers[f].pc.Bound? && s.fibers[f].state.Running? && AgreedAt(s, k)
    ensures AgreedAt(Storing(s, f).s, k)
  {
    var c, s' := s.fibers[f].pc.c, Storing(s, f).s;
    StoreEffect(s, f);
    forall g ensures InWindow(s'.fibers, g, k) <==> g != f && InWindow(s.fibers, g, k)
              ensures g != f && InWindow(s.fibers, g, k) ==> g in s'.fibers && s'.fibers[g].pc == s.fibers[g].pc
    {
      StorePcs(s, f, g);
    }
    if k != (c.fd, c.e) {
      assert !InWindow(s.fibers, f, k) by { assert k == (k.0, k.1); }
      SameAt(s, s', k);
    } else {
      assert InWindow(s.fibers, f, k);
    }
  }

  /** The parts of addEvent up to its epoll_ctl. */
  lemma FirstAt(s: State, step: Step, k: (nat, Event))
    requires (step.AddLook? || step.AddCtl?) && Apply(s, step).Went? && AgreedAt(s, k)
    ensures AgreedAt(Apply(s, step).s, k) && !Faulty(s, step, k)
  {
    var f := s.hands[step.t].f;
    AddOnly(s, step.t, step);
    MovesAt(s, Apply(s, step).s, f, k);
  }

  lemma AddAt(s: State, step: Step, k: (nat, Event))
    requires Inv(s) && AddStep(step) && Apply(s, step).Went? && AgreedAt(s, k)
    ensures AgreedAt(Apply(s, step).s, k) <==> !Faulty(s, step, k)
  {
    var f := s.hands[step.t].f;
    RunsIt(s, step.t);
    if step.AddBit? {
      MarkAt(s, f, k);
    } else if step.AddScheduler? {
      BindAt(s, f, k);
    } else if step.AddWork? {
      PlacedWaiters(s);
      StoreAt(s, f, k);
    } else {
      FirstAt(s, step, k);
    }
  }

  /** A step that goes through keeps event k in agreement exactly when it breaks no rule there. */
  lemma StepExact(s: State, step: Step, k: (nat, Event))
    requires Inv(s) && Apply(s, step).Went? && AgreedAt(s, k)
    ensures AgreedAt(Apply(s, step).s, k) <==> !Faulty(s, step, k)
  {
    if AddStep(step) {
      AddAt(s, step, k);
    } else if RegionOf(s, step).Some? {
      RegionAt(s, step, k);
    } else {
      OthersAside(s, step);
      AsideAt(s, Apply(s, step).s, k);
    }
  }

  // ---- a step that fails

  /** Only the two assertions of addEvent and the triggering of events can fail. */
  lemma OthersDoNotFail(s: State, step: Step)
    requires Inv(s) && !step.AddLook? && !step.AddScheduler? && RegionOf(s, step).None?
    ensures !Apply(s, step).Crash?
  {
    if step.StartThread? || step.Spawn? || step.Take? || step.Resume? || step.RunCallback? || step.Expire? {
      SchedulingKeeps(s, step);
    } else if Runnable(s, step.t) {
      RunsIt(s, step.t);
      if step.BeginIo? || step.IoDone? || step.WouldBlock? || step.AfterWake? {
        IoKeeps(s, step.t, step);
      } else if !AddStep(step) {
        AdvanceKeeps(s, step.t, step);
      }
    }
  }

  /** In a state of agreement the second assertion of addEvent holds. */
  lemma SecondAssertionHolds(s: State, t: ThreadId)
    requires Agreed(s)
    ensures !Apply(s, AddScheduler(t)).Crash?
  {
    if Runnable(s, t) && s.fibers[s.hands[t].f].pc.Marked? {
      var f := s.hands[t].f;
      var k := (s.fibers[f].pc.c.fd, s.fibers[f].pc.c.e);
      assert InWindow(s.fibers, f, k) && AgreedAt(s, k);
    }
  }

  lemma OnlyThose(s: State, step: Step)
    requires Inv(s) && Agreed(s) && !step.AddLook? && RegionOf(s, step).None?
    ensures !Apply(s, step).Crash?
  {
    if step.AddScheduler? {
      SecondAssertionHolds(s, step.t);
    } else {
      OthersDoNotFail(s, step);
    }
  }

  /** In a state of agreement a step that fails breaks a rule. */
  lemma CrashIsFaulty(s: State, step: Step)
    requires Inv(s) && Agreed(s) && Apply(s, step).Crash?
    ensures exists k :: Faulty(s, step, k)
  {
    if RegionOf(s, step).Some? {
      var (fd, asked, ctl) := RegionOf(s, step).value;
      RegionFires(s, step);
      var e :| e in asked && (fd, e) !in s.schedulers;
      assert AgreedAt(s, (fd, e)) && Hit((fd, e), fd, asked);
      assert Faulty(s, step, (fd, e));
    } else if step.AddLook? {
      var c := s.fibers[s.hands[step.t].f].pc.c;
      assert Faulty(s, step, (c.fd, c.e));
    } else {
      OnlyThose(s, step);
    }
  }

  /** A step that breaks a rule is not disabled. */
  lemma FaultyHappens(s: State, step: Step, k: (nat, Event))
    requires Inv(s) && Faulty(s, step, k)
    ensures !Apply(s, step).Disabled?
  {
    if RegionOf(s, step).Some? && !step.DelEvent? {
      RegionFires(s, step);
    }
  }

  // ---- runs

  ghost predicate FaultyAt(s: State, steps: seq<Step>, i: nat, k: (nat, Event))
    requires i < |steps|
  {
    Run(s, steps[..i]).Went? && Faulty(Run(s, steps[..i]).s, steps[i], k)
  }

  /** The first i steps go through, and then event k is not in agreement. */
  ghost predicate DisagreesAfter(s: State, steps: seq<Step>, i: nat, k: (nat, Event))
    requires i <= |steps|
  {
    Run(s, steps[..i]).Went? && !AgreedAt(Run(s, steps[..i]).s, k)
  }

  /** The run comes to a state in which event k is not in agreement. */
  ghost predicate Disagrees(s: State, steps: seq<Step>, k: (nat, Event)) {
    exists i :: 0 <= i <= |steps| && DisagreesAfter(s, steps, i, k)
  }

  ghost predicate BreaksARule(s: State, steps: seq<Step>, k: (nat, Event)) {
    exists i :: 0 <= i < |steps| && FaultyAt(s, steps, i, k)
  }

  /** Where a run from s disagrees, and breaks a rule: at its first step, or later. */
  lemma Later(s: State, steps: seq<Step>, k: (nat, Event))
    requires steps != [] && AgreedAt(s, k)
    ensures var o := Apply(s, steps[0]);
            && (Disagrees(s, steps, k) <==> o.Went? && Disagrees(o.s, steps[1..], k))
            && (BreaksARule(s, steps, k) <==>
                Faulty(s, steps[0], k) || (o.Went? && BreaksARule(o.s, steps[1..], k)))
  {
    var o := Apply(s, steps[0]);
    assert FaultyAt(s, steps, 0, k) <==> Faulty(s, steps[0], k);
    assert !DisagreesAfter(s, steps, 0, k);
    forall i: nat | i < |steps|
      ensures DisagreesAfter(s, steps, i + 1, k) <==> o.Went? && DisagreesAfter(o.s, steps[1..], i, k)
      ensures i + 1 < |steps| ==> (FaultyAt(s, steps, i + 1, k) <==> o.Went? && FaultyAt(o.s, steps[1..], i, k))
    {
      RunFrom(s, steps, i);
    }
    if Disagrees(s, steps, k) {
      var i :| 0 <= i <= |steps| && DisagreesAfter(s, steps, i, k);
      assert DisagreesAfter(o.s, steps[1..], i - 1, k);
    }
    if o.Went? && Disagrees(o.s, steps[1..], k) {
      var i :| 0 <= i <= |steps[1..]| && DisagreesAfter(o.s, steps[1..], i, k);
      assert DisagreesAfter(s, steps, i + 1, k);
    }
    if BreaksARule(s, steps, k) && !FaultyAt(s, steps, 0, k) {
      var i :| 0 <= i < |steps| && FaultyAt(s, steps, i, k);
      assert FaultyAt(o.s, steps[1..], i - 1, k);
    }
    if o.Went? && BreaksARule(o.s, steps[1..], k) {
      var i :| 0 <= i < |steps[1..]| && FaultyAt(o.s, steps[1..], i, k);
      assert FaultyAt(s, steps, i + 1, k);
    }
  }

  /** In a run that goes through, event k is in agreement all the way if and only if no step breaks a rule there. */
  lemma {:induction false} EventExact(s: State, steps: seq<Step>, k: (nat, Event))
    requires Inv(s) && AgreedAt(s, k) && Run(s, steps).Went?
    ensures Disagrees(s, steps, k) <==> BreaksARule(s, steps, k)
    decreases |steps|
  {
    if steps == [] {
      assert steps[..0] == [];
    } else {
      var o := Apply(s, steps[0]);
      Later(s, steps, k);
      ApplyKeeps(s, steps[0]);
      StepExact(s, steps[0], k);
      if AgreedAt(o.s, k) {
        EventExact(o.s, steps[1..], k);
      } else {
        assert DisagreesAfter(o.s, steps[1..], 0, k);
      }
    }
  }

  /** The run fails, or comes to a state without agreement. */
  ghost predicate GoesWrong(s: State, steps: seq<Step>) {
    Run(s, steps).Crash? || exists k :: Disagrees(s, steps, k)
  }

  lemma StepGoesWrong(s: State, step: Step)
    requires Inv(s) && Agreed(s)
    ensures (exists k :: Faulty(s, step, k)) <==>
            Apply(s, step).Crash? || (Apply(s, step).Went? && !Agreed(Apply(s, step).s))
  {
    var o := Apply(s, step);
    if o.Crash? {
      CrashIsFaulty(s, step);
    } else if k :| Faulty(s, step, k) {
      FaultyHappens(s, step, k);
      assert AgreedAt(s, k);
      StepExact(s, step, k);
    } else if o.Went? {
      forall k ensures AgreedAt(o.s, k) {
        assert AgreedAt(s, k);
        StepExact(s, step, k);
      }
    }
  }

  /** A run fails, or comes to disagree, if and only if some step of it breaks a rule. */
  lemma {:induction false} RunExact(s: State, steps: seq<Step>)
    requires Inv(s) && Agreed(s)
    ensures GoesWrong(s, steps) <==> exists k :: BreaksARule(s, steps, k)
    decreases |steps|
  {
    if steps == [] {
      assert steps[..0] == [];
      forall k ensures !Disagrees(s, steps, k) {
        assert AgreedAt(s, k);
      }
    } else {
      var o := Apply(s, steps[0]);
      forall k
        ensures Disagrees(s, steps, k) <==> o.Went? && Disagrees(o.s, steps[1..], k)
        ensures BreaksARule(s, steps, k) <==> Faulty(s, steps[0], k) || (o.Went? && BreaksARule(o.s, steps[1..], k))
      {
        assert AgreedAt(s, k);
        Later(s, steps, k);
      }
      StepGoesWrong(s, steps[0]);
      ApplyKeeps(s, steps[0]);
      if o.Went? && Agreed(o.s) {
        RunExact(o.s, steps[1..]);
      } else if o.Went? {
        var k :| !AgreedAt(o.s, k);
        assert DisagreesAfter(o.s, steps[1..], 0, k);
        assert Disagrees(o.s, steps[1..], k);
      }
    }
  }

  lemma InitAgreed()
    ensures Agreed(INIT)
  {
  }

  /** A run of the runtime fails an assertion, follows a null scheduler, or brings bits and contexts out of agreement if
      and only if it reaches a step that breaks a rule. */
  lemma CrashExact(steps: seq<Step>)
    ensures GoesWrong(INIT, steps) <==> exists k :: BreaksARule(INIT, steps, k)
  {
    InitInv();
    InitAgreed();
    RunExact(INIT, steps);
  }

  // ---- waits that are not heard

  /** Some fiber is in an addEvent of event k, between the bit and the scheduler. */
  ghost predicate MarkedOn(fibers: map<FiberId, Fiber>, k: (nat, Event)) {
    exists g :: InWindow(fibers, g, k) && fibers[g].pc.Marked?
  }

  /** The event can resume the fiber in its context. */
  predicate Live(s: State, k: (nat, Event)) {
    k in s.bits && k in s.schedulers
  }

  /** A wait that was heard is in a live context; one that was not is in a live context only while another addEvent has
      set the bit before it and is to fail its second assertion. */
  ghost predicate HeardAt(s: State, k: (nat, Event)) {
    k in s.stored ==>
      && s.stored[k].w < |s.waits|
      && if s.waits[s.stored[k].w].heard then Live(s, k) else Live(s, k) ==> MarkedOn(s.fibers, k)
  }

  lemma SameHeard(s: State, s': State, k: (nat, Event))
    requires HeardAt(s, k) && |s.waits| <= |s'.waits|
    requires k in s'.stored ==> k in s.stored && s'.stored[k] == s.stored[k] && (Live(s, k) <==> Live(s', k))
    requires forall w :: 0 <= w < |s.waits| ==> s'.waits[w].heard == s.waits[w].heard
    requires MarkedOn(s.fibers, k) ==> MarkedOn(s'.fibers, k)
    ensures HeardAt(s', k)
  {
  }

  lemma MarkedSame(fibers: map<FiberId, Fiber>, fibers': map<FiberId, Fiber>, k: (nat, Event))
    requires AddsSame(fibers, fibers')
    ensures MarkedOn(fibers, k) ==> MarkedOn(fibers', k)
  {
    if g :| InWindow(fibers, g, k) && fibers[g].pc.Marked? {
      WindowSame(fibers, fibers', g, k);
      assert InWindow(fibers', g, k) && fibers'[g].pc.Marked?;
    }
  }

  /** Fiber f moves on, and not from the bit of k. */
  lemma MarkedMoves(s: State, s': State, f: FiberId, k: (nat, Event))
    requires f in s.fibers && Only(s, s', f) && !(InWindow(s.fibers, f, k) && s.fibers[f].pc.Marked?)
    ensures MarkedOn(s.fibers, k) ==> MarkedOn(s'.fibers, k)
  {
    if g :| InWindow(s.fibers, g, k) && s.fibers[g].pc.Marked? {
      assert InWindow(s'.fibers, g, k) && s'.fibers[g].pc.Marked?;
    }
  }

  lemma RegionHeard(s: State, step: Step, k: (nat, Event))
    requires Inv(s) && RegionOf(s, step).Some? && Apply(s, step).Went? && HeardAt(s, k)
    ensures HeardAt(Apply(s, step).s, k)
  {
    PlacedWaiters(s);
    RegionTook(s, step);
    MarkedSame(s.fibers, Apply(s, step).s.fibers, k);
    var s' := Apply(s, step).s;
    assert WaitsKept(s.waits, s'.waits) || s'.waits == s.waits;
    assert forall w :: 0 <= w < |s.waits| && Kept(s.waits[w], s'.waits[w]) ==> s'.waits[w].heard == s.waits[w].heard;
    SameHeard(s, s', k);
  }

  lemma MarkHeard(s: State, f: FiberId, k: (nat, Event))
    requires f in s.fibers && s.fibers[f].pc.Armed? && HeardAt(s, k)
    ensures HeardAt(Marking(s, f, s.fibers[f]).s, k)
  {
    var c, s' := s.fibers[f].pc.c, Marking(s, f, s.fibers[f]).s;
    MarkedMoves(s, s', f, k);
    if k == (c.fd, c.e) {
      assert InWindow(s'.fibers, f, k) && s'.fibers[f].pc.Marked?;
      assert MarkedOn(s'.fibers, k);
    } else {
      SameHeard(s, s', k);
    }
  }

  lemma BindHeard(s: State, f: FiberId, k: (nat, Event))
    requires f in s.fibers && s.fibers[f].pc.Marked? && Binding(s, f, s.fibers[f]).Went? && HeardAt(s, k)
    ensures HeardAt(Binding(s, f, s.fibers[f]).s, k)
  {
    var c, s' := s.fibers[f].pc.c, Binding(s, f, s.fibers[f]).s;
    if k in s.stored {
      assert k != (c.fd, c.e);
      assert !InWindow(s.fibers, f, k) by { assert k == (k.0, k.1); }
      MarkedMoves(s, s', f, k);
      SameHeard(s, s', k);
    }
  }

  lemma StoreHeard(s: State, f: FiberId, k: (nat, Event))
    requires WaitersPlaced(s) && f in s.fibers && s.fibers[f].pc.Bound? && s.fibers[f].state.Running? && HeardAt(s, k)
    ensures HeardAt(Storing(s, f).s, k)
  {
    var c, s' := s.fibers[f].pc.c, Storing(s, f).s;
    StoreEffect(s, f);
    if k != (c.fd, c.e) {
      if g :| InWindow(s.fibers, g, k) && s.fibers[g].pc.Marked? {
        StorePcs(s, f, g);
        assert InWindow(s'.fibers, g, k) && s'.fibers[g].pc.Marked?;
      }
      SameHeard(s, s', k);
    }
  }

  lemma AddHeard(s: State, step: Step, k: (nat, Event))
    requires Inv(s) && AddStep(step) && Apply(s, step).Went? && HeardAt(s, k)
    ensures HeardAt(Apply(s, step).s, k)
  {
    var f := s.hands[step.t].f;
    RunsIt(s, step.t);
    if step.AddBit? {
      MarkHeard(s, f, k);
    } else if step.AddScheduler? {
      BindHeard(s, f, k);
    } else if step.AddWork? {
      PlacedWaiters(s);
      StoreHeard(s, f, k);
    } else {
      FirstHeard(s, step, k);
    }
  }

  lemma FirstHeard(s: State, step: Step, k: (nat, Event))
    requires (step.AddLook? || step.AddCtl?) && Apply(s, step).Went? && HeardAt(s, k)
    ensures HeardAt(Apply(s, step).s, k)
  {
    AddOnly(s, step.t, step);
    MarkedMoves(s, Apply(s, step).s, s.hands[step.t].f, k);
    SameHeard(s, Apply(s, step).s, k);
  }

  lemma StepHeard(s: State, step: Step, k: (nat, Event))
    requires Inv(s) && Apply(s, step).Went? && HeardAt(s, k)
    ensures HeardAt(Apply(s, step).s, k)
  {
    if AddStep(step) {
      AddHeard(s, step, k);
    } else if RegionOf(s, step).Some? {
      RegionHeard(s, step, k);
    } else {
      OthersAside(s, step);
      MarkedSame(s.fibers, Apply(s, step).s.fibers, k);
      SameHeard(s, Apply(s, step).s, k);
    }
  }

  lemma {:induction false} RunHeard(s: State, steps: seq<Step>, k: (nat, Event))
    requires Inv(s) && HeardAt(s, k) && Run(s, steps).Went?
    ensures HeardAt(Run(s, steps).s, k)
    decreases |steps|
  {
    if steps != [] {
      ApplyKeeps(s, steps[0]);
      StepHeard(s, steps[0], k);
      RunHeard(Apply(s, steps[0]).s, steps[1..], k);
    }
  }

  /** Place p holds fiber f and will make the scheduler resume it. */
  predicate Reaches(s: State, p: Place, f: FiberId) {
    At(s, p) == Some(f) && (p.AtEvent? ==> Live(s, (p.fd, p.e)))
  }

  /** The wait is in its context and was not heard, and the context is not live. */
  predicate Unheard(s: State, w: nat) {
    w < |s.waits| && s.waits[w].fate.Waits? && !s.waits[w].heard && !Live(s, (s.waits[w].fd, s.waits[w].e))
  }

  lemma LastOfContext(s: State, f: FiberId)
    requires Inv(s) && f in s.fibers && s.fibers[f].place.AtEvent?
    ensures var p := s.fibers[f].place;
            && (p.fd, p.e) in s.stored && s.stored[(p.fd, p.e)].f == f && LastWait(s, f, s.stored[(p.fd, p.e)].w)
            && s.waits[s.stored[(p.fd, p.e)].w].fate.Waits? && s.waits[s.stored[(p.fd, p.e)].w].fd == p.fd
            && s.waits[s.stored[(p.fd, p.e)].w].e == p.e
  {
    assert At(s, s.fibers[f].place) == Some(f);
  }

  lemma WaitsAtEvent(s: State, f: FiberId, w: nat)
    requires Inv(s) && LastWait(s, f, w) && s.waits[w].fate.Waits? && f in s.fibers
    ensures s.fibers[f].place == AtEvent(s.waits[w].fd, s.waits[w].e)
  {
    var x := s.waits[w];
    assert At(s, AtEvent(x.fd, x.e)) == Some(f);
  }

  lemma OutOfReach(s: State, f: FiberId)
    requires Inv(s) && f in s.fibers && s.fibers[f].state.Ready?
    requires s.fibers[f].place.AtEvent? ==> HeardAt(s, (s.fibers[f].place.fd, s.fibers[f].place.e))
    ensures (forall p :: !Reaches(s, p, f)) <==>
            exists w: nat :: LastWait(s, f, w) && (Gone(s.waits[w].fate) || Unheard(s, w))
  {
    OnePlace(s, f);
    var p := s.fibers[f].place;
    assert Sound(s.fibers[f], f, s.hands);
    assert Real(p) ==> At(s, p) == Some(f);
    if p.AtEvent? {
      LastOfContext(s, f);
      var w := s.stored[(p.fd, p.e)].w;
      assert LastWait(s, f, w);
      assert Unheard(s, w) <==> !Live(s, (p.fd, p.e));
      assert Reaches(s, p, f) <==> Live(s, (p.fd, p.e));
    } else if !p.Lost? {
      assert Reaches(s, p, f);
      forall w: nat | LastWait(s, f, w) ensures !s.waits[w].fate.Waits? {
        if s.waits[w].fate.Waits? { WaitsAtEvent(s, f, w); }
      }
    }
  }

  /** Which wake-ups are lost: over every run, whatever falls into an addEvent, a fiber that has yielded is queued or
      taken for resumption, in the context of an event that can resume it, or sleeps on a timer that is set, and in one
      of these places only; it is in none of them if and only if its last wait was deleted, was replaced, or was not
      heard, its event having been taken away before the fiber was stored.  What is not heard is in reach only while
      another addEvent of the same event is between its bit and its second assertion. */
  lemma NoLostWakeUp(steps: seq<Step>, f: FiberId)
    requires Run(INIT, steps).Went? && f in Run(INIT, steps).s.fibers && Run(INIT, steps).s.fibers[f].state.Ready?
    ensures var s := Run(INIT, steps).s;
            && ((forall p :: !Reaches(s, p, f)) <==>
                exists w: nat :: LastWait(s, f, w) && (Gone(s.waits[w].fate) || Unheard(s, w)))
            && (forall p, q :: Reaches(s, p, f) && Reaches(s, q, f) ==> p == q)
            && (forall w: nat :: LastWait(s, f, w) && s.waits[w].fate.Waits? && !s.waits[w].heard ==>
                  Unheard(s, w) || MarkedOn(s.fibers, (s.waits[w].fd, s.waits[w].e)))
  {
    InitInv();
    RunKeeps(INIT, steps);
    var s := Run(INIT, steps).s;
    if s.fibers[f].place.AtEvent? {
      RunHeard(INIT, steps, (s.fibers[f].place.fd, s.fibers[f].place.e));
      LastOfContext(s, f);
    }
    OutOfReach(s, f);
    OnePlace(s, f);
    forall w: nat | LastWait(s, f, w) && s.waits[w].fate.Waits? && !s.waits[w].heard
      ensures Unheard(s, w) || MarkedOn(s.fibers, (s.waits[w].fd, s.waits[w].e))
    {
      WaitsAtEvent(s, f, w);
    }
  }

  // ---- where no rule is broken

  /** Every wait for event k was heard, and none was replaced. */
  ghost predicate AllHeard(waits: seq<Wait>, k: (nat, Event)) {
    forall w :: 0 <= w < |waits| && waits[w].fd == k.0 && waits[w].e == k.1 ==>
      waits[w].heard && !waits[w].fate.Replaced?
  }

  lemma KeptHeard(waits: seq<Wait>, waits': seq<Wait>, k: (nat, Event))
    requires AllHeard(waits, k) && WaitsKept(waits, waits')
    ensures AllHeard(waits', k)
  {
    forall w | 0 <= w < |waits'| && waits'[w].fd == k.0 && waits'[w].e == k.1
      ensures waits'[w].heard && !waits'[w].fate.Replaced?
    {
      assert Kept(waits[w], waits'[w]);
    }
  }

  lemma StoreReplaces(s: State, f: FiberId, w: nat)
    requires WaitersPlaced(s) && WaitsRegistered(s.stored, s.waits) && w < |s.waits|
    requires f in s.fibers && s.fibers[f].pc.Bound? && s.fibers[f].state.Running?
    ensures var c, s' := s.fibers[f].pc.c, Storing(s, f).s;
            && w < |s'.waits| && s'.waits[w].heard == s.waits[w].heard
            && s'.waits[w].fd == s.waits[w].fd && s'.waits[w].e == s.waits[w].e
            && (s'.waits[w].fate.Replaced? ==>
                  s.waits[w].fate.Replaced? ||
                  (s.waits[w].fd == c.fd && s.waits[w].e == c.e && (c.fd, c.e) in s.stored))
  {
  }

  lemma StoreAllHeard(s: State, f: FiberId, k: (nat, Event))
    requires Inv(s) && f in s.fibers && s.fibers[f].pc.Bound? && s.fibers[f].state.Running?
    requires AgreedAt(s, k) && AllHeard(s.waits, k)
    ensures AllHeard(Storing(s, f).s.waits, k)
  {
    var c, s' := s.fibers[f].pc.c, Storing(s, f).s;
    PlacedWaiters(s);
    StoreEffect(s, f);
    assert k == (c.fd, c.e) ==> InWindow(s.fibers, f, k);
    forall w | 0 <= w < |s'.waits| && s'.waits[w].fd == k.0 && s'.waits[w].e == k.1
      ensures s'.waits[w].heard && !s'.waits[w].fate.Replaced?
    {
      assert k == (k.0, k.1);
      if w < |s.waits| {
        StoreReplaces(s, f, w);
      }
    }
  }

  lemma StepAllHeard(s: State, step: Step, k: (nat, Event))
    requires Inv(s) && Apply(s, step).Went? && AgreedAt(s, k) && AllHeard(s.waits, k)
    ensures AllHeard(Apply(s, step).s.waits, k)
  {
    if step.AddWork? {
      RunsIt(s, step.t);
      StoreAllHeard(s, s.hands[step.t].f, k);
    } else if RegionOf(s, step).Some? {
      PlacedWaiters(s);
      RegionTook(s, step);
      if Apply(s, step).s.waits != s.waits { KeptHeard(s.waits, Apply(s, step).s.waits, k); }
    } else if AddStep(step) {
      AddWaits(s, step.t, step);
    } else {
      OthersAside(s, step);
    }
  }

  lemma AddWaits(s: State, t: ThreadId, step: Step)
    requires Runnable(s, t) && AddStep(step) && !step.AddWork? && Advance(s, t, step).Went?
    ensures Advance(s, t, step).s.waits == s.waits
  {
  }

  lemma {:induction false} RunAllHeard(s: State, steps: seq<Step>, k: (nat, Event))
    requires Inv(s) && AgreedAt(s, k) && AllHeard(s.waits, k) && Run(s, steps).Went? && !BreaksARule(s, steps, k)
    ensures AllHeard(Run(s, steps).s.waits, k) && AgreedAt(Run(s, steps).s, k)
    decreases |steps|
  {
    if steps != [] {
      Later(s, steps, k);
      ApplyKeeps(s, steps[0]);
      StepExact(s, steps[0], k);
      StepAllHeard(s, steps[0], k);
      RunAllHeard(Apply(s, steps[0]).s, steps[1..], k);
    }
  }

  /** A wait is heard, and not replaced, unless some step of the run breaks a rule at its event; and where none does,
      the fibers that wait for the event can be reached by it. */
  lemma HeardUnlessBroken(steps: seq<Step>, w: nat)
    requires Run(INIT, steps).Went? && w < |Run(INIT, steps).s.waits|
    ensures var s := Run(INIT, steps).s;
            var x := s.waits[w];
            && (!x.heard || x.fate.Replaced? ==> BreaksARule(INIT, steps, (x.fd, x.e)))
            && (!BreaksARule(INIT, steps, (x.fd, x.e)) && x.fate.Waits? ==>
                  Live(s, (x.fd, x.e)) && (x.fd, x.e) in s.stored && s.stored[(x.fd, x.e)] == Waiter(w, x.f))
  {
    InitInv();
    InitAgreed();
    RunKeeps(INIT, steps);
    var s := Run(INIT, steps).s;
    var k := (s.waits[w].fd, s.waits[w].e);
    assert AgreedAt(INIT, k);
    if !BreaksARule(INIT, steps, k) {
      RunAllHeard(INIT, steps, k);
    }
  }

  // ---- a region that falls between the bit and the work of an addEvent

  /** It goes wrong before the scheduler is stored, unless it is delEvent; otherwise it schedules nothing for the event,
      and the fiber goes on without its bit and with an empty context. */
  lemma StrikeOutcome(s: State, step: Step, g: FiberId, k: (nat, Event))
    requires Inv(s) && AgreedAt(s, k) && RegionOf(s, step).Some? && InWindow(s.fibers, g, k)
    requires var (fd, asked, ctl) := RegionOf(s, step).value; Hit(k, fd, asked) && Withdraw(s, fd, asked, ctl).Some?
    ensures var o := Apply(s, step);
            && (step.DelEvent? ==> o.Went?) && (!step.DelEvent? && s.fibers[g].pc.Marked? ==> o.Crash?)
            && (o.Went? ==> k !in o.s.bits && k !in o.s.schedulers && k !in o.s.stored
                            && g in o.s.fibers && o.s.fibers[g].pc == s.fibers[g].pc)
  {
    var (fd, asked, ctl) := RegionOf(s, step).value;
    assert k == (fd, k.1) && (k.1 == Io.Read || k.1 == Io.Write);
    if !step.DelEvent? {
      RegionFires(s, step);
    }
    if Apply(s, step).Went? {
      PlacedWaiters(s);
      RegionTook(s, step);
      WindowSame(s.fibers, Apply(s, step).s.fibers, g, k);
    }
  }

  lemma StruckParks(s: State, t: ThreadId, g: FiberId)
    requires Inv(s) && Runnable(s, t) && s.hands[t].f == g && s.fibers[g].pc.Bound?
    requires var k := (s.fibers[g].pc.c.fd, s.fibers[g].pc.c.e); k !in s.schedulers && k !in s.stored
    ensures var s1 := Storing(s, g).s;
            && Apply(s, AddWork(t)) == Went(s1) && Inv(s1) && s1.hands == s.hands && s1.schedulers == s.schedulers
            && g in s1.fibers && s1.fibers[g] == Fiber(Running(t), Parking(s.fibers[g].pc.c),
                                                       AtEvent(s.fibers[g].pc.c.fd, s.fibers[g].pc.c.e))
  {
    RunsIt(s, t);
    StoreKeeps(s, g);
  }

  lemma StruckYields(s: State, t: ThreadId, g: FiberId, c: Call)
    requires Inv(s) && Runnable(s, t) && s.hands[t].f == g && (c.fd, c.e) !in s.schedulers
    requires s.fibers[g] == Fiber(Running(t), Parking(c), AtEvent(c.fd, c.e))
    ensures var o := Apply(s, Yield(t));
            o.Went? && Inv(o.s) && Forsaken(o.s, g) && o.s.fibers[g].pc == Parked(c)
  {
    ApplyKeeps(s, Yield(t));
  }

  /** A fiber that goes on like that with its scheduler stored before is never resumed: it stores itself in a context
      without a scheduler and yields. */
  lemma StruckForGood(s: State, t: ThreadId, g: FiberId, after: seq<Step>)
    requires Inv(s) && Runnable(s, t) && s.hands[t].f == g && s.fibers[g].pc.Bound?
    requires var k := (s.fibers[g].pc.c.fd, s.fibers[g].pc.c.e); k !in s.schedulers && k !in s.stored
    requires Run(s, [AddWork(t)] + ([Yield(t)] + after)).Went?
    ensures var s' := Run(s, [AddWork(t)] + ([Yield(t)] + after)).s;
            Forsaken(s', g) && s'.fibers[g].state.Ready? && s'.fibers[g].pc == Parked(s.fibers[g].pc.c)
  {
    RunOn(s, AddWork(t), [Yield(t)] + after);
    StruckParks(s, t, g);
    var s1 := Storing(s, g).s;
    RunOn(s1, Yield(t), after);
    StruckYields(s1, t, g, s.fibers[g].pc.c);
    ForsakenForGood(Apply(s1, Yield(t)).s, after, g);
  }

  lemma RunOn(s: State, x: Step, rest: seq<Step>)
    ensures Run(s, [x] + rest) == Then(Apply(s, x), rest)
  {
    assert ([x] + rest)[1..] == rest;
  }
}
