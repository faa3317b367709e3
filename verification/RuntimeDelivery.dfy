/** Which fibers a region under the lock of a descriptor resumes, in what order, and which events stay registered:
    idle(), cancelEvent, cancelAll and the timeout of do_io push every fiber whose event they take to the task queue,
    and only delEvent takes a fiber out of its context without that. */
module RuntimeDelivery {
  import opened Options
  import opened Runtime
  import opened RuntimeWaits
  import opened RuntimeFaults
  import Io = IoEvents

  /** No fiber is between bit and work on fd, and the contexts of fd agree with their bits. */
  ghost predicate Undisturbed(s: State, fd: nat) {
    forall e :: AgreedAt(s, (fd, e)) && !Window(s.fibers, (fd, e))
  }

  /** What waking the fiber in context k pushes. */
  function Waking(s: State, k: (nat, Event)): Push
    requires k in s.stored
  {
    Push(ResumeFiber(s.stored[k].f), ByWait(s.stored[k].w))
  }

  /** The fiber of context k has been queued by one of the pushes from number n on. */
  predicate QueuedSince(s: State, s': State, k: (nat, Event), n: nat)
    requires k in s.stored
  {
    var f := s.stored[k].f;
    && f in s'.fibers && s'.fibers[f].place.InQueue? && n <= s'.fibers[f].place.n
    && s'.fibers[f].place.n in s'.queue && s'.queue[s'.fibers[f].place.n] == ResumeFiber(f)
  }

  /** The fibers that wait to read, or to write, or both, are resumed, and no others; the reader first. */
  ghost predicate Resumed(s: State, s': State, fd: nat, read: bool, write: bool) {
    && (read ==> (fd, Io.Read) in s.stored && QueuedSince(s, s', (fd, Io.Read), |s.pushed|))
    && (write ==> (fd, Io.Write) in s.stored && QueuedSince(s, s', (fd, Io.Write), |s.pushed|))
    && s'.pushed == s.pushed + (if read then [Waking(s, (fd, Io.Read))] else [])
                    + (if write then [Waking(s, (fd, Io.Write))] else [])
  }

  lemma TriggerWakes(s: State, fd: nat, e: Event)
    requires Inv(s) && (fd, e) in s.stored
    ensures var s' := Trigger(s, fd, e);
            && s'.pushed == s.pushed + [Waking(s, (fd, e))] && QueuedSince(s, s', (fd, e), |s.pushed|)
            && s'.bits == s.bits - {(fd, e)} && s'.stored == s.stored - {(fd, e)}
  {
    PlacedWaiters(s);
  }

  /** Triggering another event leaves a queued fiber where it is. */
  lemma StaysQueued(s: State, s1: State, k: (nat, Event), n: nat, fd: nat, e: Event)
    requires Inv(s1) && k in s.stored && QueuedSince(s, s1, k, n)
    ensures QueuedSince(s, Trigger(s1, fd, e), k, n)
  {
    PlacedWaiters(s1);
  }

  /** The writer is resumed after the reader. */
  lemma WriterFollows(s: State, s1: State, fd: nat)
    requires Inv(s1) && (fd, Io.Read) in s.stored && (fd, Io.Write) in s.stored && |s1.pushed| >= |s.pushed|
    requires (fd, Io.Write) in s1.stored && s1.stored[(fd, Io.Write)] == s.stored[(fd, Io.Write)]
    ensures var s' := Trigger(s1, fd, Io.Write);
            s'.pushed == s1.pushed + [Waking(s, (fd, Io.Write))] && QueuedSince(s, s', (fd, Io.Write), |s.pushed|)
  {
    TriggerWakes(s1, fd, Io.Write);
  }

  lemma TriggerBoth(s: State, fd: nat)
    requires Inv(s) && (fd, Io.Read) in s.stored && (fd, Io.Write) in s.stored
    ensures Resumed(s, Trigger(Trigger(s, fd, Io.Read), fd, Io.Write), fd, true, true)
  {
    var s1 := Trigger(s, fd, Io.Read);
    TriggerWakes(s, fd, Io.Read);
    TriggerKeeps(s, fd, Io.Read);
    StaysQueued(s, s1, (fd, Io.Read), |s.pushed|, fd, Io.Write);
    WriterFollows(s, s1, fd);
  }

  lemma TriggerBits(s: State, fd: nat, e: Event)
    ensures Trigger(s, fd, e).bits == s.bits - {(fd, e)}
  {
  }

  /** Which bits are gone. */
  lemma TriggerAllBits(s: State, fd: nat, asked: set<Event>)
    ensures forall k :: k in TriggerAll(s, fd, asked).bits <==> k in s.bits && !Hit(k, fd, asked)
  {
    TriggerBits(s, fd, Io.Read);
    TriggerBits(if Io.Read in asked then Trigger(s, fd, Io.Read) else s, fd, Io.Write);
    forall k ensures k in TriggerAll(s, fd, asked).bits <==> k in s.bits && !Hit(k, fd, asked) {
      assert k == (k.0, k.1) && (k.1 == Io.Read || k.1 == Io.Write);
    }
  }

  lemma TriggerAllWakes(s: State, fd: nat, asked: set<Event>)
    requires Inv(s) && forall e :: e in asked ==> (fd, e) in s.stored
    ensures Resumed(s, TriggerAll(s, fd, asked), fd, Io.Read in asked, Io.Write in asked)
  {
    if Io.Read in asked && Io.Write in asked {
      TriggerBoth(s, fd);
    } else if Io.Read in asked {
      TriggerWakes(s, fd, Io.Read);
    } else if Io.Write in asked {
      TriggerWakes(s, fd, Io.Write);
    }
  }

  /** Event by event. */
  lemma EventSets(a: set<Event>, b: set<Event>)
    ensures a * b == {} <==> !(Io.Read in a && Io.Read in b) && !(Io.Write in a && Io.Write in b)
    ensures a <= b <==> (Io.Read in a ==> Io.Read in b) && (Io.Write in a ==> Io.Write in b)
  {
    assert forall e :: e in a ==> e == Io.Read || e == Io.Write;
    if a * b == {} {
      assert Io.Read !in a * b && Io.Write !in a * b;
    } else {
      var e :| e in a * b;
      assert e == Io.Read || e == Io.Write;
    }
  }

  /** Where nobody is between bit and work, an event has a scheduler, and a fiber, exactly when it is registered. */
  lemma ReadyIff(s: State, fd: nat, asked: set<Event>)
    requires Undisturbed(s, fd)
    ensures Triggerable(s, fd, asked) <==> asked <= Registered(s.bits, fd)
    ensures asked <= Registered(s.bits, fd) ==> forall e :: e in asked ==> (fd, e) in s.stored
  {
    assert AgreedAt(s, (fd, Io.Read)) && AgreedAt(s, (fd, Io.Write));
    EventSets(asked, Registered(s.bits, fd));
    forall e | e in asked && asked <= Registered(s.bits, fd) ensures (fd, e) in s.stored {
      assert AgreedAt(s, (fd, e));
    }
  }

  /** A region that takes effect resumes the fibers of its events and clears their bits; or it goes wrong, since one of
      them is not registered; and a region that does not take effect changes nothing. */
  lemma FireWakes(s: State, fd: nat, asked: set<Event>, ctl: bool)
    requires Inv(s) && Undisturbed(s, fd)
    ensures var o, here := Fire(s, fd, asked, ctl), Registered(s.bits, fd);
            var acts := ctl && fd in s.kernel && here * asked != {};
            && (o.Crash? <==> acts && !(asked <= here)) && !o.Disabled?
            && (o.Went? && acts ==> Resumed(s, o.s, fd, Io.Read in asked, Io.Write in asked)
                                    && forall k :: k in o.s.bits <==> k in s.bits && !Hit(k, fd, asked))
            && (!acts ==> o == Went(s))
  {
    ReadyIff(s, fd, asked);
    var k := Withdraw(s, fd, asked, ctl);
    if k.Some? && asked <= Registered(s.bits, fd) {
      var s1 := s.(kernel := k.value);
      SetFreely(s, s1);
      TriggerAllWakes(s1, fd, asked);
      TriggerAllBits(s1, fd, asked);
    }
  }

  // ---- main results

  /** What idle() acts on, bit by bit. */
  lemma ActsOn(bits: set<(nat, Event)>, fd: nat, r: Io.Report)
    ensures var here := Registered(bits, fd);
            var asked := Io.RealEvents(r, here);
            var read, write := (fd, Io.Read) in bits, (fd, Io.Write) in bits;
            && (here * asked == {} <==> !(read && (r.input || r.failed)) && !(write && (r.output || r.failed)))
            && (asked <= here <==> (r.input ==> read) && (r.output ==> write))
            && (asked <= here ==> (Io.Read in asked <==> read && (r.input || r.failed))
                                  && (Io.Write in asked <==> write && (r.output || r.failed)))
  {
    var here := Registered(bits, fd);
    EventSets(here, Io.RealEvents(r, here));
    EventSets(Io.RealEvents(r, here), here);
    RegisteredIff(bits, fd, Io.Read);
    RegisteredIff(bits, fd, Io.Write);
  }

  /** idle() on a report for fd.  It resumes the fibers of the registered events that were reported, READ before WRITE,
      and of all registered events after an error or a hang-up, and clears their bits; nothing happens when epoll_ctl
      fails; and it goes wrong exactly when an event is reported that is not registered, along with one that is. */
  lemma ReadinessWakes(s: State, fd: nat, r: Io.Report, ctl: bool)
    requires Inv(s) && Undisturbed(s, fd)
    ensures var o := Apply(s, Readiness(fd, r, ctl));
            var read := (fd, Io.Read) in s.bits && (r.input || r.failed);
            var write := (fd, Io.Write) in s.bits && (r.output || r.failed);
            var acts := ctl && fd in s.kernel && (read || write);
            && !o.Disabled?
            && (o.Crash? <==>
                  acts && ((r.input && (fd, Io.Read) !in s.bits) || (r.output && (fd, Io.Write) !in s.bits)))
            && (!acts ==> o == Went(s))
            && (o.Went? && acts ==>
                  && Resumed(s, o.s, fd, read, write)
                  && forall k :: k in o.s.bits <==>
                       k in s.bits && !(read && k == (fd, Io.Read)) && !(write && k == (fd, Io.Write)))
  {
    var asked := Io.RealEvents(r, Registered(s.bits, fd));
    FireWakes(s, fd, asked, ctl);
    ActsOn(s.bits, fd, r);
    var o := Apply(s, Readiness(fd, r, ctl));
    if o.Went? && ctl && fd in s.kernel && Registered(s.bits, fd) * asked != {} {
      TakenBits(s, o.s, fd, asked);
    }
  }

  lemma TakenBits(s: State, s': State, fd: nat, asked: set<Event>)
    requires forall k :: k in s'.bits <==> k in s.bits && !Hit(k, fd, asked)
    ensures forall k :: k in s'.bits <==>
              k in s.bits && !(Io.Read in asked && k == (fd, Io.Read)) && !(Io.Write in asked && k == (fd, Io.Write))
  {
    forall k ensures Hit(k, fd, asked) <==>
      (Io.Read in asked && k == (fd, Io.Read)) || (Io.Write in asked && k == (fd, Io.Write))
    {
      assert k == (k.0, k.1) && (k.1 == Io.Read || k.1 == Io.Write);
    }
  }

  /** cancelEvent resumes the fiber of its event and clears the bit, or changes nothing. */
  lemma CancelWakes(s: State, fd: nat, e: Event, ctl: bool)
    requires Inv(s) && Undisturbed(s, fd)
    ensures var o := Apply(s, CancelEvent(fd, e, ctl));
            && o.Went?
            && if ctl && fd in s.kernel && (fd, e) in s.bits then Resumed(s, o.s, fd, e.Read?, e.Write?) else o.s == s
  {
    FireWakes(s, fd, {e}, ctl);
    RegisteredIff(s.bits, fd, e);
    EventSets(Registered(s.bits, fd), {e});
    EventSets({e}, Registered(s.bits, fd));
  }

  /** cancelAll resumes the fibers of all events, READ before WRITE, or changes nothing. */
  lemma CancelAllWakes(s: State, fd: nat, ctl: bool)
    requires Inv(s) && Undisturbed(s, fd)
    ensures var o := Apply(s, CancelAll(fd, ctl));
            var read, write := (fd, Io.Read) in s.bits, (fd, Io.Write) in s.bits;
            && o.Went?
            && if ctl && fd in s.kernel && (read || write) then Resumed(s, o.s, fd, read, write) else o.s == s
  {
    var here := Registered(s.bits, fd);
    FireWakes(s, fd, here, ctl);
    RegisteredIff(s.bits, fd, Io.Read);
    RegisteredIff(s.bits, fd, Io.Write);
    EventSets(here, here);
  }

  // ---- who is withdrawn

  /** One wait goes on to another fate, and only if it was waiting in context k. */
  ghost predicate FateAt(waits: seq<Wait>, waits': seq<Wait>, w: nat, k: (nat, Event), fate: Fate)
    requires w < |waits|
  {
    && |waits| <= |waits'|
    && waits'[w] == if waits[w].fate.Waits? && (waits[w].fd, waits[w].e) == k then waits[w].(fate := fate) else waits[w]
  }

  lemma SettledFate(s: State, k: (nat, Event), fate: Fate, w: nat)
    requires WaitsRegistered(s.stored, s.waits) && k in s.stored && w < |s.waits|
    ensures FateAt(s.waits, Settled(s.waits, s.stored[k].w, fate), w, k, fate)
  {
  }

  lemma TriggerFate(s: State, fd: nat, e: Event, w: nat)
    requires Inv(s) && w < |s.waits|
    ensures FateAt(s.waits, Trigger(s, fd, e).waits, w, (fd, e), Woke(|s.pushed|))
  {
    PlacedWaiters(s);
    if (fd, e) in s.stored {
      SettledFate(s, (fd, e), Woke(|s.pushed|), w);
    }
  }

  lemma EvictFate(s: State, fd: nat, e: Event, fate: Fate, w: nat)
    requires Inv(s) && w < |s.waits|
    ensures FateAt(s.waits, Evict(s, fd, e, fate).waits, w, (fd, e), fate)
  {
    PlacedWaiters(s);
    if (fd, e) in s.stored {
      SettledFate(s, (fd, e), fate, w);
    }
  }

  /** The wait is as it was, or has been consumed. */
  ghost predicate FateKept(waits: seq<Wait>, waits': seq<Wait>, w: nat)
    requires w < |waits|
  {
    && |waits| <= |waits'| && (waits'[w] == waits[w] || (waits[w].fate.Waits? && waits'[w].fate.Woke?))
    && waits'[w] == waits[w].(fate := waits'[w].fate)
  }

  lemma KeptTwice(waits: seq<Wait>, mid: seq<Wait>, waits': seq<Wait>, w: nat)
    requires w < |waits| && FateKept(waits, mid, w) && FateKept(mid, waits', w)
    ensures FateKept(waits, waits', w)
  {
  }

  lemma TriggerKept(s: State, fd: nat, e: Event, w: nat)
    requires Inv(s) && w < |s.waits|
    ensures Inv(Trigger(s, fd, e)) && FateKept(s.waits, Trigger(s, fd, e).waits, w)
  {
    TriggerFate(s, fd, e, w);
    TriggerKeeps(s, fd, e);
  }

  lemma FireFate(s: State, fd: nat, asked: set<Event>, ctl: bool, w: nat)
    requires Inv(s) && w < |s.waits| && Fire(s, fd, asked, ctl).Went?
    ensures FateKept(s.waits, Fire(s, fd, asked, ctl).s.waits, w)
  {
    var k := Withdraw(s, fd, asked, ctl);
    if k.Some? {
      var s1 := s.(kernel := k.value);
      SetFreely(s, s1);
      TriggerKept(s1, fd, Io.Read, w);
      var s2 := if Io.Read in asked then Trigger(s1, fd, Io.Read) else s1;
      TriggerKept(s2, fd, Io.Write, w);
      KeptTwice(s.waits, s2.waits, Trigger(s2, fd, Io.Write).waits, w);
    }
  }

  /** The step is a delEvent of event e of fd that takes effect. */
  predicate Withdraws(s: State, step: Step, fd: nat, e: Event) {
    step.DelEvent? && step.fd == fd && step.e == e && step.ctl && fd in s.kernel && (fd, e) in s.bits
  }

  /** The step stores another fiber in the context of event e of fd. */
  predicate Stores(s: State, step: Step, fd: nat, e: Event) {
    && step.AddWork? && Runnable(s, step.t) && s.fibers[s.hands[step.t].f].pc.Bound?
    && s.fibers[s.hands[step.t].f].pc.c.fd == fd && s.fibers[s.hands[step.t].f].pc.c.e == e
  }

  lemma DeleteFate(s: State, fd: nat, e: Event, ctl: bool, w: nat)
    requires Inv(s) && w < |s.waits|
    ensures var x, y := s.waits[w], DeleteEvent(s, fd, e, ctl).waits;
            && |y| == |s.waits|
            && y[w] == if x.fate.Waits? && Withdraws(s, DelEvent(fd, e, ctl), x.fd, x.e) then x.(fate := Dropped) else x
  {
    RegisteredIff(s.bits, fd, e);
    EventSets(Registered(s.bits, fd), {e});
    var k := Withdraw(s, fd, {e}, ctl);
    if k.Some? {
      SetFreely(s, s.(kernel := k.value));
      EvictFate(s.(kernel := k.value), fd, e, Dropped, w);
    }
  }

  /** What becomes of a wait in one step: deleted by the delEvent that withdraws its event, and by nothing else;
      replaced by the addEvent that stores another fiber in its context, and by nothing else; and what has been
      settled stays so. */
  ghost predicate FateExact(s: State, s': State, step: Step, w: nat)
    requires w < |s.waits|
  {
    var x := s.waits[w];
    && |s.waits| <= |s'.waits|
    && var y := s'.waits[w];
    && y == x.(fate := y.fate) && (!x.fate.Waits? ==> y.fate == x.fate)
    && (x.fate.Waits? ==> (y.fate.Dropped? <==> Withdraws(s, step, x.fd, x.e)))
    && (x.fate.Waits? ==> (y.fate.Replaced? <==> Stores(s, step, x.fd, x.e)))
  }

  lemma KeptExact(s: State, s': State, step: Step, w: nat)
    requires w < |s.waits| && FateKept(s.waits, s'.waits, w) && !step.DelEvent? && !step.AddWork?
    ensures FateExact(s, s', step, w)
  {
  }

  lemma RegionFate(s: State, step: Step, w: nat)
    requires Inv(s) && Apply(s, step).Went? && w < |s.waits|
    requires step.Readiness? || step.CancelEvent? || step.CancelAll? || step.DelEvent?
    ensures FateExact(s, Apply(s, step).s, step, w)
  {
    if step.DelEvent? {
      DeleteFate(s, step.fd, step.e, step.ctl, w);
    } else {
      var (fd, asked, ctl) := RegionOf(s, step).value;
      assert Apply(s, step) == Fire(s, fd, asked, ctl);
      FireFate(s, fd, asked, ctl, w);
      KeptExact(s, Apply(s, step).s, step, w);
    }
  }

  lemma StepFate(s: State, step: Step, w: nat)
    requires Inv(s) && Apply(s, step).Went? && w < |s.waits|
    ensures FateExact(s, Apply(s, step).s, step, w)
  {
    if step.DelEvent? || step.Readiness? || step.CancelEvent? || step.CancelAll? {
      RegionFate(s, step, w);
    } else if step.AddWork? {
      WorkFate(s, step.t, w);
    } else {
      if step.RunCallback? {
        CallbackFate(s, step.t, step.ctl, w);
      } else if AddStep(step) {
        AddWaits(s, step);
      } else {
        OthersAside(s, step);
      }
      KeptExact(s, Apply(s, step).s, step, w);
    }
  }

  lemma AddWaits(s: State, step: Step)
    requires AddStep(step) && !step.AddWork? && Apply(s, step).Went?
    ensures Apply(s, step).s.waits == s.waits
  {
  }

  lemma CallbackFate(s: State, t: ThreadId, ctl: bool, w: nat)
    requires Inv(s) && w < |s.waits| && Callback(s, t, ctl).Went?
    ensures FateKept(s.waits, Callback(s, t, ctl).s.waits, w)
  {
    var task := s.hands[t].task;
    if task.Timeout? {
      FreeKeeps(s, t);
      TimeoutFate(s.(hands := s.hands[t := Free]), task.io, task.fd, task.e, ctl, w);
    }
  }

  lemma TimeoutFate(s: State, io: nat, fd: nat, e: Event, ctl: bool, w: nat)
    requires Inv(s) && w < |s.waits| && TimedOut(s, io, fd, e, ctl).Went?
    ensures FateKept(s.waits, TimedOut(s, io, fd, e, ctl).s.waits, w)
  {
    if io in s.ios && !s.ios[io].cancelled {
      var s1 := s.(ios := s.ios[io := s.ios[io].(cancelled := true)]);
      Stays(s, s1);
      FireFate(s1, fd, {e}, ctl, w);
    }
  }

  lemma WorkFate(s: State, t: ThreadId, w: nat)
    requires Inv(s) && w < |s.waits| && Apply(s, AddWork(t)).Went?
    ensures FateExact(s, Apply(s, AddWork(t)).s, AddWork(t), w)
  {
    var f := s.hands[t].f;
    EvictFate(s, s.fibers[f].pc.c.fd, s.fibers[f].pc.c.e, Replaced, w);
  }

  /** Somewhere in the run wait number w is waiting, and a delEvent withdraws its event. */
  ghost predicate WithdrawnIn(s: State, steps: seq<Step>, w: nat)
    decreases |steps|
  {
    steps != [] && Apply(s, steps[0]).Went? &&
    (|| (w < |s.waits| && s.waits[w].fate.Waits? && Withdraws(s, steps[0], s.waits[w].fd, s.waits[w].e))
     || WithdrawnIn(Apply(s, steps[0]).s, steps[1..], w))
  }

  lemma {:induction false} RunFate(s: State, steps: seq<Step>, w: nat)
    requires Inv(s) && Run(s, steps).Went? && w < |Run(s, steps).s.waits|
    ensures Run(s, steps).s.waits[w].fate.Dropped? <==>
              (w < |s.waits| && s.waits[w].fate.Dropped?) || WithdrawnIn(s, steps, w)
    decreases |steps|
  {
    if steps != [] {
      ApplyKeeps(s, steps[0]);
      RunFate(Apply(s, steps[0]).s, steps[1..], w);
      if w < |s.waits| {
        StepFate(s, steps[0], w);
      } else {
        NewWaits(s, steps[0]);
      }
    }
  }

  /** Over every run: a wait is deleted if and only if a delEvent of its event took effect while it was waiting; no
      other operation takes a fiber out of its context without resuming it, but for an addEvent that replaces it. */
  lemma DroppedExactly(steps: seq<Step>, w: nat)
    requires Run(INIT, steps).Went? && w < |Run(INIT, steps).s.waits|
    ensures Run(INIT, steps).s.waits[w].fate.Dropped? <==> WithdrawnIn(INIT, steps, w)
  {
    InitInv();
    RunFate(INIT, steps, w);
  }

  /** A new wait is waiting. */
  lemma NewWaits(s: State, step: Step)
    requires Inv(s) && Apply(s, step).Went?
    ensures var s' := Apply(s, step).s;
            forall v :: |s.waits| <= v < |s'.waits| ==> s'.waits[v].fate.Waits?
  {
    if step.AddWork? {
      StoreWaits(s, step.t);
    } else if RegionOf(s, step).Some? {
      PlacedWaiters(s);
      RegionTook(s, step);
    } else if AddStep(step) {
      AddWaits(s, step);
    } else {
      OthersAside(s, step);
    }
  }

  lemma StoreWaits(s: State, t: ThreadId)
    requires Inv(s) && Apply(s, AddWork(t)).Went?
    ensures var s' := Apply(s, AddWork(t)).s;
            |s'.waits| == |s.waits| + 1 && s'.waits[|s.waits|].fate.Waits?
  {
  }
}
