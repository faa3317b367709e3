/** When the kernel watches what is registered.  addEvent holds no lock on its descriptor
    (src/fiber/iomanager.cpp:170-209), so a region under that lock may fall between its epoll_ctl and the setting of
    its bit.  The interest set of the kernel agrees with the bits exactly when none does; where one does, the event is
    watched by nobody, for good.  At the end are runs in which a region falls into an addEvent. */
module IoInterest {
  import opened IoEvents
  import opened Options

  /** The kernel watches exactly the events that are wanted for fd. */
  predicate Agree(wanted: set<Event>, k: Kernel, fd: nat) {
    if wanted == {} then fd !in k else fd in k && k[fd] == wanted
  }

  /** A region that leaves `left` agrees again exactly when it leaves whatever is armed. */
  lemma RegionAgree(registered: set<Event>, armed: set<Event>, left: set<Event>, k: Kernel, k': Kernel, fd: nat)
    requires Agree(registered + armed, k, fd) && left <= registered && fd in k
    requires k' == if left == {} then k - {fd} else k[fd := left]
    ensures Agree(left + armed, k', fd) <==> armed <= left
  {
    assert armed <= left ==> left + armed == left;
    assert left + armed == left ==> armed <= left;
    assert left + armed == {} ==> armed == {};
  }

  /** The epoll_ctl of addEvent agrees exactly when the events it saw are still registered, or armed by others. */
  lemma ArmAgree(registered: set<Event>, armed: set<Event>, seen: set<Event>, e: Event, k: Kernel, k': Kernel, fd: nat)
    requires Agree(registered + armed, k, fd) && e !in seen
    requires Ctl(k, if seen != {} then Mod else Add, fd, seen + {e}, true) == Some(k')
    ensures Agree(registered + (armed + {e}), k', fd) <==> seen <= registered + armed
  {
    var wanted := registered + (armed + {e});
    assert e in wanted && fd in k' && k'[fd] == seen + {e};
    if seen == {} {
      assert registered + armed == {};
      assert wanted == seen + {e};
    } else {
      var x :| x in seen;
      assert forall y :: y in wanted ==> y == e || y == x;
      assert wanted <= seen + {e};
      assert seen <= registered + armed ==> seen + {e} <= wanted;
      assert seen + {e} == wanted ==> seen <= registered + armed by {
        assert forall x :: x in seen ==> x in seen + {e} && x != e;
      }
    }
  }

  /** The events for which some call of addEvent has made its epoll_ctl and not yet set its bit. */
  function ArmedAt(adding: map<nat, Adding>, fd: nat): set<Event> {
    set t | t in adding && adding[t].Armed? && adding[t].fd == fd :: adding[t].e
  }

  predicate AgreesAt(s: State, fd: nat) {
    Agree(EventsAt(s, fd) + ArmedAt(s.adding, fd), s.kernel, fd)
  }

  /** The kernel watches exactly what is registered or about to be. */
  ghost predicate KernelAgrees(s: State) {
    forall fd: nat :: AgreesAt(s, fd)
  }

  /** The call takes effect on a descriptor in the middle of an addEvent: a region under the lock of the descriptor
      takes away the interest in an armed event; or addEvent's epoll_ctl goes by a bit that has been cleared since. */
  predicate Intrudes(s: State, c: Call, ctl: bool) {
    match Region(s, c)
    case Some((fd, asked)) => Acts(s, fd, asked, ctl) && !(ArmedAt(s.adding, fd) <= EventsAt(s, fd) - asked)
    case None =>
      c.AddCtlCall? && c.t in s.adding && s.adding[c.t].Looked? &&
      var a := s.adding[c.t];
      ctl && a.seen != {} && a.fd in s.kernel && !(a.seen <= EventsAt(s, a.fd) + ArmedAt(s.adding, a.fd))
  }

  lemma InitAgrees()
    ensures KernelAgrees(INIT)
  {
  }

  /** A call that changes nothing at the other descriptors leaves them as they were. */
  lemma OthersAgree(s: State, s': State, fd: nat, g: nat)
    requires AgreesAt(s, g) && g != fd && EventsAt(s', g) == EventsAt(s, g)
    requires ArmedAt(s'.adding, g) == ArmedAt(s.adding, g)
    requires g in s'.kernel <==> g in s.kernel
    requires g in s.kernel ==> s'.kernel[g] == s.kernel[g]
    ensures AgreesAt(s', g)
  {
  }

  lemma TookAgrees(s: State, s': State, fd: nat, asked: set<Event>)
    requires KernelAgrees(s) && fd < |s.fds| && fd in s.kernel && Took(s, s', fd, asked)
    ensures KernelAgrees(s') <==> ArmedAt(s.adding, fd) <= EventsAt(s, fd) - asked
  {
    assert AgreesAt(s, fd);
    RegionAgree(EventsAt(s, fd), ArmedAt(s.adding, fd), EventsAt(s, fd) - asked, s.kernel, s'.kernel, fd);
    assert AgreesAt(s', fd) <==> ArmedAt(s.adding, fd) <= EventsAt(s, fd) - asked;
    forall g: nat | g != fd ensures AgreesAt(s', g) {
      assert AgreesAt(s, g);
      OthersAgree(s, s', fd, g);
    }
  }

  lemma LookAgrees(s: State, t: nat, fd: nat, e: Event, work: Work)
    requires Inv(s) && KernelAgrees(s) && t !in s.adding && AddLook(s, t, fd, e, work).Went?
    ensures KernelAgrees(AddLook(s, t, fd, e, work).s)
  {
    var s' := AddLook(s, t, fd, e, work).s;
    forall g: nat ensures AgreesAt(s', g) {
      assert AgreesAt(s, g);
      LookedIsNotArmed(s.adding, s'.adding, t, g);
      assert EventsAt(s', g) == EventsAt(s, g);
    }
  }

  lemma LookedIsNotArmed(adding: map<nat, Adding>, adding': map<nat, Adding>, t: nat, g: nat)
    requires t !in adding && t in adding' && adding'[t].Looked? && adding' == adding[t := adding'[t]]
    ensures ArmedAt(adding', g) == ArmedAt(adding, g)
  {
    forall e | e in ArmedAt(adding, g) ensures e in ArmedAt(adding', g) {
      var u :| u in adding && adding[u].Armed? && adding[u].fd == g && adding[u].e == e;
      assert u in adding' && adding'[u] == adding[u];
    }
  }

  lemma CtlAgrees(s: State, t: nat, ctl: bool)
    requires Inv(s) && KernelAgrees(s) && t in s.adding && s.adding[t].Looked?
    ensures KernelAgrees(AddCtl(s, t, ctl).s) <==> !Intrudes(s, AddCtlCall(t), ctl)
  {
    var a, s' := s.adding[t], AddCtl(s, t, ctl).s;
    forall g: nat ensures AgreesAt(s, g)
                       && ArmedAt(s'.adding, g) ==
                          ArmedAt(s.adding, g) + if AddCtl(s, t, ctl).answer && g == a.fd then {a.e} else {}
    {
      ArmedGrows(s.adding, s'.adding, t, g);
    }
    if AddCtl(s, t, ctl).answer {
      ArmAgree(EventsAt(s, a.fd), ArmedAt(s.adding, a.fd), a.seen, a.e, s.kernel, s'.kernel, a.fd);
      assert AgreesAt(s', a.fd) <==> a.seen <= EventsAt(s, a.fd) + ArmedAt(s.adding, a.fd);
      forall g: nat | g != a.fd ensures AgreesAt(s', g) {
        OthersAgree(s, s', a.fd, g);
      }
    }
  }

  /** Thread t, whose call was not armed, is armed now or has given up. */
  lemma ArmedGrows(adding: map<nat, Adding>, adding': map<nat, Adding>, t: nat, g: nat)
    requires t in adding && !adding[t].Armed?
    requires adding' == adding - {t} || (t in adding' && adding' == adding[t := adding'[t]])
    ensures ArmedAt(adding', g) == ArmedAt(adding, g) +
              if t in adding' && adding'[t].Armed? && adding'[t].fd == g then {adding'[t].e} else {}
  {
    forall e | e in ArmedAt(adding, g) ensures e in ArmedAt(adding', g) {
      var u :| u in adding && adding[u].Armed? && adding[u].fd == g && adding[u].e == e;
      assert u in adding' && adding'[u] == adding[u];
    }
  }

  lemma BitAgrees(s: State, t: nat)
    requires Inv(s) && KernelAgrees(s) && t in s.adding && s.adding[t].Armed?
    ensures KernelAgrees(AddBit(s, t).s)
  {
    var a, s' := s.adding[t], AddBit(s, t).s;
    forall g: nat ensures AgreesAt(s', g) {
      assert AgreesAt(s, g);
      assert EventsAt(s', g) + ArmedAt(s'.adding, g) == EventsAt(s, g) + ArmedAt(s.adding, g) by {
        BitWanted(s.adding, s'.adding, t, g);
      }
    }
  }

  lemma BitWanted(adding: map<nat, Adding>, adding': map<nat, Adding>, t: nat, g: nat)
    requires t in adding && adding[t].Armed? && t in adding' && !adding'[t].Armed? && adding' == adding[t := adding'[t]]
    ensures ArmedAt(adding', g) + (if g == adding[t].fd then {adding[t].e} else {}) == ArmedAt(adding, g)
  {
    forall e | e in ArmedAt(adding, g) && !(g == adding[t].fd && e == adding[t].e) ensures e in ArmedAt(adding', g) {
      var u :| u in adding && adding[u].Armed? && adding[u].fd == g && adding[u].e == e;
      assert u in adding' && adding'[u] == adding[u];
    }
  }

  /** The scheduler and the work are no concern of the kernel. */
  lemma LaterAgrees(s: State, s': State, t: nat)
    requires KernelAgrees(s) && s'.kernel == s.kernel && t in s.adding && (s.adding[t].Marked? || s.adding[t].Bound?)
    requires s'.adding == s.adding - {t}
          || (t in s'.adding && s'.adding[t].Bound? && s'.adding == s.adding[t := s'.adding[t]])
    requires forall g: nat :: EventsAt(s', g) == EventsAt(s, g)
    ensures KernelAgrees(s')
  {
    forall g: nat ensures AgreesAt(s', g) {
      assert AgreesAt(s, g);
      ArmedGrows(s.adding, s'.adding, t, g);
    }
  }

  lemma RegionAgrees(s: State, c: Call, ctl: bool)
    requires Inv(s) && KernelAgrees(s) && Region(s, c).Some? && Step(s, c, ctl).Went?
    ensures KernelAgrees(Step(s, c, ctl).s) <==> !Intrudes(s, c, ctl)
  {
    var (fd, asked) := Region(s, c).value;
    RegionEffect(s, c, ctl);
    SameAgrees(s, Start(s, c));
    if Acts(s, fd, asked, ctl) {
      TookAgrees(Start(s, c), Step(s, c, ctl).s, fd, asked);
    }
  }

  /** One call keeps the kernel in step exactly when it does not intrude. */
  lemma StepAgrees(s: State, c: Call, ctl: bool)
    requires Inv(s) && KernelAgrees(s) && Step(s, c, ctl).Went?
    ensures KernelAgrees(Step(s, c, ctl).s) <==> !Intrudes(s, c, ctl)
  {
    match c
    case AddLookCall(t, fd, e, work) => LookAgrees(s, t, fd, e, work);
    case AddCtlCall(t) => CtlAgrees(s, t, ctl);
    case AddBitCall(t) => BitAgrees(s, t);
    case AddSchedulerCall(t) => LaterAgrees(s, Step(s, c, ctl).s, t);
    case AddWorkCall(t) => LaterAgrees(s, Step(s, c, ctl).s, t);
    case PollCall(_, _) => SameAgrees(s, Step(s, c, ctl).s);
    case _ => RegionAgrees(s, c, ctl);
  }

  lemma SameAgrees(s: State, s': State)
    requires KernelAgrees(s) && s'.fds == s.fds && s'.adding == s.adding && s'.kernel == s.kernel
    ensures KernelAgrees(s')
  {
    forall g: nat ensures AgreesAt(s', g) {
      assert AgreesAt(s, g);
    }
  }

  // ---- runs

  /** The state before the i-th call of a run that goes through. */
  lemma {:induction false} PrefixWent(s: State, calls: seq<(Call, bool)>, i: nat)
    requires Run(s, calls).Went? && i <= |calls|
    ensures Run(s, calls[..i]).Went?
    decreases |calls|
  {
    if i > 0 {
      RunFrom(s, calls, i - 1);
      PrefixWent(Step(s, calls[0].0, calls[0].1).s, calls[1..], i - 1);
    }
  }

  ghost predicate AgreesBefore(s: State, calls: seq<(Call, bool)>, i: nat)
    requires i <= |calls|
  {
    Run(s, calls[..i]).Went? && KernelAgrees(Run(s, calls[..i]).s)
  }

  predicate IntrudesAt(s: State, calls: seq<(Call, bool)>, i: nat)
    requires i < |calls|
  {
    Run(s, calls[..i]).Went? && Intrudes(Run(s, calls[..i]).s, calls[i].0, calls[i].1)
  }

  lemma Shifted(s: State, calls: seq<(Call, bool)>, i: nat)
    requires calls != [] && Step(s, calls[0].0, calls[0].1).Went? && 0 < i <= |calls|
    ensures var t := Step(s, calls[0].0, calls[0].1).s;
            && (AgreesBefore(s, calls, i) <==> AgreesBefore(t, calls[1..], i - 1))
            && (i < |calls| ==> (IntrudesAt(s, calls, i) <==> IntrudesAt(t, calls[1..], i - 1)))
  {
    RunFrom(s, calls, i - 1);
  }

  /** In a run that starts with kernel and bits in step they stay in step all the way if and only if no call
      intrudes. */
  lemma {:induction false} StaysInStep(s: State, calls: seq<(Call, bool)>)
    requires Inv(s) && KernelAgrees(s) && Run(s, calls).Went?
    ensures (forall i :: 0 <= i <= |calls| ==> AgreesBefore(s, calls, i))
       <==> (forall i :: 0 <= i < |calls| ==> !IntrudesAt(s, calls, i))
    decreases |calls|
  {
    assert AgreesBefore(s, calls, 0);
    if calls != [] {
      var t := Step(s, calls[0].0, calls[0].1).s;
      StepKeeps(s, calls[0].0, calls[0].1);
      StepAgrees(s, calls[0].0, calls[0].1);
      forall i: nat | 0 < i <= |calls|
        ensures AgreesBefore(s, calls, i) <==> AgreesBefore(t, calls[1..], i - 1)
        ensures i < |calls| ==> (IntrudesAt(s, calls, i) <==> IntrudesAt(t, calls[1..], i - 1))
      {
        Shifted(s, calls, i);
      }
      assert AgreesBefore(s, calls, 1) <==> !IntrudesAt(s, calls, 0);
      if KernelAgrees(t) {
        StaysInStep(t, calls[1..]);
        StaysFrom(s, t, calls);
      }
    }
  }

  lemma StaysFrom(s: State, t: State, calls: seq<(Call, bool)>)
    requires calls != [] && AgreesBefore(s, calls, 0) && !IntrudesAt(s, calls, 0)
    requires forall i: nat :: 0 < i <= |calls| ==> (AgreesBefore(s, calls, i) <==> AgreesBefore(t, calls[1..], i - 1))
    requires forall i: nat :: 0 < i < |calls| ==> (IntrudesAt(s, calls, i) <==> IntrudesAt(t, calls[1..], i - 1))
    requires (forall i :: 0 <= i <= |calls[1..]| ==> AgreesBefore(t, calls[1..], i))
        <==> (forall i :: 0 <= i < |calls[1..]| ==> !IntrudesAt(t, calls[1..], i))
    ensures (forall i :: 0 <= i <= |calls| ==> AgreesBefore(s, calls, i))
       <==> (forall i :: 0 <= i < |calls| ==> !IntrudesAt(s, calls, i))
  {
    forall i | 0 <= i <= |calls[1..]| ensures AgreesBefore(t, calls[1..], i) <==> AgreesBefore(s, calls, i + 1) {
    }
    forall i | 0 <= i < |calls[1..]| ensures IntrudesAt(t, calls[1..], i) <==> IntrudesAt(s, calls, i + 1) {
    }
  }

  /** Over every run: bits, contexts, count and kernel agree in every state, up to the calls of addEvent under way,
      if and only if no call intrudes on such a call. */
  lemma InterestExact(calls: seq<(Call, bool)>)
    requires Run(INIT, calls).Went?
    ensures (forall i :: 0 <= i <= |calls| ==> AgreesBefore(INIT, calls, i))
       <==> (forall i :: 0 <= i < |calls| ==> !IntrudesAt(INIT, calls, i))
  {
    InitInv();
    InitAgrees();
    StaysInStep(INIT, calls);
  }

  /** Without an intrusion the kernel watches exactly the bits of every descriptor that no addEvent is working on. */
  lemma WatchedExactly(calls: seq<(Call, bool)>, fd: nat, e: Event)
    requires Run(INIT, calls).Went? && forall i :: 0 <= i < |calls| ==> !IntrudesAt(INIT, calls, i)
    requires ArmedAt(Run(INIT, calls).s.adding, fd) == {}
    ensures var s := Run(INIT, calls).s;
            (fd in s.kernel && e in s.kernel[fd]) <==> (fd < |s.fds| && e in s.fds[fd].events)
  {
    InterestExact(calls);
    assert calls[..|calls|] == calls && AgreesBefore(INIT, calls, |calls|);
    assert AgreesAt(Run(INIT, calls).s, fd);
  }

  // ---- an event that nobody watches

  /** Something is registered for fd, the kernel does not know the descriptor, and no addEvent that saw the
      descriptor without events is under way. */
  ghost predicate Stuck(s: State, fd: nat) {
    && fd < |s.fds| && s.fds[fd].events != {} && fd !in s.kernel
    && (forall t :: t in s.adding && s.adding[t].fd == fd && s.adding[t].Looked? ==> s.adding[t].seen != {})
  }

  /** Neither scheduled nor deleted. */
  predicate Unserved(r: Registration, fd: nat) {
    r.fd == fd && (r.fate.Waits? || r.fate.Displaced?)
  }

  /** Still stuck, and nothing of the descriptor was served. */
  ghost predicate StillStuck(s: State, s': State, fd: nat)
    requires Stuck(s, fd)
  {
    && Stuck(s', fd) && s.fds[fd].events <= s'.fds[fd].events && |s.regs| <= |s'.regs|
    && forall id :: 0 <= id < |s.regs| && Unserved(s.regs[id], fd) ==> Unserved(s'.regs[id], fd)
  }

  /** What leaves a context was registered for it. */
  lemma EmptiedServes(s: State, g: nat, e: Event, call: bool, fate: Fate, fd: nat)
    requires Accounted(s) && g < |s.fds| && (g != fd || fate.Displaced?)
    ensures var regs := Emptied(s, g, e, call, fate).regs;
            |regs| == |s.regs| && forall id :: 0 <= id < |s.regs| && Unserved(s.regs[id], fd) ==> Unserved(regs[id], fd)
  {
  }

  lemma ResetServes(s: State, g: nat, e: Event, fiber: Fate, call: Fate, fd: nat)
    requires Accounted(s) && g < |s.fds| && g != fd && !fiber.Waits?
    requires fiber.Scheduled? ==> fiber.k == |s.scheduled|
    ensures var regs := Reset(s, g, e, fiber, call).regs;
            |regs| == |s.regs| && forall id :: 0 <= id < |s.regs| && Unserved(s.regs[id], fd) ==> Unserved(regs[id], fd)
  {
    EmptiedServes(s, g, e, false, fiber, fd);
    EmptiedKeeps(s, g, e, false, fiber);
    EmptiedServes(Emptied(s, g, e, false, fiber), g, e, true, call, fd);
  }

  lemma FireServes(s: State, g: nat, e: Event, fd: nat)
    requires Accounted(s) && g < |s.fds| && g != fd && Fire(s, g, e).Some?
    ensures var regs := Fire(s, g, e).value.regs;
            |regs| == |s.regs| && forall id :: 0 <= id < |s.regs| && Unserved(s.regs[id], fd) ==> Unserved(regs[id], fd)
  {
    var c, next := Context(s.fds[g], e), Scheduled(|s.scheduled|);
    ResetServes(s, g, e, if c.call.Some? then Displaced else next, next, fd);
  }

  lemma FireAllServes(s: State, g: nat, events: set<Event>, fd: nat)
    requires Accounted(s) && g < |s.fds| && g != fd && FireAll(s, g, events).Some?
    ensures var regs := FireAll(s, g, events).value.regs;
            |regs| == |s.regs| && forall id :: 0 <= id < |s.regs| && Unserved(s.regs[id], fd) ==> Unserved(regs[id], fd)
  {
    if Read in events {
      FireServes(s, g, Read, fd);
      FireKeeps(s, g, Read);
    }
    if Write in events {
      FireServes(if Read in events then Fire(s, g, Read).value else s, g, Write, fd);
    }
  }

  /** A region on another descriptor serves nothing of fd. */
  lemma RegionServes(s: State, c: Call, ctl: bool, fd: nat)
    requires Inv(s) && Region(s, c).Some? && c.fd != fd && Step(s, c, ctl).Went?
    ensures var regs := Step(s, c, ctl).s.regs;
            |regs| == |s.regs| && forall id :: 0 <= id < |s.regs| && Unserved(s.regs[id], fd) ==> Unserved(regs[id], fd)
  {
    if c.fd < |s.fds| {
      var events := s.fds[c.fd].events;
      var asked := Region(s, c).value.1;
      CtlAfter(s.kernel, c.fd, events - asked, ctl);
      var s1 := Start(s, c).(kernel := KernelAfter(s.kernel, c.fd, events - asked));
      SameSlots(s, s1);
      match c
      case DelCall(g, e) => ResetServes(s1, g, e, Deleted, Deleted, fd);
      case CancelCall(g, e) => if Fire(s1, g, e).Some? { FireServes(s1, g, e, fd); }
      case CancelAllCall(g) =>
        assert events - events == {};
        if FireAll(s1, g, events).Some? { FireAllServes(s1, g, events, fd); }
      case HandleCall(g, r) => if FireAll(s1, g, asked).Some? { FireAllServes(s1, g, asked, fd); }
    }
  }

  predicate AddCall(c: Call) {
    c.AddLookCall? || c.AddCtlCall? || c.AddBitCall? || c.AddSchedulerCall? || c.AddWorkCall?
  }

  lemma StuckWork(s: State, t: nat, fd: nat)
    requires Inv(s) && Stuck(s, fd) && t in s.adding && s.adding[t].Bound?
    ensures StillStuck(s, AddWork(s, t).s, fd)
  {
    var a := s.adding[t];
    EmptiedServes(s, a.fd, a.e, a.work.Call?, Displaced, fd);
  }

  lemma StuckAdding(s: State, c: Call, ctl: bool, fd: nat)
    requires Inv(s) && Stuck(s, fd) && Step(s, c, ctl).Went? && AddCall(c)
    ensures StillStuck(s, Step(s, c, ctl).s, fd)
    ensures c.AddCtlCall? && s.adding[c.t].fd == fd ==> !Step(s, c, ctl).answer
  {
    if c.AddWorkCall? {
      StuckWork(s, c.t, fd);
    }
  }

  lemma StuckTook(s: State, s': State, fd: nat, g: nat, asked: set<Event>)
    requires Stuck(s, fd) && g < |s.fds| && g != fd && Took(s, s', g, asked)
    ensures Stuck(s', fd) && s'.fds[fd] == s.fds[fd]
  {
  }

  /** A region on any descriptor. */
  lemma StuckRegion(s: State, c: Call, ctl: bool, fd: nat)
    requires Inv(s) && Stuck(s, fd) && Step(s, c, ctl).Went? && Region(s, c).Some?
    ensures StillStuck(s, Step(s, c, ctl).s, fd)
    ensures Region(s, c).value.0 == fd ==> !Step(s, c, ctl).answer
  {
    var (g, asked) := Region(s, c).value;
    RegionEffect(s, c, ctl);
    if Acts(s, g, asked, ctl) {
      StuckTook(Start(s, c), Step(s, c, ctl).s, fd, g, asked);
      RegionServes(s, c, ctl, fd);
    }
  }

  /** Every call on a stuck descriptor fails: addEvent, delEvent, cancelEvent, cancelAll and idle(), for want of an
      epoll_ctl that can succeed. */
  lemma StuckStep(s: State, c: Call, ctl: bool, fd: nat)
    requires Inv(s) && Stuck(s, fd) && Step(s, c, ctl).Went?
    ensures StillStuck(s, Step(s, c, ctl).s, fd)
    ensures Region(s, c).Some? && Region(s, c).value.0 == fd ==> !Step(s, c, ctl).answer
    ensures c.AddCtlCall? && s.adding[c.t].fd == fd ==> !Step(s, c, ctl).answer
  {
    if AddCall(c) {
      StuckAdding(s, c, ctl, fd);
    } else if Region(s, c).Some? {
      StuckRegion(s, c, ctl, fd);
    }
  }

  /** What is registered for a stuck descriptor stays there for good: whatever is called, none of it is ever scheduled
      or deleted. */
  lemma {:induction false} StuckForGood(s: State, calls: seq<(Call, bool)>, fd: nat)
    requires Inv(s) && Stuck(s, fd) && Run(s, calls).Went?
    ensures StillStuck(s, Run(s, calls).s, fd)
    decreases |calls|
  {
    if calls != [] {
      StepKeeps(s, calls[0].0, calls[0].1);
      StuckStep(s, calls[0].0, calls[0].1, fd);
      StuckForGood(Step(s, calls[0].0, calls[0].1).s, calls[1..], fd);
    }
  }

  /** A region that intrudes on the addEvent of an unregistered event takes the descriptor away from the kernel; and
      when that addEvent sets its bit, the descriptor is stuck. */
  lemma IntrusionStrands(s: State, c: Call, ctl: bool, t: nat)
    requires Inv(s) && Region(s, c).Some? && t in s.adding && s.adding[t].Armed?
    requires var fd := s.adding[t].fd;
             && Region(s, c).value.0 == fd && Acts(s, fd, Region(s, c).value.1, ctl)
             && s.adding[t].e !in s.fds[fd].events
             && (forall u :: u in s.adding && s.adding[u].fd == fd && s.adding[u].Looked? ==> s.adding[u].seen != {})
    requires Step(s, c, ctl).Went?
    ensures Step(Step(s, c, ctl).s, AddBitCall(t), true).Went?
    ensures Stuck(Step(Step(s, c, ctl).s, AddBitCall(t), true).s, s.adding[t].fd)
  {
    var fd, asked := s.adding[t].fd, Region(s, c).value.1;
    StepKeeps(s, c, ctl);
    RegionEffect(s, c, ctl);
    var x :| x in s.fds[fd].events * asked;
    OnlyOne(s.fds[fd].events, x, s.adding[t].e);
    assert s.fds[fd].events - asked == {};
  }

  /** There are two events. */
  lemma OnlyOne(events: set<Event>, x: Event, e: Event)
    requires x in events && e !in events
    ensures events == {x}
  {
    forall y | y in events ensures y == x {
      assert y == Read || y == Write;
    }
  }

  // ---- witnesses

  lemma RunStep(s: State, c: (Call, bool), rest: seq<(Call, bool)>)
    ensures Run(s, [c] + rest) == Then(Step(s, c.0, c.1), rest)
  {
    assert ([c] + rest)[1..] == rest;
  }

  /** The last three parts of addEvent. */
  function RestCalls(t: nat): seq<(Call, bool)> {
    [(AddBitCall(t), true)] + ([(AddSchedulerCall(t), true)] + [(AddWorkCall(t), true)])
  }

  function AddCalls(t: nat, fd: nat, e: Event, work: Work): seq<(Call, bool)> {
    [(AddLookCall(t, fd, e, work), true)] + ([(AddCtlCall(t), true)] + RestCalls(t))
  }

  lemma RunRest(s: State, t: nat, rest: seq<(Call, bool)>)
    requires Inv(s) && t in s.adding && s.adding[t].Armed? && AddRest(s, t).Went?
    ensures Run(s, RestCalls(t) + rest) == Run(AddRest(s, t).s, rest)
  {
    var bit, scheduler, work := (AddBitCall(t), true), (AddSchedulerCall(t), true), (AddWorkCall(t), true);
    assert RestCalls(t) + rest == [bit] + ([scheduler] + ([work] + rest));
    RunStep(s, bit, [scheduler] + ([work] + rest));
    RunStore(AddBit(s, t).s, t, rest);
  }

  lemma RunStore(s: State, t: nat, rest: seq<(Call, bool)>)
    requires |s.fds| >= INITIAL_SIZE && t in s.adding && s.adding[t].Marked? && s.adding[t].fd < |s.fds|
    requires AddScheduler(s, t).Went?
    ensures Run(s, [(AddSchedulerCall(t), true)] + ([(AddWorkCall(t), true)] + rest)) ==
            Run(AddWork(AddScheduler(s, t).s, t).s, rest)
  {
    RunStep(s, (AddSchedulerCall(t), true), [(AddWorkCall(t), true)] + rest);
    RunStep(AddScheduler(s, t).s, (AddWorkCall(t), true), rest);
  }

  lemma RunAdd(s: State, t: nat, fd: nat, e: Event, work: Work, rest: seq<(Call, bool)>)
    requires Inv(s) && t !in s.adding && AddEvent(s, t, fd, e, work, true).Went?
    requires AddEvent(s, t, fd, e, work, true).answer
    ensures Run(s, AddCalls(t, fd, e, work) + rest) == Run(AddEvent(s, t, fd, e, work, true).s, rest)
  {
    var look, ctl := (AddLookCall(t, fd, e, work), true), (AddCtlCall(t), true);
    assert AddCalls(t, fd, e, work) + rest == [look] + ([ctl] + (RestCalls(t) + rest));
    RunStep(s, look, [ctl] + (RestCalls(t) + rest));
    LookKeeps(s, t, fd, e, work);
    var s1 := AddLook(s, t, fd, e, work).s;
    RunStep(s1, ctl, RestCalls(t) + rest);
    CtlKeeps(s1, t, true);
    RunRest(AddCtl(s1, t, true).s, t, rest);
  }

  const READABLE := Report(true, false, false)

  /** Thread 0 is in the middle of adding READ of descriptor 0, after its epoll_ctl, and nothing else goes on. */
  ghost predicate Midway(s: State, work: Work) {
    && Inv(s) && Agreed(s) && s.adding == map[0 := Armed(0, Read, work)] && s.fds[0] == EMPTY
    && s.kernel == map[0 := {Read}] && s.scheduled == [] && s.polled == multiset{} && s.regs == []
  }

  /** The first two parts of addEvent, when nothing falls between them. */
  lemma Arms(s: State, t: nat, fd: nat, e: Event, work: Work, rest: seq<(Call, bool)>) returns (s': State)
    requires Inv(s) && Agreed(s) && t !in s.adding && fd < |s.fds| && e !in s.fds[fd].events
    requires fd in s.kernel <==> s.fds[fd].events != {}
    ensures Run(s, [(AddLookCall(t, fd, e, work), true)] + ([(AddCtlCall(t), true)] + rest)) == Run(s', rest)
    ensures Inv(s') && Agreed(s')
    ensures s' == s.(adding := s.adding[t := Armed(fd, e, work)], kernel := s.kernel[fd := s.fds[fd].events + {e}])
  {
    RunStep(s, (AddLookCall(t, fd, e, work), true), [(AddCtlCall(t), true)] + rest);
    LookKeeps(s, t, fd, e, work);
    LookAgreed(s, t, fd, e, work);
    var s1 := AddLook(s, t, fd, e, work).s;
    RunStep(s1, (AddCtlCall(t), true), rest);
    CtlKeeps(s1, t, true);
    CtlAgreed(s1, t, true);
    CtlOf(s, s1, t, fd, e, work, true);
    s' := AddCtl(s1, t, true).s;
  }

  lemma GetMidway(work: Work, rest: seq<(Call, bool)>) returns (s: State)
    ensures Run(INIT, [(AddLookCall(0, 0, Read, work), true)] + ([(AddCtlCall(0), true)] + rest)) == Run(s, rest)
    ensures Midway(s, work)
  {
    InitInv();
    InitAgreed();
    s := Arms(INIT, 0, 0, Read, work, rest);
    assert {} + {Read} == {Read};
  }

  /** epoll_wait reports the descriptor. */
  lemma Polls(s: State, rest: seq<(Call, bool)>) returns (s': State)
    requires Inv(s) && Agreed(s) && 0 in s.kernel && Read in s.kernel[0]
    ensures Run(s, [(PollCall(0, READABLE), true)] + rest) == Run(s', rest) && Inv(s') && Agreed(s')
    ensures s' == s.(polled := s.polled + multiset{(0, READABLE)})
  {
    RunStep(s, (PollCall(0, READABLE), true), rest);
    StepExact(s, PollCall(0, READABLE), true);
    s' := Step(s, PollCall(0, READABLE), true).s;
  }

  /** A report that idle() handles between the epoll_ctl of addEvent and the setting of its bit is dropped: the event
      is registered afterwards, and nothing was scheduled.  As the kernel reports a change only once (EPOLLET), what
      it waits for is then the next change. */
  lemma EarlyReportIsDropped(s: State, t: nat, r: Report, ctl: bool)
    requires Inv(s) && Agreed(s) && t in s.adding && s.adding[t].Armed? && EventsAt(s, s.adding[t].fd) == {}
    requires (s.adding[t].fd, r) in s.polled
    ensures var a := s.adding[t];
            var o := Run(s, [(HandleCall(a.fd, r), ctl)] + (RestCalls(t) + []));
            && o.Went? && o.s.scheduled == s.scheduled && o.s.kernel == s.kernel
            && o.s.polled == s.polled - multiset{(a.fd, r)} && EventsAt(o.s, a.fd) == {a.e}
  {
    var a, s1 := s.adding[t], s.(polled := s.polled - multiset{(s.adding[t].fd, r)});
    RunStep(s, (HandleCall(a.fd, r), ctl), RestCalls(t) + []);
    NothingToHandle(s, a.fd, r, ctl);
    PolledKeeps(s, s1.polled);
    PolledAgreed(s, s1);
    EarlyRest(s1, t);
  }

  lemma NothingToHandle(s: State, fd: nat, r: Report, ctl: bool)
    requires Known(s) && (fd, r) in s.polled && EventsAt(s, fd) == {}
    ensures Step(s, HandleCall(fd, r), ctl) == Went(s.(polled := s.polled - multiset{(fd, r)}), false)
  {
  }

  lemma EarlyRest(s: State, t: nat)
    requires Inv(s) && Agreed(s) && t in s.adding && s.adding[t].Armed? && EventsAt(s, s.adding[t].fd) == {}
    ensures var o := Run(s, RestCalls(t) + []);
            && o.Went? && o.s.scheduled == s.scheduled && o.s.kernel == s.kernel && o.s.polled == s.polled
            && EventsAt(o.s, s.adding[t].fd) == {s.adding[t].e}
  {
    RestKeeps(s, t);
    RunRest(s, t, []);
    assert {} + {s.adding[t].e} == {s.adding[t].e};
  }

  /** The run that comes to it: the descriptor is readable as soon as the kernel watches it, and another thread is in
      idle(). */
  lemma EarlyReport(work: Work)
    ensures var calls := [(AddLookCall(0, 0, Read, work), true)] + ([(AddCtlCall(0), true)] +
                         ([(PollCall(0, READABLE), true)] + ([(HandleCall(0, READABLE), true)] + (RestCalls(0) + []))));
            var o := Run(INIT, calls);
            o.Went? && o.s.scheduled == [] && o.s.polled == multiset{} && EventsAt(o.s, 0) == {Read}
  {
    var handle := [(HandleCall(0, READABLE), true)] + (RestCalls(0) + []);
    var s := GetMidway(work, [(PollCall(0, READABLE), true)] + handle);
    var s1 := Polls(s, handle);
    EarlyReportIsDropped(s1, 0, READABLE, true);
  }

  function Reader(work: Work, rest: seq<(Call, bool)>): seq<(Call, bool)> {
    [(AddLookCall(0, 0, Read, work), true)] + ([(AddCtlCall(0), true)] + ([(AddBitCall(0), true)] + rest))
  }

  /** The same with the bit set. */
  lemma GetMarked(work: Work, rest: seq<(Call, bool)>) returns (s: State)
    ensures Run(INIT, Reader(work, rest)) == Run(s, rest) && Inv(s) && Agreed(s)
    ensures s.adding == map[0 := Marked(0, Read, work)] && s.kernel == map[0 := {Read}]
    ensures s.fds[0] == EMPTY.(events := {Read}) && s.scheduled == [] && s.regs == []
  {
    var s0 := GetMidway(work, [(AddBitCall(0), true)] + rest);
    RunStep(s0, (AddBitCall(0), true), rest);
    BitKeeps(s0, 0);
    BitAgreed(s0, 0);
    s := AddBit(s0, 0).s;
    assert {} + {Read} == {Read};
  }

  lemma StruckReader(s: State)
    requires Inv(s) && Agreed(s) && InWindow(s.adding, 0, 0, Read) && 0 in s.kernel && (0, READABLE) in s.polled
    ensures var c := HandleCall(0, READABLE);
            && Region(s, c) == Some((0, {Read})) && Acts(s, 0, {Read}, true) && Enabled(s, c)
  {
    assert AgreedAt(s, 0, Read);
    assert RealEvents(READABLE, s.fds[0].events) == {Read} && Read in s.fds[0].events * {Read};
  }

  /** One reader of one socket, nothing else: idle() handles the readable socket when the bit is set and the scheduler
      is not stored yet, and follows the null pointer. */
  lemma OneReaderCrashes(work: Work)
    ensures Run(INIT, Reader(work, [(PollCall(0, READABLE), true)] + ([(HandleCall(0, READABLE), true)] + []))).Crash?
  {
    var handle := [(HandleCall(0, READABLE), true)] + [];
    var s := GetMarked(work, [(PollCall(0, READABLE), true)] + handle);
    var s1 := Polls(s, handle);
    RunStep(s1, (HandleCall(0, READABLE), true), []);
    StruckReader(s1);
    StrikeOutcome(s1, HandleCall(0, READABLE), true, 0);
  }

  /** The same with the scheduler stored. */
  lemma GetBound(work: Work, rest: seq<(Call, bool)>) returns (s: State)
    ensures Run(INIT, Reader(work, [(AddSchedulerCall(0), true)] + rest)) == Run(s, rest) && Inv(s) && Agreed(s)
    ensures s.adding == map[0 := Bound(0, Read, work)] && s.kernel == map[0 := {Read}] && s.fds[0].events == {Read}
    ensures s.scheduled == [] && s.regs == []
  {
    var s0 := GetMarked(work, [(AddSchedulerCall(0), true)] + rest);
    RunStep(s0, (AddSchedulerCall(0), true), rest);
    SchedulerKeeps(s0, 0);
    SchedulerAgreed(s0, 0);
    s := AddScheduler(s0, 0).s;
  }

  /** A registration that nobody can reach: it is in a context without a scheduler, its bit is clear, and the kernel
      does not know the descriptor. */
  ghost predicate Orphaned(s: State, fd: nat, e: Event, id: nat) {
    && fd < |s.fds| && e !in s.fds[fd].events && !Context(s.fds[fd], e).scheduler && fd !in s.kernel
    && id < |s.regs| && s.regs[id].fate.Waits? && s.regs[id].fd == fd && s.regs[id].e == e
  }

  lemma LostHandle(s: State, work: Work)
    requires Inv(s) && Agreed(s) && s.adding == map[0 := Bound(0, Read, work)] && s.kernel == map[0 := {Read}]
    requires (0, READABLE) in s.polled && s.fds[0].events == {Read}
    ensures var o := Step(s, HandleCall(0, READABLE), true);
            && o.Went? && Inv(o.s) && o.s.adding == s.adding && 0 !in o.s.kernel && o.s.regs == s.regs
            && o.s.scheduled == s.scheduled && Read !in o.s.fds[0].events && Context(o.s.fds[0], Read) == BARE
  {
    assert InWindow(s.adding, 0, 0, Read) && AgreedAt(s, 0, Read);
    StruckReader(s);
    StrikeOutcome(s, HandleCall(0, READABLE), true, 0);
    RegionEffect(s, HandleCall(0, READABLE), true);
    LostRegs(s);
  }

  lemma LostRegs(s: State)
    requires s.fds != [] && Context(s.fds[0], Read) == HALF && Step(s, HandleCall(0, READABLE), true).Went?
    ensures Step(s, HandleCall(0, READABLE), true).s.regs == s.regs
  {
  }

  lemma LostWork(s: State, work: Work)
    requires Inv(s) && s.adding == map[0 := Bound(0, Read, work)] && 0 !in s.kernel
    requires Read !in s.fds[0].events && Context(s.fds[0], Read) == BARE
    ensures var o := Run(s, [(AddWorkCall(0), true)] + []);
            o.Went? && o.s.scheduled == s.scheduled && Orphaned(o.s, 0, Read, |s.regs|)
  {
    RunStep(s, (AddWorkCall(0), true), []);
    OrphanFollows(s, 0);
  }

  /** One reader of one socket: idle() handles the readable socket between the scheduler and the fiber.  It schedules
      nothing, and the reader is left in a context that nobody reaches. */
  lemma OneReaderLost(work: Work)
    ensures var o := Run(INIT, Reader(work, [(AddSchedulerCall(0), true)] + ([(PollCall(0, READABLE), true)] +
                                      ([(HandleCall(0, READABLE), true)] + ([(AddWorkCall(0), true)] + [])))));
            o.Went? && o.s.scheduled == [] && Orphaned(o.s, 0, Read, 0)
  {
    var store := [(AddWorkCall(0), true)] + [];
    var handle := [(HandleCall(0, READABLE), true)] + store;
    var s := GetBound(work, [(PollCall(0, READABLE), true)] + handle);
    var s1 := Polls(s, handle);
    RunStep(s1, (HandleCall(0, READABLE), true), store);
    LostHandle(s1, work);
    LostWork(Step(s1, HandleCall(0, READABLE), true).s, work);
  }

  /** A call of addEvent that nothing falls into. */
  lemma Adds(s: State, t: nat, fd: nat, e: Event, work: Work, rest: seq<(Call, bool)>) returns (s': State)
    requires Inv(s) && Agreed(s) && t !in s.adding && fd < |s.fds| && e !in s.fds[fd].events
    requires fd in s.kernel <==> s.fds[fd].events != {}
    ensures Run(s, AddCalls(t, fd, e, work) + rest) == Run(s', rest) && Inv(s') && Agreed(s')
    ensures s' == AddedTo(s, fd, e, work)
  {
    AddKeeps(s, t, fd, e, work, true);
    RunAdd(s, t, fd, e, work, rest);
    s' := AddEvent(s, t, fd, e, work, true).s;
  }

  /** READ of descriptor 0 is registered, and nothing else. */
  lemma Reading(work: Work, rest: seq<(Call, bool)>) returns (s: State)
    ensures Run(INIT, AddCalls(0, 0, Read, work) + rest) == Run(s, rest) && Inv(s) && Agreed(s)
    ensures s.adding == map[] && s.polled == multiset{} && s.kernel == map[0 := {Read}] && s.fds[0].events == {Read}
  {
    InitInv();
    InitAgreed();
    s := Adds(INIT, 0, 0, Read, work, rest);
    assert {} + {Read} == {Read};
  }

  function RaceCalls(work: Work): seq<(Call, bool)> {
    [(AddLookCall(0, 0, Write, work), true)] + ([(AddCtlCall(0), true)] + ([(PollCall(0, READABLE), true)] +
    ([(HandleCall(0, READABLE), true)] + ([(AddBitCall(0), true)] + []))))
  }

  lemma HandleMidway(s: State, work: Work)
    requires Inv(s) && Agreed(s) && s.adding == map[0 := Armed(0, Write, work)] && s.fds[0].events == {Read}
    requires s.kernel == map[0 := {Read, Write}] && (0, READABLE) in s.polled
    ensures var o := Run(s, [(HandleCall(0, READABLE), true)] + ([(AddBitCall(0), true)] + []));
            o.Went? && Stuck(o.s, 0)
  {
    var handle, bit := HandleCall(0, READABLE), AddBitCall(0);
    RunStep(s, (handle, true), [(bit, true)] + []);
    StepExact(s, handle, true);
    assert RealEvents(READABLE, {Read}) == {Read};
    assert Read in s.fds[0].events * {Read};
    IntrusionStrands(s, handle, true, 0);
    RunStep(Step(s, handle, true).s, (bit, true), []);
  }

  lemma RaceFrom(s: State, work: Work)
    requires Inv(s) && Agreed(s) && s.adding == map[] && s.kernel == map[0 := {Read}] && s.fds[0].events == {Read}
    ensures Run(s, RaceCalls(work)).Went? && Stuck(Run(s, RaceCalls(work)).s, 0)
  {
    var handle := [(HandleCall(0, READABLE), true)] + ([(AddBitCall(0), true)] + []);
    var s1 := Arms(s, 0, 0, Write, work, [(PollCall(0, READABLE), true)] + handle);
    assert {Read} + {Write} == {Read, Write};
    var s2 := Polls(s1, handle);
    HandleMidway(s2, work);
  }

  /** READ is registered; thread 0 adds WRITE, and after its epoll_ctl idle() handles the readable descriptor: it sees
      READ alone, and takes the descriptor away from the kernel.  Then WRITE is registered, and nobody watches it. */
  lemma AddRace(work: Work)
    ensures Run(INIT, AddCalls(0, 0, Read, work) + RaceCalls(work)).Went?
    ensures Stuck(Run(INIT, AddCalls(0, 0, Read, work) + RaceCalls(work)).s, 0)
  {
    var s := Reading(work, RaceCalls(work));
    RaceFrom(s, work);
  }

  const BOTH := Report(true, true, false)

  /** READ and WRITE of descriptor 0 are registered. */
  lemma ReadingAndWriting(work: Work, rest: seq<(Call, bool)>) returns (s: State)
    ensures Run(INIT, AddCalls(0, 0, Read, work) + (AddCalls(0, 0, Write, work) + rest)) == Run(s, rest)
    ensures Inv(s) && Agreed(s)
    ensures s.kernel == map[0 := {Read, Write}] && s.fds[0].events == {Read, Write} && s.adding == map[]
  {
    var s0 := Reading(work, AddCalls(0, 0, Write, work) + rest);
    s := Adds(s0, 0, 0, Write, work, rest);
    assert {Read} + {Write} == {Read, Write};
  }

  lemma CancelThenHandle(s: State)
    requires Inv(s) && Agreed(s) && s.adding == map[] && s.kernel == map[0 := {Read, Write}]
    requires s.fds[0].events == {Read, Write} && (0, BOTH) in s.polled
    ensures Run(s, [(CancelCall(0, Write), true)] + ([(HandleCall(0, BOTH), true)] + [])).Crash?
  {
    var cancel, handle := CancelCall(0, Write), HandleCall(0, BOTH);
    RunStep(s, (cancel, true), [(handle, true)] + []);
    assert Write in s.fds[0].events * {Write} && !Window(s.adding, 0, Write);
    StepExact(s, cancel, true);
    RegionEffect(s, cancel, true);
    var s1 := Step(s, cancel, true).s;
    assert s1.fds[0].events == {Read} by { assert {Read, Write} - {Write} == {Read}; }
    RunStep(s1, (handle, true), []);
    RegionEffect(s1, handle, true);
    assert AgreedAt(s1, 0, Write) && Read in s1.fds[0].events * RealEvents(BOTH, {Read});
  }

  /** A report that idle() cannot handle: epoll_wait reports READ and WRITE; before idle() comes to it another thread
      cancels WRITE; idle() then triggers WRITE, which is not registered any more. */
  lemma StaleReportCrashes(work: Work)
    ensures Run(INIT, AddCalls(0, 0, Read, work) + (AddCalls(0, 0, Write, work) + ([(PollCall(0, BOTH), true)] +
                        ([(CancelCall(0, Write), true)] + ([(HandleCall(0, BOTH), true)] + []))))).Crash?
  {
    var poll, rest := PollCall(0, BOTH), [(CancelCall(0, Write), true)] + ([(HandleCall(0, BOTH), true)] + []);
    var s := ReadingAndWriting(work, [(poll, true)] + rest);
    RunStep(s, (poll, true), rest);
    StepExact(s, poll, true);
    CancelThenHandle(Step(s, poll, true).s);
  }
}
