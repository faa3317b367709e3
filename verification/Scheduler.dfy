/** The task queue and the worker threads of the scheduler (src/fiber/scheduler.cpp and
    include/fishjoy/fiber/scheduler.hpp) as a state machine.  A step is a lock-protected region of Scheduler::run,
    an update of an atomic counter, or the end of a resumed task. */
module Schedulers {
  import opened Options

  type ThreadId = nat
  type FiberId = nat

  /** NoWork is a task whose fiber and callback are both null; schedule drops it. */
  datatype Work = NoWork | FiberWork(f: FiberId) | CallbackWork(c: nat)
  datatype Pin = AnyThread | On(t: ThreadId)

  /** `id` numbers the accepted tasks in order; the program has no such field. */
  datatype Task = Task(id: nat, work: Work, pin: Pin)

  /** Where a thread is in Scheduler::run.
      Scanning: about to look for a task.  InHand: has taken one and has not yet given its count back.
      NoTask: found none.  Idling: counted as idle, about to test stopping().  Leaving: back from the idle fiber. */
  datatype Phase = Scanning | InHand(task: Task) | NoTask | Idling | Leaving | Exited

  /** `accepted` and `done` (which thread ran the task) are history; `ended` are the threads whose idle fiber has
      terminated. */
  datatype State = State(tasks: seq<Task>, phase: map<ThreadId, Phase>, ended: set<ThreadId>,
                         active: int, idle: int, stopping: bool,
                         accepted: seq<Task>, done: map<nat, ThreadId>)

  /** Who calls schedule: a task in the hands of a thread, or somebody else. */
  datatype Caller = Outside | TaskOn(t: ThreadId)

  /** `running` are the fibers that the scan finds in state RUNNING: any set. */
  datatype Event =
    | Start(t: ThreadId)
    | Schedule(caller: Caller, work: Work, pin: Pin)
    | Scan(t: ThreadId, running: set<FiberId>)
    | Finish(t: ThreadId)
    | EnterIdle(t: ThreadId)
    | TestStop(t: ThreadId)
    | LeaveIdle(t: ThreadId)
    | Stop

  predicate Elsewhere(task: Task, t: ThreadId) {
    task.pin.On? && task.pin.t != t
  }

  /** What the scan of thread t takes. */
  predicate Eligible(task: Task, t: ThreadId, running: set<FiberId>) {
    !Elsewhere(task, t) && !(task.work.FiberWork? && task.work.f in running)
  }

  /** The first eligible entry from `from` on, or the length. */
  function FirstEligible(tasks: seq<Task>, t: ThreadId, running: set<FiberId>, from: nat): (k: nat)
    requires from <= |tasks|
    ensures from <= k <= |tasks|
    ensures forall i :: from <= i < k ==> !Eligible(tasks[i], t, running)
    ensures k < |tasks| ==> Eligible(tasks[k], t, running)
    decreases |tasks| - from
  {
    if from == |tasks| || Eligible(tasks[from], t, running) then from
    else FirstEligible(tasks, t, running, from + 1)
  }

  function Without(tasks: seq<Task>, k: nat): seq<Task>
    requires k < |tasks|
  {
    tasks[..k] + tasks[k + 1..]
  }

  /** Scheduler::stopping. */
  predicate Stopped(s: State) {
    s.stopping && s.tasks == [] && s.active == 0
  }

  function Moved(s: State, t: ThreadId, p: Phase): State {
    s.(phase := s.phase[t := p])
  }

  function Accept(s: State, work: Work, pin: Pin): State {
    if work.NoWork? then s
    else
      var task := Task(|s.accepted|, work, pin);
      s.(tasks := s.tasks + [task], accepted := s.accepted + [task])
  }

  /** The locked region at the head of run's loop. */
  function Take(s: State, t: ThreadId, running: set<FiberId>): State {
    var k := FirstEligible(s.tasks, t, running, 0);
    if k == |s.tasks| then Moved(s, t, NoTask)
    else Moved(s, t, InHand(s.tasks[k])).(tasks := Without(s.tasks, k), active := s.active + 1)
  }

  /** None: the event cannot happen here. */
  function Step(s: State, e: Event): (r: Option<State>)
    ensures r.Some? ==> s.accepted <= r.value.accepted
  {
    match e
    case Start(t) => if t in s.phase then None else Some(Moved(s, t, Scanning))
    case Schedule(caller, work, pin) =>
      if caller.TaskOn? && !(caller.t in s.phase && s.phase[caller.t].InHand?) then None else Some(Accept(s, work, pin))
    case Scan(t, running) => if At(s, t, Scanning) then Some(Take(s, t, running)) else None
    case Finish(t) =>
      if t in s.phase && s.phase[t].InHand?
      then Some(Moved(s, t, Scanning).(active := s.active - 1, done := s.done[s.phase[t].task.id := t]))
      else None
    case EnterIdle(t) =>
      if !At(s, t, NoTask) then None
      else if t in s.ended then Some(Moved(s, t, Exited))
      else Some(Moved(s, t, Idling).(idle := s.idle + 1))
    case TestStop(t) =>
      if !At(s, t, Idling) then None
      else Some(Moved(s, t, Leaving).(ended := if Stopped(s) then s.ended + {t} else s.ended))
    case LeaveIdle(t) => if At(s, t, Leaving) then Some(Moved(s, t, Scanning).(idle := s.idle - 1)) else None
    case Stop => Some(s.(stopping := true))
  }

  predicate At(s: State, t: ThreadId, p: Phase) {
    t in s.phase && s.phase[t] == p
  }

  const INIT := State([], map[], {}, 0, 0, false, [], map[])

  function Run(s: State, events: seq<Event>): Option<State>
    decreases |events|
  {
    if events == [] then Some(s)
    else
      match Step(s, events[0])
      case None => None
      case Some(t) => Run(t, events[1..])
  }

  // ---- what every run keeps

  ghost function Busy(s: State): set<ThreadId> {
    set t | t in s.phase && s.phase[t].InHand?
  }

  ghost function Idle(s: State): set<ThreadId> {
    set t | t in s.phase && (s.phase[t].Idling? || s.phase[t].Leaving?)
  }

  ghost predicate Queued(s: State, id: nat) {
    exists i :: 0 <= i < |s.tasks| && s.tasks[i].id == id
  }

  ghost predicate HeldBy(s: State, t: ThreadId, id: nat) {
    t in s.phase && s.phase[t].InHand? && s.phase[t].task.id == id
  }

  ghost predicate Held(s: State, id: nat) {
    exists t :: HeldBy(s, t, id)
  }

  /** An accepted task, unchanged since it was accepted. */
  ghost predicate Genuine(s: State, task: Task) {
    task.id < |s.accepted| && s.accepted[task.id] == task
  }

  ghost predicate Numbered(s: State) {
    forall i :: 0 <= i < |s.accepted| ==> s.accepted[i].id == i && !s.accepted[i].work.NoWork?
  }

  /** The queue keeps the order of acceptance. */
  ghost predicate InOrder(s: State) {
    && (forall i :: 0 <= i < |s.tasks| ==> Genuine(s, s.tasks[i]))
    && (forall i, j :: 0 <= i < j < |s.tasks| ==> s.tasks[i].id < s.tasks[j].id)
  }

  ghost predicate InHands(s: State) {
    && (forall t :: t in s.phase && s.phase[t].InHand? ==>
          Genuine(s, s.phase[t].task) && !Elsewhere(s.phase[t].task, t))
    && (forall t, u :: t in s.phase && u in s.phase && t != u && s.phase[t].InHand? && s.phase[u].InHand? ==>
          s.phase[t].task.id != s.phase[u].task.id)
  }

  ghost predicate Finished(s: State) {
    forall id :: id in s.done ==> id < |s.accepted| && !Elsewhere(s.accepted[id], s.done[id])
  }

  /** Every accepted task is in one place and one only. */
  ghost predicate OnePlace(s: State) {
    && (forall id :: 0 <= id < |s.accepted| ==> Queued(s, id) || Held(s, id) || id in s.done)
    && (forall id :: !(Queued(s, id) && Held(s, id)))
    && (forall id :: id in s.done ==> !Queued(s, id) && !Held(s, id))
  }

  ghost predicate Counted(s: State) {
    s.active == |Busy(s)| && s.idle == |Idle(s)|
  }

  ghost predicate Inv(s: State) {
    Numbered(s) && InOrder(s) && InHands(s) && Finished(s) && OnePlace(s) && Counted(s)
  }

  lemma InitInv()
    ensures Inv(INIT)
  {
    assert Busy(INIT) == {} && Idle(INIT) == {};
  }

  /** Every task is where it was. */
  ghost predicate SamePlaces(s: State, s': State) {
    && s'.accepted == s.accepted && s'.tasks == s.tasks && s'.done == s.done
    && (forall t, id :: HeldBy(s', t, id) <==> HeldBy(s, t, id))
  }

  lemma SamePlacesKeeps(s: State, s': State)
    requires Numbered(s) && InOrder(s) && Finished(s) && OnePlace(s) && SamePlaces(s, s')
    ensures Numbered(s') && InOrder(s') && Finished(s') && OnePlace(s')
  {
    assert forall id :: Queued(s', id) <==> Queued(s, id);
  }

  /** A thread that moves between phases without a task touches no task. */
  lemma MovedKeeps(s: State, s': State, t: ThreadId, p: Phase)
    requires Inv(s) && (t in s.phase ==> !s.phase[t].InHand?) && !p.InHand?
    requires s' == Moved(s, t, p).(ended := s'.ended, idle := s'.idle)
    requires s'.idle - s.idle == (if p.Idling? || p.Leaving? then 1 else 0) - (if t in Idle(s) then 1 else 0)
    ensures Inv(s')
  {
    MovedSets(s, s', t, p);
    MovedHands(s, s', t, p);
    SamePlacesKeeps(s, s');
  }

  lemma OneMoreOrLess(a: set<ThreadId>, t: ThreadId)
    ensures |a + {t}| == |a| + if t in a then 0 else 1
    ensures |a - {t}| == |a| - if t in a then 1 else 0
  {
    if t in a {
      assert a + {t} == a;
    } else {
      assert a - {t} == a;
    }
  }

  /** How the sets that the counters count change when a thread changes its phase. */
  lemma MovedBusy(s: State, s': State, t: ThreadId, p: Phase)
    requires s'.phase == s.phase[t := p]
    ensures Busy(s') == if p.InHand? then Busy(s) + {t} else Busy(s) - {t}
  {
  }

  lemma MovedIdle(s: State, s': State, t: ThreadId, p: Phase)
    requires s'.phase == s.phase[t := p]
    ensures Idle(s') == if p.Idling? || p.Leaving? then Idle(s) + {t} else Idle(s) - {t}
  {
  }

  lemma MovedSets(s: State, s': State, t: ThreadId, p: Phase)
    requires s'.phase == s.phase[t := p]
    ensures |Busy(s')| - |Busy(s)| == (if p.InHand? then 1 else 0) - (if t in Busy(s) then 1 else 0)
    ensures |Idle(s')| - |Idle(s)| == (if p.Idling? || p.Leaving? then 1 else 0) - (if t in Idle(s) then 1 else 0)
  {
    MovedBusy(s, s', t, p);
    MovedIdle(s, s', t, p);
    OneMoreOrLess(Busy(s), t);
    OneMoreOrLess(Idle(s), t);
  }

  lemma MovedHands(s: State, s': State, t: ThreadId, p: Phase)
    requires InHands(s) && (t in s.phase ==> !s.phase[t].InHand?) && !p.InHand?
    requires s'.phase == s.phase[t := p] && s'.accepted == s.accepted
    ensures InHands(s') && forall u, id :: HeldBy(s', u, id) <==> HeldBy(s, u, id)
  {
  }

  /** One more task is accepted, and queued behind the others. */
  lemma AcceptPlaces(s: State, work: Work, pin: Pin)
    requires Numbered(s) && InOrder(s) && !work.NoWork?
    ensures var s' := Accept(s, work, pin);
            && Numbered(s') && InOrder(s') && s.accepted <= s'.accepted
            && forall id :: Queued(s', id) <==> Queued(s, id) || id == |s.accepted|
  {
    var s' := Accept(s, work, pin);
    var n, m := |s.tasks|, |s.accepted|;
    assert s'.tasks[n] == Task(m, work, pin) && forall i :: 0 <= i < n ==> s'.tasks[i] == s.tasks[i];
    forall id ensures Queued(s', id) <==> Queued(s, id) || id == m {
      if Queued(s, id) {
        var i :| 0 <= i < |s.tasks| && s.tasks[i].id == id;
        assert s'.tasks[i].id == id;
      }
    }
  }

  lemma AcceptKeeps(s: State, work: Work, pin: Pin)
    requires Inv(s)
    ensures Inv(Accept(s, work, pin))
  {
    var s' := Accept(s, work, pin);
    if !work.NoWork? {
      AcceptPlaces(s, work, pin);
      assert forall t, id :: HeldBy(s', t, id) <==> HeldBy(s, t, id);
      assert Busy(s') == Busy(s) && Idle(s') == Idle(s);
      assert !Held(s, |s.accepted|);
    }
  }

  lemma WithoutAt(tasks: seq<Task>, k: nat, i: nat)
    requires k < |tasks| && i < |tasks| - 1
    ensures |Without(tasks, k)| == |tasks| - 1 && Without(tasks, k)[i] == tasks[if i < k then i else i + 1]
  {
  }

  /** Taking entry k out of the queue leaves the other entries, in their order. */
  lemma WithoutKeeps(s: State, s': State, k: nat)
    requires InOrder(s) && k < |s.tasks| && s'.tasks == Without(s.tasks, k) && s'.accepted == s.accepted
    ensures InOrder(s')
    ensures forall id :: Queued(s', id) <==> Queued(s, id) && id != s.tasks[k].id
  {
    forall i | 0 <= i < |s'.tasks| ensures s'.tasks[i] == s.tasks[if i < k then i else i + 1] {
      WithoutAt(s.tasks, k, i);
    }
    forall id ensures Queued(s', id) <==> Queued(s, id) && id != s.tasks[k].id {
      if Queued(s, id) && id != s.tasks[k].id {
        var i :| 0 <= i < |s.tasks| && s.tasks[i].id == id;
        WithoutAt(s.tasks, k, if i < k then i else i - 1);
      }
    }
  }

  lemma TakeKeeps(s: State, t: ThreadId, running: set<FiberId>)
    requires Inv(s) && At(s, t, Scanning)
    ensures Inv(Take(s, t, running))
  {
    var k := FirstEligible(s.tasks, t, running, 0);
    var s' := Take(s, t, running);
    if k == |s.tasks| {
      MovedKeeps(s, s', t, NoTask);
    } else {
      var id := s.tasks[k].id;
      WithoutKeeps(s, s', k);
      assert Queued(s, id);
      MovedSets(s, s', t, InHand(s.tasks[k]));
      HandsOver(s, s', t, id);
    }
  }

  /** Thread t, which had nothing in hand, now holds task id. */
  lemma HandsOver(s: State, s': State, t: ThreadId, id: nat)
    requires t in s.phase && !s.phase[t].InHand? && !Held(s, id) && InHands(s)
    requires t in s'.phase && s'.phase == s.phase[t := s'.phase[t]] && HeldBy(s', t, id)
    requires s'.accepted == s.accepted && Genuine(s, s'.phase[t].task) && !Elsewhere(s'.phase[t].task, t)
    ensures forall x :: Held(s', x) <==> Held(s, x) || x == id
    ensures InHands(s')
  {
    forall x | Held(s, x) ensures Held(s', x) {
      var u :| HeldBy(s, u, x);
      assert HeldBy(s', u, x);
    }
    forall x | Held(s', x) ensures Held(s, x) || x == id {
      var u :| HeldBy(s', u, x);
      assert u != t ==> HeldBy(s, u, x);
    }
    forall u | u in s.phase && s.phase[u].InHand? ensures s.phase[u].task.id != id {
      assert HeldBy(s, u, s.phase[u].task.id);
    }
  }

  /** Thread t gives away what it had in hand. */
  lemma HandsBack(s: State, s': State, t: ThreadId, id: nat)
    requires InHands(s) && HeldBy(s, t, id) && s'.phase == s.phase[t := Scanning] && s'.accepted == s.accepted
    ensures forall x :: Held(s', x) <==> Held(s, x) && x != id
    ensures InHands(s')
  {
    forall x ensures Held(s', x) <==> Held(s, x) && x != id {
      if Held(s, x) && x != id {
        var u :| HeldBy(s, u, x);
        assert HeldBy(s', u, x);
      }
      if Held(s', x) {
        var u :| HeldBy(s', u, x);
        assert HeldBy(s, u, x);
      }
    }
  }

  lemma FinishKeeps(s: State, t: ThreadId)
    requires Inv(s) && t in s.phase && s.phase[t].InHand?
    ensures Inv(Step(s, Finish(t)).value)
  {
    var s' := Step(s, Finish(t)).value;
    var id := s.phase[t].task.id;
    assert HeldBy(s, t, id) && Genuine(s, s.phase[t].task);
    MovedSets(s, s', t, Scanning);
    HandsBack(s, s', t, id);
    assert forall x :: Queued(s', x) <==> Queued(s, x);
  }

  lemma StepKeeps(s: State, e: Event)
    requires Inv(s) && Step(s, e).Some?
    ensures Inv(Step(s, e).value)
  {
    var s' := Step(s, e).value;
    match e
    case Start(t) => MovedKeeps(s, s', t, Scanning);
    case Schedule(_, work, pin) => AcceptKeeps(s, work, pin);
    case Scan(t, running) => TakeKeeps(s, t, running);
    case Finish(t) => FinishKeeps(s, t);
    case EnterIdle(t) => MovedKeeps(s, s', t, if t in s.ended then Exited else Idling);
    case TestStop(t) => MovedKeeps(s, s', t, Leaving);
    case LeaveIdle(t) => MovedKeeps(s, s', t, Scanning);
    case Stop =>
      SamePlacesKeeps(s, s');
      assert Busy(s') == Busy(s) && Idle(s') == Idle(s);
  }

  lemma {:induction false} RunKeeps(s: State, events: seq<Event>)
    requires Inv(s) && Run(s, events).Some?
    ensures Inv(Run(s, events).value)
    decreases |events|
  {
    if events != [] {
      StepKeeps(s, events[0]);
      RunKeeps(Step(s, events[0]).value, events[1..]);
    }
  }

  /** Conservation, in every interleaving: an accepted task is exactly one of queued, in the hands of exactly one
      thread, or done; what is in a place is the task that was accepted; the queue keeps the order of acceptance. */
  lemma Conservation(events: seq<Event>, id: nat)
    requires Run(INIT, events).Some?
    ensures var s := Run(INIT, events).value;
            && (id < |s.accepted| <==> Queued(s, id) || Held(s, id) || id in s.done)
            && !(Queued(s, id) && Held(s, id)) && !(Queued(s, id) && id in s.done) && !(Held(s, id) && id in s.done)
            && (forall t, u :: HeldBy(s, t, id) && HeldBy(s, u, id) ==> t == u)
            && (forall i, j :: 0 <= i < |s.tasks| && 0 <= j < |s.tasks| && s.tasks[i].id == id == s.tasks[j].id ==>
                  i == j)
            && (forall i :: 0 <= i < |s.tasks| ==> s.tasks[i] in s.accepted)
            && (forall i, j :: 0 <= i < j < |s.tasks| ==> s.tasks[i].id < s.tasks[j].id)
  {
    InitInv();
    RunKeeps(INIT, events);
    var s := Run(INIT, events).value;
    if Held(s, id) {
      var t :| HeldBy(s, t, id);
      assert Genuine(s, s.phase[t].task);
    }
  }

  /** The event asks for a task to be run. */
  predicate Asks(e: Event) {
    e.Schedule? && !e.work.NoWork?
  }

  /** The events that ask for a task, in order. */
  function Asked(events: seq<Event>): (r: seq<Event>)
    ensures forall i :: 0 <= i < |r| ==> Asks(r[i])
    decreases |events|
  {
    if events == [] then []
    else (if Asks(events[0]) then [events[0]] else []) + Asked(events[1..])
  }

  /** The tasks from number n on are what the events asked for: the same work, the same pin, and no others. */
  ghost predicate AsAsked(accepted: seq<Task>, n: nat, asked: seq<Event>) {
    && |accepted| == n + |asked|
    && forall i :: 0 <= i < |asked| ==>
         asked[i].Schedule? && accepted[n + i].work == asked[i].work && accepted[n + i].pin == asked[i].pin
  }

  lemma AsksStep(s: State, e: Event)
    requires Step(s, e).Some?
    ensures AsAsked(Step(s, e).value.accepted, |s.accepted|, if Asks(e) then [e] else [])
  {
  }

  lemma AskedJoin(accepted: seq<Task>, accepted': seq<Task>, n: nat, first: seq<Event>, rest: seq<Event>)
    requires AsAsked(accepted, n, first) && accepted <= accepted' && AsAsked(accepted', |accepted|, rest)
    ensures AsAsked(accepted', n, first + rest)
  {
    var both := first + rest;
    forall i | 0 <= i < |both|
      ensures both[i].Schedule? && accepted'[n + i].work == both[i].work && accepted'[n + i].pin == both[i].pin
    {
      if i < |first| {
        assert both[i] == first[i] && accepted'[n + i] == accepted[n + i];
      } else {
        assert both[i] == rest[i - |first|];
        assert accepted'[n + i] == accepted'[|accepted| + (i - |first|)];
      }
    }
  }

  lemma {:induction false} RunAsked(s: State, events: seq<Event>)
    requires Run(s, events).Some?
    ensures s.accepted <= Run(s, events).value.accepted
    ensures AsAsked(Run(s, events).value.accepted, |s.accepted|, Asked(events))
    decreases |events|
  {
    if events != [] {
      AsksStep(s, events[0]);
      RunAsked(Step(s, events[0]).value, events[1..]);
      AskedJoin(Step(s, events[0]).value.accepted, Run(s, events).value.accepted, |s.accepted|,
                if Asks(events[0]) then [events[0]] else [], Asked(events[1..]));
    }
  }

  /** Over every run the i-th accepted task has the work and the pin of the i-th call of schedule that named a fiber or
      a callback, and nothing else is accepted. */
  lemma AcceptedAsAsked(events: seq<Event>)
    requires Run(INIT, events).Some?
    ensures var accepted, asked := Run(INIT, events).value.accepted, Asked(events);
            && |accepted| == |asked|
            && forall i :: 0 <= i < |asked| ==>
                 asked[i].Schedule? && accepted[i].work == asked[i].work && accepted[i].pin == asked[i].pin
  {
    RunAsked(INIT, events);
  }

  /** A task is in the hands of a thread that its call of schedule allowed, while it runs and when it has run; and what
      that thread has in hand is the work of that call. */
  lemma PinRespected(events: seq<Event>, id: nat, t: ThreadId)
    requires Run(INIT, events).Some?
    requires var s := Run(INIT, events).value; HeldBy(s, t, id) || (id in s.done && s.done[id] == t)
    ensures var s, asked := Run(INIT, events).value, Asked(events);
            && id < |asked| && (asked[id].pin == AnyThread || asked[id].pin == On(t))
            && (HeldBy(s, t, id) ==> s.phase[t].task.work == asked[id].work)
  {
    InitInv();
    RunKeeps(INIT, events);
    AcceptedAsAsked(events);
    var s := Run(INIT, events).value;
    if HeldBy(s, t, id) {
      assert Genuine(s, s.phase[t].task);
    }
  }

  /** The two counters equal the numbers of threads in those phases. */
  lemma CountersExact(events: seq<Event>)
    requires Run(INIT, events).Some?
    ensures var s := Run(INIT, events).value;
            s.active == |Busy(s)| && s.idle == |Idle(s)|
  {
    InitInv();
    RunKeeps(INIT, events);
  }

  // ---- shutdown

  /** Somebody outside the tasks schedules something. */
  predicate Intrusion(e: Event) {
    e.Schedule? && e.caller.Outside? && !e.work.NoWork?
  }

  lemma NobodyBusy(s: State, t: ThreadId)
    requires Inv(s) && s.active == 0 && t in s.phase
    ensures !s.phase[t].InHand?
  {
    assert Busy(s) == {};
    assert t !in Busy(s);
  }

  /** One step from a stopped state: it stays stopped exactly when the step is not an intrusion. */
  lemma StaysStopped(s: State, e: Event)
    requires Inv(s) && Stopped(s) && Step(s, e).Some?
    ensures Stopped(Step(s, e).value) <==> !Intrusion(e)
  {
    match e
    case Schedule(caller, _, _) => if caller.TaskOn? { NobodyBusy(s, caller.t); }
    case Finish(t) => NobodyBusy(s, t);
    case Scan(t, running) =>
    case Start(t) =>
    case EnterIdle(t) =>
    case TestStop(t) =>
    case LeaveIdle(t) =>
    case Stop =>
  }

  /** Stopping() holds in the state after every prefix of the events. */
  ghost predicate AlwaysStopping(s: State, events: seq<Event>)
    decreases |events|
  {
    Stopped(s) && (events != [] && Step(s, events[0]).Some? ==> AlwaysStopping(Step(s, events[0]).value, events[1..]))
  }

  /** Once true, stopping() is true in every later state, exactly when nobody outside schedules again. */
  lemma {:induction false} StoppingIsStable(s: State, events: seq<Event>)
    requires Inv(s) && Stopped(s) && Run(s, events).Some?
    ensures AlwaysStopping(s, events) <==> forall i :: 0 <= i < |events| ==> !Intrusion(events[i])
    decreases |events|
  {
    if events != [] {
      var s', rest := Step(s, events[0]).value, events[1..];
      StepKeeps(s, events[0]);
      StaysStopped(s, events[0]);
      assert forall i :: 0 <= i < |events| ==> events[i] == if i == 0 then events[0] else rest[i - 1];
      assert forall i :: 0 <= i < |rest| ==> rest[i] == events[i + 1];
      if Stopped(s') {
        StoppingIsStable(s', rest);
      }
    }
  }

  /** The run has no intrusion from the first moment on at which stopping() is true. */
  ghost predicate Quiet(s: State, events: seq<Event>)
    decreases |events|
  {
    events == [] ||
    (&& !(Stopped(s) && Intrusion(events[0]))
     && (Step(s, events[0]).Some? ==> Quiet(Step(s, events[0]).value, events[1..])))
  }

  /** A thread's idle fiber ends only when stopping() was true, and a thread exits only after that. */
  ghost predicate EndedOnlyWhenStopped(s: State) {
    && (s.ended != {} ==> Stopped(s))
    && (forall t :: At(s, t, Exited) ==> t in s.ended)
  }

  /** An idle fiber ends only where stopping() is true, and a thread exits only when its idle fiber has ended. */
  lemma EndStep(s: State, e: Event)
    requires Step(s, e).Some?
    ensures s.ended <= Step(s, e).value.ended
    ensures Step(s, e).value.ended != s.ended ==> Stopped(s)
  {
  }

  lemma ExitStep(s: State, e: Event, t: ThreadId)
    requires Step(s, e).Some? && At(Step(s, e).value, t, Exited)
    ensures At(s, t, Exited) || t in s.ended
  {
  }

  lemma QuietStep(s: State, e: Event)
    requires Inv(s) && EndedOnlyWhenStopped(s) && Step(s, e).Some? && !(Stopped(s) && Intrusion(e))
    ensures EndedOnlyWhenStopped(Step(s, e).value)
  {
    var s' := Step(s, e).value;
    EndStep(s, e);
    forall t | At(s', t, Exited) ensures t in s'.ended {
      ExitStep(s, e, t);
    }
    if Stopped(s) {
      StaysStopped(s, e);
    }
  }

  lemma {:induction false} QuietRun(s: State, events: seq<Event>)
    requires Inv(s) && EndedOnlyWhenStopped(s) && Run(s, events).Some? && Quiet(s, events)
    ensures EndedOnlyWhenStopped(Run(s, events).value)
    decreases |events|
  {
    if events != [] {
      StepKeeps(s, events[0]);
      QuietStep(s, events[0]);
      QuietRun(Step(s, events[0]).value, events[1..]);
    }
  }

  /** Shutdown is safe: as soon as one run() loop has exited, every accepted task has been run, by a thread it may
      run on. */
  lemma ShutdownIsSafe(events: seq<Event>, t: ThreadId)
    requires Run(INIT, events).Some? && Quiet(INIT, events) && At(Run(INIT, events).value, t, Exited)
    ensures var s := Run(INIT, events).value;
            && s.tasks == [] && s.active == 0
            && (forall id :: 0 <= id < |s.accepted| ==> id in s.done && !Elsewhere(s.accepted[id], s.done[id]))
  {
    InitInv();
    RunKeeps(INIT, events);
    QuietRun(INIT, events);
    var s := Run(INIT, events).value;
    forall id | 0 <= id < |s.accepted| ensures id in s.done {
      if Held(s, id) {
        var u :| HeldBy(s, u, id);
        NobodyBusy(s, u);
      }
    }
  }

  /** Without that condition a task can be lost: the only thread exits, and then a task is scheduled. */
  lemma LateTaskIsLost()
    ensures exists events ::
              && Run(INIT, events).Some?
              && (forall t :: t in Run(INIT, events).value.phase ==> At(Run(INIT, events).value, t, Exited))
              && Queued(Run(INIT, events).value, 0)
  {
    var late := Schedule(Outside, CallbackWork(0), AnyThread);
    var task := Task(0, CallbackWork(0), AnyThread);
    var s := State([], map[0 := Scanning], {}, 0, 0, true, [], map[]);
    var u := s.(ended := {0});
    var last := u.(phase := map[0 := Exited]);
    var r1 := [Scan(0, {}), EnterIdle(0)] + [late];
    var r2 := [Scan(0, {}), EnterIdle(0), TestStop(0), LeaveIdle(0)] + r1;
    var events := [Start(0)] + ([Stop] + r2);
    var end := last.(tasks := [task], accepted := [task]);
    assert Run(INIT, events) == Run(s, r2) by {
      Chain(INIT, Start(0), [Stop] + r2);
      assert Step(INIT, Start(0)) == Some(s.(stopping := false));
      Chain(s.(stopping := false), Stop, r2);
    }
    assert Run(s, r2) == Run(u, r1) by {
      IdleRound(s, r1);
    }
    assert Run(u, r1) == Run(last, [late]) by {
      LastRound(u, [late]);
    }
    assert Run(last, [late]) == Some(end) by {
      Chain(last, late, []);
      assert [late] + [] == [late];
      assert [] + [task] == [task];
      assert Accept(last, CallbackWork(0), AnyThread) == end;
    }
    assert end.tasks[0].id == 0;
  }

  /** A thread that finds the scheduler stopped ends its idle fiber. */
  lemma IdleRound(s: State, rest: seq<Event>)
    requires s == State([], map[0 := Scanning], {}, 0, 0, true, [], map[])
    ensures Run(s, [Scan(0, {}), EnterIdle(0), TestStop(0), LeaveIdle(0)] + rest) == Run(s.(ended := {0}), rest)
  {
    var b := [TestStop(0), LeaveIdle(0)] + rest;
    var a := [EnterIdle(0)] + b;
    var s1 := s.(phase := map[0 := NoTask]);
    var s2 := s.(phase := map[0 := Idling], idle := 1);
    Chain(s, Scan(0, {}), a);
    assert Step(s, Scan(0, {})).value.phase == s1.phase;
    Chain(s1, EnterIdle(0), b);
    assert Step(s1, EnterIdle(0)).value.phase == s2.phase;
    BackFromIdle(s2, rest);
    assert [Scan(0, {})] + a == [Scan(0, {}), EnterIdle(0), TestStop(0), LeaveIdle(0)] + rest;
  }

  lemma BackFromIdle(s: State, rest: seq<Event>)
    requires s == State([], map[0 := Idling], {}, 0, 1, true, [], map[])
    ensures Run(s, [TestStop(0), LeaveIdle(0)] + rest) ==
            Run(s.(phase := map[0 := Scanning], idle := 0, ended := {0}), rest)
  {
    var c := [LeaveIdle(0)] + rest;
    var s1 := s.(phase := map[0 := Leaving], ended := {0});
    Chain(s, TestStop(0), c);
    assert Step(s, TestStop(0)).value.phase == s1.phase && {} + {0} == s1.ended;
    Chain(s1, LeaveIdle(0), rest);
    assert Step(s1, LeaveIdle(0)).value.phase == map[0 := Scanning];
    assert [TestStop(0)] + c == [TestStop(0), LeaveIdle(0)] + rest;
  }

  /** A thread whose idle fiber has ended and that finds no task leaves run(). */
  lemma LastRound(s: State, rest: seq<Event>)
    requires s == State([], map[0 := Scanning], {0}, 0, 0, true, [], map[])
    ensures Run(s, [Scan(0, {}), EnterIdle(0)] + rest) == Run(s.(phase := map[0 := Exited]), rest)
  {
    var a := [EnterIdle(0)] + rest;
    var s1 := s.(phase := map[0 := NoTask]);
    Chain(s, Scan(0, {}), a);
    assert Step(s, Scan(0, {})).value.phase == s1.phase;
    Chain(s1, EnterIdle(0), rest);
    assert Step(s1, EnterIdle(0)).value.phase == map[0 := Exited];
    assert [Scan(0, {})] + a == [Scan(0, {}), EnterIdle(0)] + rest;
  }

  lemma Chain(s: State, e: Event, rest: seq<Event>)
    requires Step(s, e).Some?
    ensures Run(s, [e] + rest) == Run(Step(s, e).value, rest)
  {
    assert ([e] + rest)[1..] == rest;
  }

  // ---- the program

  /** Whether a scan wakes other threads: it passed over a task of another thread, or left tasks behind the one it
      took. */
  predicate TickleMe(tasks: seq<Task>, t: ThreadId, k: nat)
    requires k <= |tasks|
  {
    (exists i :: 0 <= i < k && Elsewhere(tasks[i], t)) || k + 1 < |tasks|
  }

  /** A scan that wakes nobody leaves nothing that any thread could take, unless that fiber stops running. */
  lemma NobodyOverlooked(s: State, t: ThreadId, running: set<FiberId>, u: ThreadId, j: nat)
    requires !TickleMe(s.tasks, t, FirstEligible(s.tasks, t, running, 0)) && j < |Take(s, t, running).tasks|
    ensures !Eligible(Take(s, t, running).tasks[j], u, running)
  {
    var k := FirstEligible(s.tasks, t, running, 0);
    assert j < k && Take(s, t, running).tasks[j] == s.tasks[j];
    assert !Elsewhere(s.tasks[j], t);
  }

  /** A scan that wakes others leaves something in the queue for them. */
  lemma TickledForSomething(s: State, t: ThreadId, running: set<FiberId>)
    requires TickleMe(s.tasks, t, FirstEligible(s.tasks, t, running, 0))
    ensures Take(s, t, running).tasks != []
  {
  }

  /** The thread must pass over the entry: it is pinned to another thread, or its fiber is running. */
  ghost predicate MustPass(task: Task, t: ThreadId, running: set<FiberId>) {
    (exists u :: u != t && task.pin == On(u)) || (exists f :: f in running && task.work == FiberWork(f))
  }

  /** The scan takes the first entry that the thread need not pass over, and nothing if there is none. */
  lemma TakesFirst(s: State, t: ThreadId, running: set<FiberId>)
    ensures var s' := Take(s, t, running);
            && t in s'.phase
            && if forall i :: 0 <= i < |s.tasks| ==> MustPass(s.tasks[i], t, running)
               then s'.phase[t] == NoTask && s'.tasks == s.tasks
               else exists k :: 0 <= k < |s.tasks| && !MustPass(s.tasks[k], t, running)
                      && (forall i :: 0 <= i < k ==> MustPass(s.tasks[i], t, running))
                      && s'.phase[t] == InHand(s.tasks[k]) && s'.tasks == s.tasks[..k] + s.tasks[k + 1..]
  {
    forall i | 0 <= i < |s.tasks| ensures MustPass(s.tasks[i], t, running) <==> !Eligible(s.tasks[i], t, running) {
      PassedOver(s.tasks[i], t, running);
    }
  }

  lemma PassedOver(task: Task, t: ThreadId, running: set<FiberId>)
    ensures MustPass(task, t, running) <==> !Eligible(task, t, running)
  {
    assert Elsewhere(task, t) ==> task.pin == On(task.pin.t);
    assert task.work.FiberWork? ==> task.work == FiberWork(task.work.f);
  }

  /** Scheduler.  Each method makes the step of the machine that it names; the ghost fields are the parts of the
      state that live on the stacks of the threads, and the history. */
  class Scheduler {
    var tasks: seq<Task>
    var activeThreadCount: int
    var idleThreadCount: int
    var stopping: bool
    var nextId: nat
    ghost var phase: map<ThreadId, Phase>
    ghost var ended: set<ThreadId>
    ghost var accepted: seq<Task>
    ghost var done: map<nat, ThreadId>

    ghost predicate Valid()
      reads this
    {
      nextId == |accepted|
    }

    ghost function View(): State
      reads this
    {
      State(tasks, phase, ended, activeThreadCount, idleThreadCount, stopping, accepted, done)
    }

    constructor ()
      ensures Valid() && View() == INIT
    {
      tasks, activeThreadCount, idleThreadCount, stopping, nextId := [], 0, 0, false, 0;
      phase, ended, accepted, done := map[], {}, [], map[];
    }

    /** schedule, with scheduleNoLock; the answer is whether the queue was empty. */
    method Schedule(caller: Caller, work: Work, pin: Pin) returns (needTickle: bool)
      requires Valid() && (caller.TaskOn? ==> caller.t in phase && phase[caller.t].InHand?)
      modifies this
      ensures Valid() && Some(View()) == Step(old(View()), Event.Schedule(caller, work, pin))
      ensures needTickle == (old(tasks) == [])
      ensures if work == NoWork then tasks == old(tasks)
              else |tasks| == |old(tasks)| + 1 && tasks[..|old(tasks)|] == old(tasks)
                   && tasks[|old(tasks)|].work == work && tasks[|old(tasks)|].pin == pin
    {
      needTickle := tasks == [];
      if !work.NoWork? {
        var task := Task(nextId, work, pin);
        tasks := tasks + [task];
        nextId := nextId + 1;
        accepted := accepted + [task];
      }
    }

    /** The locked region of run: NoWork when there is nothing to take.  The assertion of the program that an entry
        of the queue has work is the precondition, which every run keeps. */
    method Scan(t: ThreadId, running: set<FiberId>) returns (work: Work, tickleMe: bool)
      requires Valid() && At(View(), t, Scanning)
      requires forall i :: 0 <= i < |tasks| ==> !tasks[i].work.NoWork?
      modifies this
      ensures Valid() && Some(View()) == Step(old(View()), Event.Scan(t, running))
      ensures var k := FirstEligible(old(tasks), t, running, 0);
              && tickleMe == TickleMe(old(tasks), t, k)
              && (if k < |old(tasks)| then work == old(tasks)[k].work else work == NoWork)
    {
      work, tickleMe := NoWork, false;
      var it := 0;
      while it < |tasks|
        invariant 0 <= it <= |tasks| && tasks == old(tasks) && View() == old(View()) && Valid()
        invariant FirstEligible(tasks, t, running, it) == FirstEligible(tasks, t, running, 0)
        invariant tickleMe == exists i :: 0 <= i < it && Elsewhere(tasks[i], t)
        invariant work == NoWork
      {
        if tasks[it].pin.On? && tasks[it].pin.t != t {
          assert Elsewhere(tasks[it], t);
          it := it + 1;
          tickleMe := true;
          continue;
        }
        if tasks[it].work.FiberWork? && tasks[it].work.f in running {
          it := it + 1;
          continue;
        }
        work := tasks[it].work;
        phase := phase[t := InHand(tasks[it])];
        tasks := Without(tasks, it);
        activeThreadCount := activeThreadCount + 1;
        tickleMe := tickleMe || it < |tasks|;
        return;
      }
      phase := phase[t := NoTask];
    }

    /** The resumed task is over, or has yielded. */
    method Finish(t: ThreadId)
      requires Valid() && t in phase && phase[t].InHand?
      modifies this
      ensures Valid() && Some(View()) == Step(old(View()), Event.Finish(t))
    {
      activeThreadCount := activeThreadCount - 1;
      done := done[phase[t].task.id := t];
      phase := phase[t := Scanning];
    }

    method Stopping() returns (r: bool)
      ensures r == Stopped(View())
    {
      r := stopping && tasks == [] && activeThreadCount == 0;
    }

    /** The branch of run for a thread that found no task, up to the test in the idle fiber; `term` is the state of
        that fiber.  The answer is whether the thread leaves run(). */
    method EnterIdle(t: ThreadId, term: bool) returns (exit: bool)
      requires Valid() && At(View(), t, NoTask) && term == (t in ended)
      modifies this`idleThreadCount, this`phase
      ensures Valid() && Some(View()) == Step(old(View()), Event.EnterIdle(t))
      ensures exit == At(View(), t, Exited)
    {
      if term {
        phase := phase[t := Exited];
        return true;
      }
      idleThreadCount := idleThreadCount + 1;
      phase := phase[t := Idling];
      return false;
    }

    /** Scheduler::idle from one resumption to the next: the answer is whether the idle fiber has terminated. */
    method TestStop(t: ThreadId) returns (term: bool)
      requires Valid() && At(View(), t, Idling)
      modifies this`phase, this`ended
      ensures Valid() && Some(View()) == Step(old(View()), Event.TestStop(t))
      ensures term == Stopped(old(View()))
    {
      term := Stopping();
      phase := phase[t := Leaving];
      ended := if term then ended + {t} else ended;
    }

    method LeaveIdle(t: ThreadId)
      requires Valid() && At(View(), t, Leaving)
      modifies this`idleThreadCount, this`phase
      ensures Valid() && Some(View()) == Step(old(View()), Event.LeaveIdle(t))
    {
      idleThreadCount := idleThreadCount - 1;
      phase := phase[t := Scanning];
    }

    /** The part of stop() that changes the state, before it waits for the run() loops. */
    method Stop()
      requires Valid()
      modifies this`stopping
      ensures Valid() && Some(View()) == Step(old(View()), Event.Stop)
    {
      var already := Stopping();
      if already {
        return;
      }
      stopping := true;
    }
  }
}
