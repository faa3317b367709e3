/** The thread pool of include/fishjoy/thread/threadpool.hpp.  The steps are its lock-protected regions and the atomic
    counter update after a task; start is one step. */
module ThreadPools {

  datatype Mode = Fixed | Cached

  /** Idle: counted as idle, looking for a task.  Waiting: has found the queue empty, and waits.  Busy(k): runs the k-th
      accepted task. */
  datatype Phase = Idle | Waiting | Busy(k: nat)

  /** A task is any value.  `threads` is threads_ with where each thread is; `generated` is Thread::generatedId_,
      which all pools share.  `accepted`, `taken` and `done` are history: the tasks accepted, in order, how many of
      them have been taken, and which have been run. */
  datatype State = State(mode: Mode, initSize: nat, limit: nat, threshold: nat, running: bool, generated: nat,
                         threads: map<nat, Phase>, queue: seq<int>, taskSize: int, curSize: int, idleSize: int,
                         accepted: seq<int>, taken: nat, done: set<nat>)

  const TASK_MAX_THRESHOLD: nat := 0x7fff_ffff
  const THREAD_MAX_THRESHOLD: nat := 10

  function Init(generated: nat): State {
    State(Fixed, 0, TASK_MAX_THRESHOLD, THREAD_MAX_THRESHOLD, false, generated, map[], [], 0, 0, 0, [], 0, {})
  }

  datatype Event =
    | SetMode(mode: Mode)
    | SetLimit(limit: nat)
    | SetThreshold(threshold: nat)
    | OtherPool(n: nat)
    | Start(n: nat)
    | Submit(task: int)
    | Wait(t: nat)
    | Take(t: nat)
    | Retire(t: nat)
    | Finish(t: nat)

  /** Disabled: cannot happen here.  Crash: start() on a null pointer. */
  datatype Outcome = Disabled | Crash | Went(s: State)

  /** Idle threads with the numbers below n. */
  function FirstThreads(n: nat): (m: map<nat, Phase>)
    ensures |m| == n && (forall t :: t in m <==> 0 <= t < n) && (forall t :: t in m ==> m[t] == Idle)
  {
    if n == 0 then map[] else FirstThreads(n - 1)[n - 1 := Idle]
  }

  /** start(n): new threads get the next n numbers, but the second loop starts numbers 0 to n-1. */
  function StartStep(s: State, n: nat): Outcome {
    if s.running || s.threads != map[] then Disabled
    else if n > 0 && s.generated > 0 then Crash
    else Went(s.(running := true, initSize := n, curSize := n, idleSize := s.idleSize + n,
                 threads := FirstThreads(n), generated := s.generated + n))
  }

  /** submitTask; with a full queue it gives up after a second and returns a default value. */
  function SubmitStep(s: State, task: int): State {
    if |s.queue| >= s.limit then s
    else
      var s := s.(queue := s.queue + [task], taskSize := s.taskSize + 1, accepted := s.accepted + [task]);
      if s.mode.Cached? && s.taskSize > s.idleSize && s.curSize < s.threshold
      then s.(threads := s.threads[s.generated := Idle], generated := s.generated + 1,
              curSize := s.curSize + 1, idleSize := s.idleSize + 1)
      else s
  }

  /** threadFunc takes the task at the front. */
  function TakeStep(s: State, t: nat): State
    requires s.queue != []
  {
    s.(idleSize := s.idleSize - 1, queue := s.queue[1..], taskSize := s.taskSize - 1,
       threads := s.threads[t := Busy(s.taken)], taken := s.taken + 1)
  }

  function WaitStep(s: State, t: nat): State {
    s.(threads := s.threads[t := Waiting])
  }

  /** The wait has timed out.  The queue, which was empty when the wait began, is not looked at again. */
  function RetireStep(s: State, t: nat): State {
    s.(threads := s.threads - {t}, curSize := s.curSize - 1, idleSize := s.idleSize - 1)
  }

  function FinishStep(s: State, t: nat): State
    requires t in s.threads && s.threads[t].Busy?
  {
    s.(threads := s.threads[t := Idle], idleSize := s.idleSize + 1, done := s.done + {s.threads[t].k})
  }

  predicate IsIdle(s: State, t: nat) {
    s.running && t in s.threads && !s.threads[t].Busy?
  }

  function Step(s: State, e: Event): Outcome {
    match e
    case SetMode(mode) => Went(if s.running then s else s.(mode := mode))
    case SetLimit(limit) => Went(if s.running then s else s.(limit := limit))
    case SetThreshold(n) => Went(if s.running || s.mode.Fixed? then s else s.(threshold := n))
    case OtherPool(n) => Went(s.(generated := s.generated + n))
    case Start(n) => StartStep(s, n)
    case Submit(task) => if s.running then Went(SubmitStep(s, task)) else Disabled
    case Wait(t) => if IsIdle(s, t) && s.queue == [] then Went(WaitStep(s, t)) else Disabled
    case Take(t) => if IsIdle(s, t) && s.queue != [] then Went(TakeStep(s, t)) else Disabled
    case Retire(t) =>
      if IsIdle(s, t) && s.threads[t].Waiting? && s.mode.Cached? && s.curSize > s.initSize then Went(RetireStep(s, t))
      else Disabled
    case Finish(t) => if s.running && t in s.threads && s.threads[t].Busy? then Went(FinishStep(s, t)) else Disabled
  }

  function Run(s: State, events: seq<Event>): Outcome
    decreases |events|
  {
    if events == [] then Went(s)
    else
      match Step(s, events[0])
      case Went(t) => Run(t, events[1..])
      case Crash => Crash
      case Disabled => Disabled
  }

  // ---- what every run keeps

  ghost function IdleThreads(s: State): set<nat> {
    set t | t in s.threads && !s.threads[t].Busy?
  }

  ghost function BusyThreads(s: State): set<nat> {
    set t | t in s.threads && s.threads[t].Busy?
  }

  ghost predicate Sizes(s: State) {
    && s.taskSize == |s.queue| <= s.limit
    && s.curSize == |s.threads| && s.idleSize == |IdleThreads(s)|
    && (s.running ==> s.initSize <= s.curSize <= Max(s.initSize, s.threshold))
    && (!s.running ==> s.threads == map[] && s.queue == [])
    && (forall t :: t in s.threads ==> t < s.generated)
  }

  /** Accepted tasks leave the queue in the order they came. */
  ghost predicate Fifo(s: State) {
    s.taken <= |s.accepted| && s.queue == s.accepted[s.taken..]
  }

  /** A task that was taken is run by one thread or has been run. */
  ghost predicate EachOnce(s: State) {
    && (forall t :: t in s.threads && s.threads[t].Busy? ==> s.threads[t].k < s.taken && s.threads[t].k !in s.done)
    && (forall t, u :: t in s.threads && u in s.threads && t != u && s.threads[t].Busy? && s.threads[u].Busy? ==>
          s.threads[t].k != s.threads[u].k)
    && (forall k :: k in s.done ==> k < s.taken)
    && (forall k :: 0 <= k < s.taken ==> k in s.done || RunBy(s, k))
  }

  ghost predicate RunBy(s: State, k: nat) {
    exists t :: t in s.threads && s.threads[t] == Busy(k)
  }

  ghost predicate Inv(s: State) {
    Sizes(s) && Fifo(s) && EachOnce(s)
  }

  function Max(a: int, b: int): int {
    if a < b then b else a
  }

  lemma InitInv(generated: nat)
    ensures Inv(Init(generated))
  {
    assert IdleThreads(Init(generated)) == {};
  }

  /** Idle and busy threads are all the threads. */
  lemma IdleAndBusy(s: State)
    ensures |IdleThreads(s)| + |BusyThreads(s)| == |s.threads|
  {
    assert IdleThreads(s) + BusyThreads(s) == s.threads.Keys && IdleThreads(s) !! BusyThreads(s);
  }

  /** A thread whose phase is changed; a new one has a new number. */
  lemma PhaseSet(s: State, s': State, t: nat, p: Phase)
    requires s'.threads == s.threads[t := p]
    ensures |s'.threads| == |s.threads| + if t in s.threads then 0 else 1
    ensures |IdleThreads(s')| == |IdleThreads(s)| + (if p.Busy? then 0 else 1) - (if t in IdleThreads(s) then 1 else 0)
  {
    assert s'.threads.Keys == s.threads.Keys + {t};
    IdleSet(s, s', t, p);
    WithMember(IdleThreads(s), t);
  }

  lemma IdleSet(s: State, s': State, t: nat, p: Phase)
    requires s'.threads == s.threads[t := p]
    ensures IdleThreads(s') == if p.Busy? then IdleThreads(s) - {t} else IdleThreads(s) + {t}
  {
  }

  lemma WithMember(a: set<nat>, t: nat)
    ensures |a + {t}| == |a| + if t in a then 0 else 1
    ensures |a - {t}| == |a| - if t in a then 1 else 0
  {
    assert t in a ==> a + {t} == a && a == (a - {t}) + {t};
  }

  lemma StartKeeps(s: State, n: nat)
    requires Inv(s) && StartStep(s, n).Went?
    ensures Inv(StartStep(s, n).s)
  {
    var s' := StartStep(s, n).s;
    assert IdleThreads(s') == s'.threads.Keys && IdleThreads(s) == {};
    forall k | 0 <= k < s.taken ensures k in s'.done {
      assert !RunBy(s, k);
    }
  }

  /** The runs of tasks stand when no busy thread changes. */
  lemma SameRuns(s: State, s': State)
    requires EachOnce(s) && s'.taken == s.taken && s'.done == s.done
    requires forall t, k ::
               (t in s'.threads && s'.threads[t] == Busy(k)) <==> (t in s.threads && s.threads[t] == Busy(k))
    ensures EachOnce(s')
  {
    forall k | 0 <= k < s.taken && k !in s.done ensures RunBy(s', k) {
      assert RunBy(s, k);
      var t :| t in s.threads && s.threads[t] == Busy(k);
      assert s'.threads[t] == Busy(k);
    }
    forall t | t in s'.threads && s'.threads[t].Busy? ensures t in s.threads && s.threads[t] == s'.threads[t] {
      assert s'.threads[t] == Busy(s'.threads[t].k);
    }
  }

  lemma SubmitSizes(s: State, task: int)
    requires Sizes(s) && s.running
    ensures Sizes(SubmitStep(s, task))
  {
    var s' := SubmitStep(s, task);
    if s'.curSize > s.curSize {
      PhaseSet(s, s', s.generated, Idle);
    } else {
      assert IdleThreads(s') == IdleThreads(s);
    }
  }

  lemma SubmitFifo(s: State, task: int)
    requires Fifo(s)
    ensures Fifo(SubmitStep(s, task))
  {
    var s' := SubmitStep(s, task);
    assert |s.queue| < s.limit ==> s'.queue == s'.accepted[s'.taken..];
  }

  lemma SubmitRuns(s: State, task: int)
    requires EachOnce(s) && forall t :: t in s.threads ==> t < s.generated
    ensures EachOnce(SubmitStep(s, task))
  {
    SameRuns(s, SubmitStep(s, task));
  }

  lemma SubmitKeeps(s: State, task: int)
    requires Inv(s) && s.running
    ensures Inv(SubmitStep(s, task))
  {
    SubmitSizes(s, task);
    SubmitFifo(s, task);
    SubmitRuns(s, task);
  }

  lemma TakeKeeps(s: State, t: nat)
    requires Inv(s) && IsIdle(s, t) && s.queue != []
    ensures Inv(TakeStep(s, t))
  {
    var s' := TakeStep(s, t);
    PhaseSet(s, s', t, Busy(s.taken));
    assert s.accepted[s.taken..][1..] == s.accepted[s.taken + 1..];
    forall k | 0 <= k < s'.taken && k !in s'.done ensures RunBy(s', k) {
      if k == s.taken {
        assert s'.threads[t] == Busy(k);
      } else {
        assert RunBy(s, k);
        var u :| u in s.threads && s.threads[u] == Busy(k);
        assert s'.threads[u] == Busy(k);
      }
    }
  }

  lemma WaitKeeps(s: State, t: nat)
    requires Inv(s) && IsIdle(s, t)
    ensures Inv(WaitStep(s, t))
  {
    PhaseSet(s, WaitStep(s, t), t, Waiting);
    SameRuns(s, WaitStep(s, t));
  }

  lemma RetireKeeps(s: State, t: nat)
    requires Inv(s) && IsIdle(s, t) && s.curSize > s.initSize
    ensures Inv(RetireStep(s, t))
  {
    var s' := RetireStep(s, t);
    assert s'.threads.Keys == s.threads.Keys - {t};
    assert IdleThreads(s') == IdleThreads(s) - {t};
    SameRuns(s, s');
  }

  lemma FinishKeeps(s: State, t: nat)
    requires Inv(s) && s.running && t in s.threads && s.threads[t].Busy?
    ensures Inv(FinishStep(s, t))
  {
    var s' := FinishStep(s, t);
    PhaseSet(s, s', t, Idle);
    forall k | 0 <= k < s'.taken && k !in s'.done ensures RunBy(s', k) {
      assert RunBy(s, k);
      var u :| u in s.threads && s.threads[u] == Busy(k);
      assert s'.threads[u] == Busy(k);
    }
  }

  /** A step goes wrong exactly when it starts a pool with threads after thread numbers have been given out. */
  lemma StepKeeps(s: State, e: Event)
    requires Inv(s)
    ensures Step(s, e).Crash? <==> e.Start? && e.n > 0 && s.generated > 0 && !s.running
    ensures Step(s, e).Went? ==> Inv(Step(s, e).s)
  {
    if Step(s, e).Went? {
      match e
      case Start(n) => StartKeeps(s, n);
      case Submit(task) => SubmitKeeps(s, task);
      case Wait(t) => WaitKeeps(s, t);
      case Take(t) => TakeKeeps(s, t);
      case Retire(t) => RetireKeeps(s, t);
      case Finish(t) => FinishKeeps(s, t);
      case SetMode(_) => SettingKeeps(s, Step(s, e).s);
      case SetLimit(_) => SettingKeeps(s, Step(s, e).s);
      case SetThreshold(_) => SettingKeeps(s, Step(s, e).s);
      case OtherPool(_) => SettingKeeps(s, Step(s, e).s);
    }
  }

  lemma SettingKeeps(s: State, s': State)
    requires Inv(s) && s.generated <= s'.generated
    requires s' == s.(mode := s'.mode, limit := s'.limit, threshold := s'.threshold, generated := s'.generated)
    requires s.running ==> s'.limit == s.limit && s'.threshold == s.threshold
    ensures Inv(s')
  {
    assert IdleThreads(s') == IdleThreads(s);
    SameRuns(s, s');
  }

  lemma {:induction false} RunKeeps(s: State, events: seq<Event>)
    requires Inv(s) && Run(s, events).Went?
    ensures Inv(Run(s, events).s)
    decreases |events|
  {
    if events != [] {
      StepKeeps(s, events[0]);
      RunKeeps(Step(s, events[0]).s, events[1..]);
    }
  }

  /** Over every run of a pool that has been started: the counters are exact and within their bounds, whatever other
      pools do. */
  lemma CountersExact(generated: nat, events: seq<Event>)
    requires Run(Init(generated), events).Went?
    ensures var s := Run(Init(generated), events).s;
            && s.taskSize == |s.queue| <= s.limit
            && s.curSize == |s.threads|
            && s.idleSize == |IdleThreads(s)| && s.idleSize + |BusyThreads(s)| == s.curSize
            && (s.running ==> s.initSize <= s.curSize <= Max(s.initSize, s.threshold))
  {
    InitInv(generated);
    RunKeeps(Init(generated), events);
    IdleAndBusy(Run(Init(generated), events).s);
  }

  /** Over every run: the tasks that have left the queue are the oldest accepted ones, in order; each of them is being
      run by exactly one thread or has been run, not both; the others are in the queue. */
  lemma FifoAndOnce(generated: nat, events: seq<Event>, k: nat, t: nat, u: nat)
    requires Run(Init(generated), events).Went?
    ensures var s := Run(Init(generated), events).s;
            && s.taken <= |s.accepted| && s.accepted == s.accepted[..s.taken] + s.queue
            && (k < s.taken <==> k in s.done || RunBy(s, k)) && !(k in s.done && RunBy(s, k))
            && (t in s.threads && u in s.threads && s.threads[t] == Busy(k) == s.threads[u] ==> t == u)
  {
    InitInv(generated);
    RunKeeps(Init(generated), events);
  }

  /** What submitTask does.  The task is accepted, behind the others, exactly when there is room; and then a thread is
      made exactly when the pool is cached, the queue has become longer than there are idle threads, and there are fewer
      threads than allowed.  So a pool whose threads are all busy makes one exactly when it is cached and has not as
      many as allowed. */
  lemma SubmitExact(s: State, task: int)
    requires Inv(s) && s.running
    ensures var s' := SubmitStep(s, task);
            var makes := s.mode.Cached? && |s.queue| + 1 > |IdleThreads(s)| && |s.threads| < s.threshold;
            if |s.queue| >= s.limit then s' == s
            else
              && s'.queue == s.queue + [task] && s'.accepted == s.accepted + [task]
              && s'.taken == s.taken && s'.done == s.done
              && (if makes then s.generated !in s.threads && s'.threads == s.threads[s.generated := Idle]
                  else s'.threads == s.threads)
              && (IdleThreads(s) == {} ==> (makes <==> s.mode.Cached? && |s.threads| < s.threshold))
  {
  }

  /** The settings of a pool do not change once it has been started. */
  lemma {:induction false} SettingsFrozen(s: State, events: seq<Event>)
    requires s.running && Run(s, events).Went?
    ensures var s' := Run(s, events).s;
            s'.running && s'.mode == s.mode && s'.limit == s.limit && s'.threshold == s.threshold
            && s'.initSize == s.initSize
    decreases |events|
  {
    if events != [] {
      SettingsFrozen(Step(s, events[0]).s, events[1..]);
    }
  }

  /** A task is queued, and there is no thread. */
  ghost predicate Abandoned(s: State) {
    s.running && s.queue != [] && s.threads == map[]
  }

  /** A submitted task finds no thread and makes none: the pool is not cached, or allows no threads. */
  predicate MakesNone(s: State) {
    s.threads == map[] && (s.mode.Fixed? || s.threshold == 0)
  }

  /** When a queued task comes to be without a thread: the last thread retires although a task has been queued while it
      waited, or a task is accepted where there is no thread and none is made.  And when it gets one: by a later task
      that is accepted by a cached pool that allows threads. */
  lemma AbandonedExactly(s: State, e: Event)
    requires Inv(s) && Step(s, e).Went?
    ensures var s' := Step(s, e).s;
            if Abandoned(s) then
              Abandoned(s') <==> !(e.Submit? && |s.queue| < s.limit && !MakesNone(s))
            else
              Abandoned(s') <==>
              || (e.Retire? && s.queue != [] && s.threads.Keys == {e.t})
              || (e.Submit? && |s.queue| < s.limit && MakesNone(s))
  {
    match e
    case Submit(task) => SubmitAbandons(s, task);
    case Retire(t) =>
      assert Step(s, e).s.threads.Keys == s.threads.Keys - {t};
      assert Step(s, e).s.threads == map[] <==> Step(s, e).s.threads.Keys == {};
    case Start(n) =>
    case _ => OthersHaveThreads(s, e);
  }

  /** A submitted task that is accepted finds a thread, or makes one, or is left alone. */
  lemma SubmitAbandons(s: State, task: int)
    requires Sizes(s) && s.running && (s.threads == map[] ==> s.curSize == s.idleSize == 0)
    ensures Abandoned(SubmitStep(s, task)) <==>
            s.threads == map[] && (if |s.queue| < s.limit then MakesNone(s) else s.queue != [])
  {
    assert s.generated in s.threads[s.generated := Idle];
  }

  /** The other steps leave the number of threads. */
  lemma OthersHaveThreads(s: State, e: Event)
    requires Inv(s) && Step(s, e).Went? && !e.Submit? && !e.Retire? && !e.Start?
    ensures Abandoned(Step(s, e).s) <==> Abandoned(s)
  {
    if e.Wait? || e.Take? || e.Finish? {
      assert e.t in s.threads && e.t in Step(s, e).s.threads;
    }
  }

  /** Over every run: only a pool with no initial threads can have a queued task and no thread. */
  lemma AbandonedNeedsNoInitial(generated: nat, events: seq<Event>)
    requires Run(Init(generated), events).Went? && Abandoned(Run(Init(generated), events).s)
    ensures Run(Init(generated), events).s.initSize == 0
  {
    InitInv(generated);
    RunKeeps(Init(generated), events);
  }

  function Then(o: Outcome, events: seq<Event>): Outcome {
    if o.Went? then Run(o.s, events) else o
  }

  lemma RunStep(s: State, e: Event, rest: seq<Event>)
    ensures Run(s, [e] + rest) == Then(Step(s, e), rest)
  {
    assert ([e] + rest)[1..] == rest;
  }

  /** A cached pool with no initial threads: the thread made for the first task waits; the second task finds it idle and
      makes no other; the wait times out, and the second task is left without a thread. */
  lemma SecondTaskAbandoned(x: int, y: int)
    ensures var o := Run(Init(0), [SetMode(Cached)] + ([Start(0)] + ([Submit(x)] + ([Take(0)] + ([Finish(0)] +
                                  ([Wait(0)] + ([Submit(y)] + ([Retire(0)] + []))))))));
            o.Went? && Abandoned(o.s) && o.s.queue == [y]
  {
    var last := [Wait(0)] + ([Submit(y)] + ([Retire(0)] + []));
    var first := [Submit(x)] + ([Take(0)] + ([Finish(0)] + last));
    RunStep(Init(0), SetMode(Cached), [Start(0)] + first);
    var s1 := Step(Init(0), SetMode(Cached)).s;
    RunStep(s1, Start(0), first);
    var s2 := Step(s1, Start(0)).s;
    RunStep(s2, Submit(x), [Take(0)] + ([Finish(0)] + last));
    var s3 := Step(s2, Submit(x)).s;
    RunStep(s3, Take(0), [Finish(0)] + last);
    var s4 := Step(s3, Take(0)).s;
    RunStep(s4, Finish(0), last);
    SecondTaskWaits(Step(s4, Finish(0)).s, y);
  }

  lemma SecondTaskWaits(s: State, y: int)
    requires s.running && s.mode.Cached? && s.threads == map[0 := Idle] && s.queue == [] && s.limit > 0
    requires s.idleSize == 1 && s.taskSize == 0 && s.curSize == 1 && s.initSize == 0
    ensures var o := Run(s, [Wait(0)] + ([Submit(y)] + ([Retire(0)] + [])));
            o.Went? && Abandoned(o.s) && o.s.queue == [y]
  {
    RunStep(s, Wait(0), [Submit(y)] + ([Retire(0)] + []));
    var s1 := Step(s, Wait(0)).s;
    RunStep(s1, Submit(y), [Retire(0)] + []);
    var s2 := Step(s1, Submit(y)).s;
    RunStep(s2, Retire(0), []);
  }

  /** A pool that is set up and started has the settings that were asked for; but a threshold that is set in fixed mode
      is ignored. */
  lemma SetUp(s: State, mode: Mode, limit: nat, threshold: nat, n: nat)
    requires !s.running && s.threads == map[] && (n == 0 || s.generated == 0)
    ensures var o := Run(s, [SetMode(mode)] + ([SetLimit(limit)] + ([SetThreshold(threshold)] + ([Start(n)] + []))));
            && o.Went? && o.s.running && o.s.mode == mode && o.s.limit == limit && o.s.initSize == n
            && o.s.threshold == (if mode.Cached? then threshold else s.threshold)
            && |o.s.threads| == n && forall t :: t in o.s.threads ==> o.s.threads[t] == Idle
  {
    RunStep(s, SetMode(mode), [SetLimit(limit)] + ([SetThreshold(threshold)] + ([Start(n)] + [])));
    var s1 := Step(s, SetMode(mode)).s;
    RunStep(s1, SetLimit(limit), [SetThreshold(threshold)] + ([Start(n)] + []));
    var s2 := Step(s1, SetLimit(limit)).s;
    RunStep(s2, SetThreshold(threshold), [Start(n)] + []);
    var s3 := Step(s2, SetThreshold(threshold)).s;
    RunStep(s3, Start(n), []);
  }

  /** When start is safe: only for an empty pool, or as long as no thread object has ever been made. */
  lemma StartExact(generated: nat, n: nat)
    ensures Step(Init(generated), Start(n)).Went? <==> n == 0 || generated == 0
  {
  }

  // ---- the program

  /** ThreadPool.  Each method is a step of the machine; where the threads are, and the history, are ghost. */
  class ThreadPool {
    var mode: Mode
    var initThreadSize: nat
    var taskQueMaxSizeThreshold: nat
    var threadSizeThreshold: nat
    var isPoolRunning: bool
    var threads: set<nat>
    var taskQue: seq<int>
    var taskSize: int
    var curThreadSize: int
    var idleThreadSize: int
    ghost var phase: map<nat, Phase>
    ghost var accepted: seq<int>
    ghost var taken: nat
    ghost var done: set<nat>

    ghost predicate Valid()
      reads this
    {
      threads == phase.Keys
    }

    ghost function View(generated: nat): State
      reads this
    {
      State(mode, initThreadSize, taskQueMaxSizeThreshold, threadSizeThreshold, isPoolRunning, generated, phase,
            taskQue, taskSize, curThreadSize, idleThreadSize, accepted, taken, done)
    }

    constructor (ghost generated: nat)
      ensures Valid() && View(generated) == Init(generated)
    {
      mode, initThreadSize := Fixed, 0;
      taskQueMaxSizeThreshold, threadSizeThreshold := TASK_MAX_THRESHOLD, THREAD_MAX_THRESHOLD;
      isPoolRunning, threads, taskQue, taskSize, curThreadSize, idleThreadSize := false, {}, [], 0, 0, 0;
      phase, accepted, taken, done := map[], [], 0, {};
    }

    /** start on a pool that has not been started; not ok: it followed a null pointer. */
    method Start(n: nat, generated: nat) returns (ok: bool, generated': nat)
      requires Valid() && !isPoolRunning && phase == map[]
      modifies this
      ensures ok ==> Valid() && StartStep(old(View(generated)), n) == Went(View(generated'))
      ensures !ok ==> StartStep(old(View(generated)), n) == Crash
    {
      isPoolRunning, initThreadSize, curThreadSize := true, n, n;
      ok, generated' := RunThreads(n, generated);
    }

    /** The two loops of start. */
    method RunThreads(n: nat, generated: nat) returns (ok: bool, generated': nat)
      requires threads == {} && phase == map[]
      modifies this`threads, this`phase, this`idleThreadSize
      ensures ok <==> n == 0 || generated == 0
      ensures generated' == generated + n
      ensures ok ==> Valid() && phase == FirstThreads(n) && idleThreadSize == old(idleThreadSize) + n
    {
      generated' := CreateThreads(n, generated);
      assert n > 0 ==> (0 in threads <==> generated == 0);
      ok := StartThreads(n);
      assert ok ==> threads == phase.Keys;
    }

    /** The first loop of start: n threads with the next n numbers. */
    method CreateThreads(n: nat, generated: nat) returns (generated': nat)
      modifies this`threads
      ensures generated' == generated + n
      ensures forall t :: t in threads <==> t in old(threads) || generated <= t < generated + n
    {
      generated' := generated;
      for i := 0 to n
        invariant generated' == generated + i
        invariant forall t :: t in threads <==> t in old(threads) || generated <= t < generated + i
      {
        threads := threads + {generated'};
        generated' := generated' + 1;
      }
    }

    /** The second loop of start: it starts the threads with the numbers 0 to n - 1, if they are all there. */
    method StartThreads(n: nat) returns (ok: bool)
      requires phase == map[]
      modifies this`phase, this`idleThreadSize
      ensures ok <==> forall t :: 0 <= t < n ==> t in threads
      ensures ok ==> phase == FirstThreads(n) && idleThreadSize == old(idleThreadSize) + n
    {
      for i := 0 to n
        invariant phase == FirstThreads(i) && idleThreadSize == old(idleThreadSize) + i
        invariant forall t :: 0 <= t < i ==> t in threads
      {
        if i !in threads {
          return false;
        }
        phase := phase[i := Idle];
        idleThreadSize := idleThreadSize + 1;
      }
      ok := true;
    }

    /** submitTask from the moment it has the lock and the wait for room is over. */
    method SubmitTask(task: int, generated: nat) returns (ok: bool, generated': nat)
      requires Valid()
      modifies this
      ensures Valid() && View(generated') == SubmitStep(old(View(generated)), task)
      ensures ok == (|old(taskQue)| < taskQueMaxSizeThreshold)
    {
      generated' := generated;
      if |taskQue| >= taskQueMaxSizeThreshold {
        return false, generated;
      }
      taskQue := taskQue + [task];
      taskSize := taskSize + 1;
      accepted := accepted + [task];
      if mode.Cached? && taskSize > idleThreadSize && curThreadSize < threadSizeThreshold {
        threads := threads + {generated};
        phase := phase[generated := Idle];
        generated' := generated + 1;
        curThreadSize := curThreadSize + 1;
        idleThreadSize := idleThreadSize + 1;
      }
      ok := true;
    }

    /** The part of threadFunc that takes a task. */
    method TakeTask(t: nat, ghost generated: nat) returns (task: int)
      requires Valid() && IsIdle(View(generated), t) && taskQue != []
      modifies this
      ensures Valid() && View(generated) == TakeStep(old(View(generated)), t) && task == old(taskQue)[0]
    {
      idleThreadSize := idleThreadSize - 1;
      task := taskQue[0];
      taskQue := taskQue[1..];
      taskSize := taskSize - 1;
      phase := phase[t := Busy(taken)];
      taken := taken + 1;
    }

    /** The thread has found the queue empty and begins to wait. */
    method BeginWait(ghost t: nat, ghost generated: nat)
      requires Valid() && IsIdle(View(generated), t) && taskQue == []
      modifies this`phase
      ensures Valid() && Step(old(View(generated)), Wait(t)) == Went(View(generated))
    {
      phase := phase[t := Waiting];
    }

    /** The wait in threadFunc has timed out, whatever has been queued meanwhile; the answer is whether the thread
        ends. */
    method Recycle(t: nat, idleSeconds: nat, ghost generated: nat) returns (ended: bool)
      requires Valid() && IsIdle(View(generated), t) && phase[t].Waiting? && mode.Cached?
      modifies this
      ensures Valid() && ended == (idleSeconds >= 60 && old(curThreadSize) > initThreadSize)
      ensures View(generated) == if ended then RetireStep(old(View(generated)), t) else old(View(generated))
    {
      ended := idleSeconds >= 60 && curThreadSize > initThreadSize;
      if ended {
        threads := threads - {t};
        phase := phase - {t};
        curThreadSize := curThreadSize - 1;
        idleThreadSize := idleThreadSize - 1;
      }
    }

    method Finished(t: nat, ghost generated: nat)
      requires Valid() && t in phase && phase[t].Busy?
      modifies this
      ensures Valid() && View(generated) == FinishStep(old(View(generated)), t)
    {
      idleThreadSize := idleThreadSize + 1;
      done := done + {phase[t].k};
      phase := phase[t := Idle];
    }
  }
}
