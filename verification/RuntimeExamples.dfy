/** Runs of the runtime that go wrong: two fibers that wait for the same event, a fiber whose event nobody watches, one
    reader whose socket becomes readable while it is in addEvent, and a timeout that comes too early. */
module RuntimeExamples {
  import opened Options
  import opened Runtime
  import opened RuntimeWaits
  import opened RuntimeFaults
  import opened RuntimeTimeouts
  import Io = IoEvents

  lemma RunStep(s: State, x: Step, rest: seq<Step>)
    ensures Run(s, [x] + rest) == Then(Apply(s, x), rest)
  {
    assert ([x] + rest)[1..] == rest;
  }

  /** Thread 0 has fibers 0 and 1 to run. */
  lemma Begins(rest: seq<Step>) returns (s: State)
    ensures Run(INIT, [StartThread(0)] + ([Spawn(0)] + ([Spawn(1)] + rest))) == Run(s, rest)
    ensures s == INIT.(hands := map[0 := Free], queue := map[0 := ResumeFiber(0), 1 := ResumeFiber(1)],
                       pushed := [Push(ResumeFiber(0), Spawned), Push(ResumeFiber(1), Spawned)],
                       fibers := map[0 := Fiber(Ready, Work, InQueue(0)), 1 := Fiber(Ready, Work, InQueue(1))])
  {
    RunStep(INIT, StartThread(0), [Spawn(0)] + ([Spawn(1)] + rest));
    var s1 := Apply(INIT, StartThread(0)).s;
    RunStep(s1, Spawn(0), [Spawn(1)] + rest);
    var s2 := Apply(s1, Spawn(0)).s;
    RunStep(s2, Spawn(1), rest);
    s := Apply(s2, Spawn(1)).s;
  }

  /** Thread t takes fiber f off the queue and resumes it. */
  lemma TakesUp(s: State, t: ThreadId, n: nat, f: FiberId, rest: seq<Step>) returns (s': State)
    requires t in s.hands && s.hands[t].Free? && n in s.queue && s.queue[n] == ResumeFiber(f)
    requires f in s.fibers && s.fibers[f].state.Ready? && s.fibers[f].pc.Work?
    ensures Run(s, [Take(t, n)] + ([Resume(t)] + rest)) == Run(s', rest)
    ensures s' == s.(queue := s.queue - {n}, hands := s.hands[t := Runs(f)],
                     fibers := s.fibers[f := Fiber(Running(t), Work, Nowhere)])
  {
    RunStep(s, Take(t, n), [Resume(t)] + rest);
    var s1 := TakeTask(s, t, n).s;
    assert s1 == s.(queue := s.queue - {n}, hands := s.hands[t := Holds(ResumeFiber(f))],
                    fibers := s.fibers[f := s.fibers[f].(place := InHand(t))]);
    RunStep(s1, Resume(t), rest);
    s' := Resumes(s1, t, f);
    assert s'.fibers == s.fibers[f := Fiber(Running(t), Work, Nowhere)] && s'.hands == s.hands[t := Runs(f)];
  }

  lemma Resumes(s: State, t: ThreadId, f: FiberId) returns (s': State)
    requires t in s.hands && s.hands[t] == Holds(ResumeFiber(f))
    requires f in s.fibers && s.fibers[f].state.Ready? && s.fibers[f].pc.Work?
    ensures Apply(s, Resume(t)) == Went(s')
    ensures s' == s.(hands := s.hands[t := Runs(f)], fibers := s.fibers[f := Fiber(Running(t), Work, Nowhere)])
  {
    s' := ResumeTask(s, t).s;
  }

  /** Fiber f, which thread t runs, calls do_io, and the call would block. */
  lemma Blocks(s: State, t: ThreadId, f: FiberId, fd: nat, e: Event, rest: seq<Step>) returns (s': State)
    requires t in s.hands && s.hands[t] == Runs(f) && f in s.fibers && s.fibers[f] == Fiber(Running(t), Work, Nowhere)
    ensures Run(s, [BeginIo(t, fd, e)] + ([WouldBlock(t, false)] + rest)) == Run(s', rest)
    ensures s' == s.(fibers := s.fibers[f := Fiber(Running(t), Arming(Call(s.nextIo, fd, e, None)), Nowhere)],
                     ios := s.ios[s.nextIo := Info(f, false)], nextIo := s.nextIo + 1)
  {
    RunStep(s, BeginIo(t, fd, e), [WouldBlock(t, false)] + rest);
    var s1 := Begun(s, f, s.fibers[f], fd, e).s;
    RunStep(s1, WouldBlock(t, false), rest);
    s' := Blocked(s1, f, s1.fibers[f], false).s;
  }

  lemma Looks(s: State, t: ThreadId, f: FiberId, c: Call)
    requires t in s.hands && s.hands[t] == Runs(f)
    requires f in s.fibers && s.fibers[f] == Fiber(Running(t), Arming(c), Nowhere)
    requires (c.fd, c.e) !in s.bits
    ensures Apply(s, AddLook(t)) ==
            Went(s.(fibers := s.fibers[f := Fiber(Running(t), Looked(c, Registered(s.bits, c.fd)), Nowhere)]))
  {
  }

  /** It makes the first two parts of addEvent. */
  lemma Arms(s: State, t: ThreadId, f: FiberId, c: Call, rest: seq<Step>) returns (s': State)
    requires t in s.hands && s.hands[t] == Runs(f)
    requires f in s.fibers && s.fibers[f] == Fiber(Running(t), Arming(c), Nowhere)
    requires (c.fd, c.e) !in s.bits && (c.fd in s.kernel <==> Registered(s.bits, c.fd) != {})
    ensures Run(s, [AddLook(t)] + ([AddCtl(t, true)] + rest)) == Run(s', rest)
    ensures s' == s.(fibers := s.fibers[f := Fiber(Running(t), Armed(c), Nowhere)],
                     kernel := s.kernel[c.fd := Registered(s.bits, c.fd) + {c.e}])
  {
    RunStep(s, AddLook(t), [AddCtl(t, true)] + rest);
    Looks(s, t, f, c);
    var s1 := Apply(s, AddLook(t)).s;
    RunStep(s1, AddCtl(t, true), rest);
    s' := Arm(s1, f, true).s;
  }

  /** It makes the last three parts, and yields. */
  lemma Parks(s: State, t: ThreadId, f: FiberId, c: Call, rest: seq<Step>) returns (s': State)
    requires t in s.hands && s.hands[t] == Runs(f)
    requires f in s.fibers && s.fibers[f] == Fiber(Running(t), Armed(c), Nowhere)
    requires (c.fd, c.e) !in s.schedulers && (c.fd, c.e) !in s.stored
    ensures Run(s, [AddBit(t)] + ([AddScheduler(t)] + ([AddWork(t)] + ([Yield(t)] + rest)))) == Run(s', rest)
    ensures s' == s.(fibers := s.fibers[f := Fiber(Ready, Parked(c), AtEvent(c.fd, c.e))], hands := s.hands[t := Free],
                     bits := s.bits + {(c.fd, c.e)}, schedulers := s.schedulers + {(c.fd, c.e)},
                     stored := s.stored[(c.fd, c.e) := Waiter(|s.waits|, f)],
                     waits := s.waits + [Wait(f, c.fd, c.e, true, Waits)])
  {
    var s1 := Marks(s, t, f, c, [AddScheduler(t)] + ([AddWork(t)] + ([Yield(t)] + rest)));
    var s2 := Binds(s1, t, f, c, [AddWork(t)] + ([Yield(t)] + rest));
    s' := Settles(s2, t, f, c, rest);
  }

  lemma Marks(s: State, t: ThreadId, f: FiberId, c: Call, rest: seq<Step>) returns (s': State)
    requires t in s.hands && s.hands[t] == Runs(f)
    requires f in s.fibers && s.fibers[f] == Fiber(Running(t), Armed(c), Nowhere)
    ensures Run(s, [AddBit(t)] + rest) == Run(s', rest)
    ensures s' == s.(fibers := s.fibers[f := Fiber(Running(t), Marked(c), Nowhere)], bits := s.bits + {(c.fd, c.e)})
  {
    RunStep(s, AddBit(t), rest);
    s' := Marking(s, f, s.fibers[f]).s;
  }

  lemma Binds(s: State, t: ThreadId, f: FiberId, c: Call, rest: seq<Step>) returns (s': State)
    requires t in s.hands && s.hands[t] == Runs(f) && (c.fd, c.e) !in s.schedulers && (c.fd, c.e) !in s.stored
    requires f in s.fibers && s.fibers[f] == Fiber(Running(t), Marked(c), Nowhere)
    ensures Run(s, [AddScheduler(t)] + rest) == Run(s', rest)
    ensures s' == s.(fibers := s.fibers[f := Fiber(Running(t), Bound(c), Nowhere)],
                     schedulers := s.schedulers + {(c.fd, c.e)})
  {
    RunStep(s, AddScheduler(t), rest);
    s' := Binding(s, f, s.fibers[f]).s;
  }

  lemma Settles(s: State, t: ThreadId, f: FiberId, c: Call, rest: seq<Step>) returns (s': State)
    requires t in s.hands && s.hands[t] == Runs(f) && (c.fd, c.e) !in s.stored
    requires f in s.fibers && s.fibers[f] == Fiber(Running(t), Bound(c), Nowhere)
    ensures Run(s, [AddWork(t)] + ([Yield(t)] + rest)) == Run(s', rest)
    ensures var heard := (c.fd, c.e) in s.bits && (c.fd, c.e) in s.schedulers;
            s' == s.(fibers := s.fibers[f := Fiber(Ready, Parked(c), AtEvent(c.fd, c.e))], hands := s.hands[t := Free],
                     stored := s.stored[(c.fd, c.e) := Waiter(|s.waits|, f)],
                     waits := s.waits + [Wait(f, c.fd, c.e, heard, Waits)])
  {
    RunStep(s, AddWork(t), [Yield(t)] + rest);
    var s1 := Storing(s, f).s;
    RunStep(s1, Yield(t), rest);
    s' := Yielded(s1, t, f, s1.fibers[f]).s;
  }

  /** Fiber 0 waits until descriptor 0 is readable, and then fiber 1 waits for event e of the same descriptor. */
  function TwoWaits(e: Event, rest: seq<Step>): seq<Step> {
    [StartThread(0)] + ([Spawn(0)] + ([Spawn(1)] +
    ([Take(0, 0)] + ([Resume(0)] + ([BeginIo(0, 0, Io.Read)] + ([WouldBlock(0, false)] +
    ([AddLook(0)] + ([AddCtl(0, true)] + ([AddBit(0)] + ([AddScheduler(0)] + ([AddWork(0)] + ([Yield(0)] +
    ([Take(0, 1)] + ([Resume(0)] + ([BeginIo(0, 0, e)] + ([WouldBlock(0, false)] + rest))))))))))))))))
  }

  /** The contexts hold fiber 0, which waits until descriptor 0 is readable. */
  ghost predicate OneReader(s: State) {
    && s.bits == {(0, Io.Read)} && s.schedulers == {(0, Io.Read)} && s.stored == map[(0, Io.Read) := Waiter(0, 0)]
    && s.waits == [Wait(0, 0, Io.Read, true, Waits)]
  }

  ghost predicate SecondBlocks(s: State, e: Event) {
    && s.hands == map[0 := Runs(1)] && OneReader(s) && s.kernel == map[0 := {Io.Read}]
    && s.fibers == map[0 := Fiber(Ready, Parked(Call(0, 0, Io.Read, None)), AtEvent(0, Io.Read)),
                       1 := Fiber(Running(0), Arming(Call(1, 0, e, None)), Nowhere)]
  }

  lemma FirstParks(rest: seq<Step>) returns (s: State)
    ensures Run(INIT, [StartThread(0)] + ([Spawn(0)] + ([Spawn(1)] +
                ([Take(0, 0)] + ([Resume(0)] + ([BeginIo(0, 0, Io.Read)] + ([WouldBlock(0, false)] +
                ([AddLook(0)] + ([AddCtl(0, true)] + ([AddBit(0)] + ([AddScheduler(0)] + ([AddWork(0)] +
                ([Yield(0)] + rest))))))))))))) == Run(s, rest)
    ensures s.hands == map[0 := Free] && s.queue == map[1 := ResumeFiber(1)] && s.nextIo == 1
    ensures OneReader(s) && s.kernel == map[0 := {Io.Read}]
    ensures s.fibers == map[0 := Fiber(Ready, Parked(Call(0, 0, Io.Read, None)), AtEvent(0, Io.Read)),
                            1 := Fiber(Ready, Work, InQueue(1))]
  {
    var s1 := ReaderArms([AddBit(0)] + ([AddScheduler(0)] + ([AddWork(0)] + ([Yield(0)] + rest))));
    s := Parks(s1, 0, 0, Call(0, 0, Io.Read, None), rest);
  }

  lemma SecondFollows(e: Event, rest: seq<Step>) returns (s: State)
    ensures Run(INIT, TwoWaits(e, rest)) == Run(s, rest) && SecondBlocks(s, e)
  {
    var block := [BeginIo(0, 0, e)] + ([WouldBlock(0, false)] + rest);
    var s1 := FirstParks([Take(0, 1)] + ([Resume(0)] + block));
    var s2 := TakesUp(s1, 0, 1, 1, block);
    s := Blocks(s2, 0, 1, 0, e, rest);
  }

  /** Two fibers that read from one socket: the assertion of addEvent stops the second one. */
  lemma TwoReadersCrash()
    ensures Run(INIT, TwoWaits(Io.Read, [AddLook(0)] + [])).Crash?
  {
    var s := SecondFollows(Io.Read, [AddLook(0)] + []);
    RunStep(s, AddLook(0), []);
  }

  const READABLE := Io.Report(true, false, false)

  /** The writer is in addEvent, after its epoll_ctl, and the reader waits. */
  ghost predicate WriterArmed(s: State) {
    && s.hands == map[0 := Runs(1)] && OneReader(s) && s.kernel == map[0 := {Io.Read, Io.Write}]
    && s.fibers.Keys == {0, 1} && s.fibers[0].pc == Parked(Call(0, 0, Io.Read, None))
    && s.fibers[1] == Fiber(Running(0), Armed(Call(1, 0, Io.Write, None)), Nowhere)
  }

  lemma WriterArms(rest: seq<Step>) returns (s: State)
    ensures Run(INIT, TwoWaits(Io.Write, [AddLook(0)] + ([AddCtl(0, true)] + rest))) == Run(s, rest) && WriterArmed(s)
  {
    var s0 := SecondFollows(Io.Write, [AddLook(0)] + ([AddCtl(0, true)] + rest));
    s := Arms(s0, 0, 1, Call(1, 0, Io.Write, None), rest);
    assert Registered(s0.bits, 0) + {Io.Write} == {Io.Read, Io.Write};
  }

  /** idle() handles the readable socket: it triggers the reader, and takes the descriptor away from the kernel. */
  lemma ReaderWakes(s: State)
    requires WriterArmed(s)
    ensures var o := Apply(s, Readiness(0, READABLE, true));
            && o.Went? && o.s.kernel == map[] && o.s.bits == {} && o.s.schedulers == {} && o.s.stored == map[]
            && o.s.hands == s.hands
            && o.s.fibers.Keys == {0, 1} && o.s.fibers[1] == s.fibers[1] && o.s.fibers[0].pc == s.fibers[0].pc
  {
    assert Registered(s.bits, 0) == {Io.Read} && Io.RealEvents(READABLE, {Io.Read}) == {Io.Read};
    assert {Io.Read} * {Io.Read} == {Io.Read} && {Io.Read} - {Io.Read} == {};
  }

  /** A reader and a writer on one socket: while the writer is in addEvent the socket becomes readable.  idle() sees
      the reader alone, and takes the descriptor away from the kernel; the writer then waits for ever. */
  lemma WriterIsStranded()
    ensures var o := Run(INIT, TwoWaits(Io.Write, [AddLook(0)] + ([AddCtl(0, true)] + ([Readiness(0, READABLE, true)] +
                         ([AddBit(0)] + ([AddScheduler(0)] + ([AddWork(0)] + ([Yield(0)] + []))))))));
            o.Went? && Forsaken(o.s, 1) && o.s.fibers[1].place == AtEvent(0, Io.Write) && Unknown(o.s, 0)
  {
    var park := [AddBit(0)] + ([AddScheduler(0)] + ([AddWork(0)] + ([Yield(0)] + [])));
    var s := WriterArms([Readiness(0, READABLE, true)] + park);
    RunStep(s, Readiness(0, READABLE, true), park);
    ReaderWakes(s);
    var s1 := Parks(Apply(s, Readiness(0, READABLE, true)).s, 0, 1, Call(1, 0, Io.Write, None), []);
  }

  // ---- one reader of one socket

  /** Fiber 0 reads from descriptor 0, and is in addEvent, after its bit. */
  function OneReads(rest: seq<Step>): seq<Step> {
    [StartThread(0)] + ([Spawn(0)] + ([Spawn(1)] +
    ([Take(0, 0)] + ([Resume(0)] + ([BeginIo(0, 0, Io.Read)] + ([WouldBlock(0, false)] +
    ([AddLook(0)] + ([AddCtl(0, true)] + ([AddBit(0)] + rest)))))))))
  }

  ghost predicate ReaderMarked(s: State) {
    && s.hands == map[0 := Runs(0)] && s.kernel == map[0 := {Io.Read}] && s.bits == {(0, Io.Read)}
    && s.schedulers == {} && s.stored == map[] && s.waits == []
    && 0 in s.fibers && s.fibers[0] == Fiber(Running(0), Marked(Call(0, 0, Io.Read, None)), Nowhere)
  }

  lemma ReaderMarks(rest: seq<Step>) returns (s: State)
    ensures Run(INIT, OneReads(rest)) == Run(s, rest) && ReaderMarked(s)
  {
    var c := Call(0, 0, Io.Read, None);
    var s1 := ReaderArms([AddBit(0)] + rest);
    s := Marks(s1, 0, 0, c, rest);
  }

  lemma ReaderArms(rest: seq<Step>) returns (s: State)
    ensures Run(INIT, [StartThread(0)] + ([Spawn(0)] + ([Spawn(1)] +
                      ([Take(0, 0)] + ([Resume(0)] + ([BeginIo(0, 0, Io.Read)] + ([WouldBlock(0, false)] +
                      ([AddLook(0)] + ([AddCtl(0, true)] + rest))))))))) == Run(s, rest)
    ensures s.hands == map[0 := Runs(0)] && s.kernel == map[0 := {Io.Read}] && s.bits == {}
    ensures s.schedulers == {} && s.stored == map[] && s.waits == []
    ensures 0 in s.fibers && s.fibers[0] == Fiber(Running(0), Armed(Call(0, 0, Io.Read, None)), Nowhere)
    ensures s.fibers == map[0 := s.fibers[0], 1 := Fiber(Ready, Work, InQueue(1))]
    ensures s.queue == map[1 := ResumeFiber(1)] && s.nextIo == 1
  {
    var add := [AddLook(0)] + ([AddCtl(0, true)] + rest);
    var block := [BeginIo(0, 0, Io.Read)] + ([WouldBlock(0, false)] + add);
    var s1 := Begins([Take(0, 0)] + ([Resume(0)] + block));
    var s2 := TakesUp(s1, 0, 0, 0, block);
    var s3 := Blocks(s2, 0, 0, 0, Io.Read, add);
    s := Arms(s3, 0, 0, Call(0, 0, Io.Read, None), rest);
    assert {} + {Io.Read} == {Io.Read};
  }

  lemma ReadableNow(s: State)
    requires 0 in s.kernel && s.bits == {(0, Io.Read)}
    ensures var asked := Io.RealEvents(READABLE, Registered(s.bits, 0));
            asked == {Io.Read} && Withdraw(s, 0, asked, true) == Some(s.kernel - {0})
  {
    assert Registered(s.bits, 0) == {Io.Read};
    assert {Io.Read} * {Io.Read} == {Io.Read} && {Io.Read} - {Io.Read} == {};
  }

  /** The socket becomes readable before the scheduler is stored: idle() follows the null pointer. */
  lemma OneReaderCrashes()
    ensures Run(INIT, OneReads([Readiness(0, READABLE, true)] + [])).Crash?
  {
    var s := ReaderMarks([Readiness(0, READABLE, true)] + []);
    RunStep(s, Readiness(0, READABLE, true), []);
    ReadableNow(s);
  }

  /** idle() between the scheduler and the fiber: nothing is scheduled, and the context is empty. */
  lemma ReaderMissed(s: State)
    requires ReaderMarked(s)
    ensures var bound := Apply(s, AddScheduler(0));
            && bound.Went? && var o := Apply(bound.s, Readiness(0, READABLE, true));
            && o.Went? && o.s.hands == s.hands && o.s.kernel == map[] && o.s.bits == {} && o.s.schedulers == {}
            && o.s.stored == map[] && o.s.waits == [] && o.s.pushed == s.pushed && 0 in o.s.fibers
            && o.s.fibers[0] == Fiber(Running(0), Bound(Call(0, 0, Io.Read, None)), Nowhere)
  {
    ReadableNow(Apply(s, AddScheduler(0)).s);
  }

  /** The socket becomes readable between the scheduler and the fiber: the reader waits for ever. */
  lemma OneReaderLost()
    ensures var o := Run(INIT, OneReads([AddScheduler(0)] + ([Readiness(0, READABLE, true)] +
                                        ([AddWork(0)] + ([Yield(0)] + [])))));
            && o.Went? && Forsaken(o.s, 0) && o.s.waits == [Wait(0, 0, Io.Read, false, Waits)] && Unheard(o.s, 0)
  {
    var store := [AddWork(0)] + ([Yield(0)] + []);
    var s := ReaderMarks([AddScheduler(0)] + ([Readiness(0, READABLE, true)] + store));
    RunStep(s, AddScheduler(0), [Readiness(0, READABLE, true)] + store);
    ReaderMissed(s);
    var s1 := Apply(s, AddScheduler(0)).s;
    RunStep(s1, Readiness(0, READABLE, true), store);
    var s2 := Settles(Apply(s1, Readiness(0, READABLE, true)).s, 0, 0, Call(0, 0, Io.Read, None), []);
  }

  // ---- a timeout that comes too early

  /** Fiber 0 has set its timer and is about to call addEvent; the timer expires, and thread 1 runs the callback. */
  function EarlyTimeout(rest: seq<Step>): seq<Step> {
    [StartThread(0)] + ([Spawn(0)] + ([Spawn(1)] + ([Take(0, 0)] + ([Resume(0)] +
    ([BeginIo(0, 0, Io.Read)] + ([WouldBlock(0, true)] + ([StartThread(1)] +
    ([Expire(0)] + ([Take(1, 2)] + ([RunCallback(1, true)] + rest))))))))))
  }

  ghost predicate TimedReader(s: State) {
    && s.hands == map[0 := Runs(0)] && s.kernel == map[] && s.bits == {} && s.schedulers == {} && s.stored == map[]
    && s.waits == [] && |s.pushed| == 2 && s.queue == map[1 := ResumeFiber(1)] && s.ios == map[0 := Info(0, false)]
    && s.timers == map[0 := IoAlarm(0, 0, Io.Read)]
    && 0 in s.fibers && s.fibers[0] == Fiber(Running(0), Arming(Call(0, 0, Io.Read, Some(0))), Nowhere)
  }

  lemma TimedBlocks(rest: seq<Step>) returns (s: State)
    ensures Run(INIT, [StartThread(0)] + ([Spawn(0)] + ([Spawn(1)] + ([Take(0, 0)] + ([Resume(0)] +
                      ([BeginIo(0, 0, Io.Read)] + ([WouldBlock(0, true)] + rest))))))) == Run(s, rest)
    ensures TimedReader(s)
  {
    var block := [BeginIo(0, 0, Io.Read)] + ([WouldBlock(0, true)] + rest);
    var s1 := Begins([Take(0, 0)] + ([Resume(0)] + block));
    var s2 := TakesUp(s1, 0, 0, 0, block);
    s := SetsTimer(s2, rest);
  }

  lemma SetsTimer(s: State, rest: seq<Step>) returns (s': State)
    requires 0 in s.hands && s.hands[0] == Runs(0) && 0 in s.fibers && s.fibers[0] == Fiber(Running(0), Work, Nowhere)
    requires s.nextIo == 0 && s.nextTimer == 0 && s.ios == map[] && s.timers == map[]
    ensures Run(s, [BeginIo(0, 0, Io.Read)] + ([WouldBlock(0, true)] + rest)) == Run(s', rest)
    ensures s' == s.(fibers := s.fibers[0 := Fiber(Running(0), Arming(Call(0, 0, Io.Read, Some(0))), Nowhere)],
                     ios := map[0 := Info(0, false)], nextIo := 1, nextTimer := 1,
                     timers := map[0 := IoAlarm(0, 0, Io.Read)])
  {
    RunStep(s, BeginIo(0, 0, Io.Read), [WouldBlock(0, true)] + rest);
    var s1 := Begun(s, 0, s.fibers[0], 0, Io.Read).s;
    RunStep(s1, WouldBlock(0, true), rest);
    s' := Blocked(s1, 0, s1.fibers[0], true).s;
  }

  lemma RingsTooEarly(s: State, rest: seq<Step>) returns (s': State)
    requires TimedReader(s)
    ensures Run(s, [StartThread(1)] + ([Expire(0)] + ([Take(1, 2)] + ([RunCallback(1, true)] + rest)))) == Run(s', rest)
    ensures s'.hands == map[0 := Runs(0), 1 := Free] && s'.fibers == s.fibers && s'.kernel == map[] && s'.bits == {}
    ensures s'.schedulers == {} && s'.stored == map[] && s'.timers == map[] && s'.queue == map[1 := ResumeFiber(1)]
    ensures s'.waits == [] && s'.ios == map[0 := Info(0, true)]
  {
    RunStep(s, StartThread(1), [Expire(0)] + ([Take(1, 2)] + ([RunCallback(1, true)] + rest)));
    var s1 := Apply(s, StartThread(1)).s;
    RunStep(s1, Expire(0), [Take(1, 2)] + ([RunCallback(1, true)] + rest));
    var s2 := ExpireTimer(s1, 0).s;
    assert s2 == s1.(timers := map[], queue := map[1 := ResumeFiber(1), 2 := Timeout(0, 0, 0, Io.Read)],
                     pushed := s.pushed + [Push(Timeout(0, 0, 0, Io.Read), Expired)]);
    s' := CallbackMisses(s2, rest);
  }

  lemma NothingToCancel(s: State)
    requires 1 in s.hands && s.hands[1] == Holds(Timeout(0, 0, 0, Io.Read)) && s.bits == {}
    requires s.ios == map[0 := Info(0, false)]
    ensures Apply(s, RunCallback(1, true)) == Went(s.(hands := s.hands[1 := Free], ios := map[0 := Info(0, true)]))
  {
    assert Registered(s.bits, 0) * {Io.Read} == {};
  }

  lemma CallbackMisses(s: State, rest: seq<Step>) returns (s': State)
    requires s.hands == map[0 := Runs(0), 1 := Free] && s.bits == {} && s.ios == map[0 := Info(0, false)]
    requires s.queue == map[1 := ResumeFiber(1), 2 := Timeout(0, 0, 0, Io.Read)]
    ensures Run(s, [Take(1, 2)] + ([RunCallback(1, true)] + rest)) == Run(s', rest)
    ensures s' == s.(queue := map[1 := ResumeFiber(1)], ios := map[0 := Info(0, true)])
  {
    RunStep(s, Take(1, 2), [RunCallback(1, true)] + rest);
    var s1 := TakeTask(s, 1, 2).s;
    assert s1 == s.(queue := map[1 := ResumeFiber(1)], hands := map[0 := Runs(0), 1 := s1.hands[1]]);
    RunStep(s1, RunCallback(1, true), rest);
    s' := s.(queue := map[1 := ResumeFiber(1)], ios := map[0 := Info(0, true)]);
    NothingToCancel(s1);
    assert s1.hands[1 := Free] == s.hands;
  }

  /** A timer that expires before its addEvent has set the bit finds nothing to cancel: the fiber then waits with its
      event registered, and with no timer and no callback left. */
  lemma TimeoutTooEarly()
    ensures var o := Run(INIT, EarlyTimeout([AddLook(0)] + ([AddCtl(0, true)] + ([AddBit(0)] + ([AddScheduler(0)] +
                                            ([AddWork(0)] + ([Yield(0)] + [])))))));
            && o.Went? && 0 in o.s.fibers && o.s.fibers[0].state.Ready? && Timed(o.s.fibers[0].pc)
            && Reaches(o.s, AtEvent(0, Io.Read), 0) && !Rings(o.s, 0, 0, 0, Io.Read)
  {
    var c := Call(0, 0, Io.Read, Some(0));
    var park := [AddBit(0)] + ([AddScheduler(0)] + ([AddWork(0)] + ([Yield(0)] + [])));
    var add := [AddLook(0)] + ([AddCtl(0, true)] + park);
    var s := TimedBlocks([StartThread(1)] + ([Expire(0)] + ([Take(1, 2)] + ([RunCallback(1, true)] + add))));
    var s1 := RingsTooEarly(s, add);
    var s2 := Arms(s1, 0, 0, c, park);
    var s3 := Parks(s2, 0, 0, c, []);
  }
}
