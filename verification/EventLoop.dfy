/** Handing functions to the event loop goroutine: the functor queue of `RunInLoop`,
    the eventfd that wakes `Poll`, and the loop itself.

    The mutex, the eventfd system calls and each functor call are atomic steps; a run
    is any interleaving of the steps of the loop goroutine and of any number of
    other goroutines. */
module EventLoop {

  // ---------- eventfd ----------

  /** The number an eventfd reads from eight bytes on a little-endian machine. */
  function LittleEndian(bs: seq<int>): int {
    if bs == [] then 0 else bs[0] + 256 * LittleEndian(bs[1..])
  }

  const WAKE_BYTES := [0, 0, 0, 0, 0, 0, 0, 1]
  const WAKE: nat := 0x100_0000_0000_0000
  const EVENTFD_MAX: nat := 0xffff_ffff_ffff_fffe

  lemma ZeroByteFirst(bs: seq<int>)
    ensures LittleEndian([0] + bs) == 256 * LittleEndian(bs)
  {
    assert ([0] + bs)[1..] == bs;
  }

  /** What `wakeup` writes is 2^56, not 1. */
  lemma WakeValue()
    ensures LittleEndian(WAKE_BYTES) == WAKE
  {
    hide LittleEndian;
    var one := [1];
    assert LittleEndian(one) == 1 by { OneByte(1); }
    ZeroByteFirst(one);
    ZeroByteFirst([0] + one);
    ZeroByteFirst([0] + ([0] + one));
    ZeroByteFirst([0] + ([0] + ([0] + one)));
    ZeroByteFirst([0] + ([0] + ([0] + ([0] + one))));
    ZeroByteFirst([0] + ([0] + ([0] + ([0] + ([0] + one)))));
    ZeroByteFirst([0] + ([0] + ([0] + ([0] + ([0] + ([0] + one))))));
    assert WAKE_BYTES == [0] + ([0] + ([0] + ([0] + ([0] + ([0] + ([0] + one))))));
  }

  lemma OneByte(b: int)
    ensures LittleEndian([b]) == b
  {
  }

  /** A non-blocking write: EAGAIN, and no change, when the sum would overflow. */
  function WriteEventfd(counter: nat): nat {
    if counter + WAKE > EVENTFD_MAX then counter else counter + WAKE
  }

  // ---------- states ----------

  /** A queued function: one of the user's, or the one `Stop` submits. */
  datatype Functor = User(id: nat) | StopLoop

  datatype Phase =
    | Before                        // Loop() not called yet
    | Starting                      // running the function given to DoOnLoop, if any
    | Checking                      // about to test `running`
    | Polling                       // blocked in epoll_wait
    | Handling(wake: bool)          // running handlers; `wake`: the eventfd is still to be read
    | Draining(batch: seq<Functor>) // running the functors taken out of the queue
    | Exited                        // Loop() returned
    | Panicked(left: seq<Functor>)  // the process is gone, these were taken out and not run

  /** `appended` holds the goroutines between the append and the write of RunInLoop.
      `stopHook` says whether DoOnStop was given a function: NewEventLoop gives none.
      `submitted`, `executed` and `inlined` record every queued functor in lock order,
      every functor run out of a batch, and every one run in place. */
  datatype State = State(
    phase: Phase,
    running: bool,
    stopHook: bool,
    functors: seq<Functor>,
    counter: nat,
    appended: set<nat>,
    submitted: seq<Functor>,
    executed: seq<Functor>,
    inlined: seq<Functor>)

  const LOOP: nat := 0

  const NEW_LOOP := State(Before, false, false, [], 0, {}, [], [], [])

  datatype Step =
    | Start(tid: nat)
    | Begin
    | Check
    | PollReturns(wake: bool, others: bool)
    | ReadWake
    | TakeFunctors
    | RunNext
    | BatchDone
    | Submit(tid: nat, f: Functor)
    | Wakeup(tid: nat)
    | SetStopHook(given: bool)

  /** The loop goroutine runs user code: hooks, handlers, functors, or code around Loop(). */
  predicate InUserCode(p: Phase) {
    p.Before? || p.Starting? || p.Handling? || p.Draining? || p.Exited?
  }

  /** The loop goroutine is not itself in the middle of a RunInLoop. */
  predicate LoopFree(s: State) {
    LOOP !in s.appended
  }

  predicate Enabled(s: State, st: Step) {
    && !s.phase.Panicked?
    && match st
       case Submit(t, _) => t !in s.appended && (t == LOOP ==> InUserCode(s.phase))
       case Wakeup(t) => t in s.appended
       case Start(t) =>
         && t !in s.appended && (t == LOOP ==> InUserCode(s.phase))
         && (!s.running ==> t == LOOP && (s.phase.Before? || s.phase.Exited?))
       case SetStopHook(_) => true
       case Begin => LoopFree(s) && s.phase.Starting?
       case Check => LoopFree(s) && s.phase.Checking?
       case PollReturns(wake, others) =>
         LoopFree(s) && s.phase.Polling? && (wake || others) && (wake ==> s.counter > 0)
       case ReadWake => LoopFree(s) && s.phase.Handling? && s.phase.wake
       case TakeFunctors => LoopFree(s) && s.phase.Handling? && !s.phase.wake
       case RunNext => LoopFree(s) && s.phase.Draining? && s.phase.batch != []
       case BatchDone => LoopFree(s) && s.phase.Draining? && s.phase.batch == []
  }

  /** Running the function `Stop` submits clears `running`. */
  function StillRunning(running: bool, f: Functor): bool {
    running && !f.StopLoop?
  }

  /** The functors taken out of the queue and not run yet. */
  function Batch(s: State): seq<Functor> {
    match s.phase case Draining(batch) => batch case Panicked(left) => left case _ => []
  }

  function Next(s: State, st: Step): State
    requires Enabled(s, st)
  {
    match st
    case Start(_) => if s.running then s.(phase := Panicked(Batch(s))) else s.(phase := Starting, running := true)
    case Begin => s.(phase := Checking)
    case Check =>
      if s.running then s.(phase := Polling)
      else if s.stopHook then s.(phase := Exited)
      else s.(phase := Panicked([]))  // doOnStop is called without a nil test
    case SetStopHook(given) => s.(stopHook := given)
    case PollReturns(wake, _) => s.(phase := Handling(wake))
    case ReadWake =>
      if s.counter == 0 then s.(phase := Panicked([])) else s.(phase := Handling(false), counter := 0)
    case TakeFunctors => s.(phase := Draining(s.functors), functors := [])
    case RunNext =>
      var f := s.phase.batch[0];
      s.(phase := Draining(s.phase.batch[1..]), executed := s.executed + [f], running := StillRunning(s.running, f))
    case BatchDone => s.(phase := Checking)
    case Submit(t, f) =>
      if s.running && t == LOOP then
        s.(inlined := s.inlined + [f], running := StillRunning(s.running, f))
      else
        s.(functors := s.functors + [f], submitted := s.submitted + [f], appended := s.appended + {t})
    case Wakeup(t) =>
      s.(counter := WriteEventfd(s.counter), appended := s.appended - {t})
  }

  // ---------- the invariant ----------

  /** Nothing queued is lost, doubled or reordered. */
  ghost predicate Conserved(s: State) {
    s.executed + Batch(s) + s.functors == s.submitted
  }

  /** The counter holds between 0 and 255 wake-ups, each worth 2^56. */
  ghost predicate Counted(s: State) {
    exists k: nat :: k <= 255 && s.counter == k * WAKE
  }

  /** Outside the handlers, a queued functor has a wake-up pending or on its way. */
  ghost predicate WakePending(s: State) {
    !s.phase.Handling? && !s.phase.Panicked? && s.functors != [] ==> s.counter > 0 || s.appended != {}
  }

  ghost predicate Inv(s: State) {
    && Conserved(s) && Counted(s) && WakePending(s)
    && (s.phase.Handling? && s.phase.wake ==> s.counter > 0)
    && (s.phase.Polling? ==> s.running)
    && (s.phase.Before? || s.phase.Exited? ==> !s.running)
    && (LOOP in s.appended ==> InUserCode(s.phase) || s.phase.Panicked?)
    && (s.phase.Panicked? ==> s.running || !s.stopHook)
  }

  lemma WriteCounts(s: State)
    requires Counted(s)
    ensures exists k: nat :: 0 < k <= 255 && WriteEventfd(s.counter) == k * WAKE
    ensures WriteEventfd(s.counter) == s.counter ==> s.counter > 0
  {
    var k: nat :| k <= 255 && s.counter == k * WAKE;
    if k < 255 {
      assert WriteEventfd(s.counter) == (k + 1) * WAKE;
    } else {
      assert WriteEventfd(s.counter) == k * WAKE;
    }
  }

  lemma StepConserves(s: State, st: Step)
    requires Conserved(s) && Enabled(s, st)
    ensures Conserved(Next(s, st))
  {
    match st
    case RunNext =>
      FirstRuns(s.executed, s.phase.batch, s.functors);
    case TakeFunctors =>
      assert s.executed + [] + s.functors == s.executed + s.functors + [];
    case BatchDone =>
      assert s.phase.batch == [];
    case Submit(_, f) =>
      assert s.executed + Batch(s) + (s.functors + [f]) == s.executed + Batch(s) + s.functors + [f];
    case _ =>
  }

  lemma FirstRuns(executed: seq<Functor>, batch: seq<Functor>, rest: seq<Functor>)
    requires batch != []
    ensures executed + [batch[0]] + batch[1..] + rest == executed + batch + rest
  {
    assert batch == [batch[0]] + batch[1..];
  }

  lemma StepCounts(s: State, st: Step)
    requires Counted(s) && Enabled(s, st)
    ensures Counted(Next(s, st))
  {
    if st.Wakeup? {
      WriteCounts(s);
    } else if Next(s, st).counter == 0 {
      assert Next(s, st).counter == 0 * WAKE;
    } else {
      assert Next(s, st).counter == s.counter;
    }
  }

  lemma StepKeepsWake(s: State, st: Step)
    requires Inv(s) && Enabled(s, st)
    ensures WakePending(Next(s, st))
  {
    hide Conserved;
    if st.Wakeup? {
      WriteCounts(s);
    }
  }

  lemma StepKeepsInv(s: State, st: Step)
    requires Inv(s) && Enabled(s, st)
    ensures Inv(Next(s, st))
  {
    hide Conserved, Counted, WakePending;
    StepConserves(s, st);
    StepCounts(s, st);
    StepKeepsWake(s, st);
    if st.Wakeup? {
      assert s.counter <= WriteEventfd(s.counter);
    }
  }

  // ---------- runs ----------

  ghost predicate Run(s: State, steps: seq<Step>, r: State)
    decreases |steps|
  {
    if steps == [] then r == s
    else Enabled(s, steps[0]) && Run(Next(s, steps[0]), steps[1..], r)
  }

  lemma {:induction false} RunKeepsInv(s: State, steps: seq<Step>, r: State)
    requires Inv(s) && Run(s, steps, r)
    ensures Inv(r)
    decreases |steps|
  {
    hide Inv, Enabled, Next;
    if steps != [] {
      StepKeepsInv(s, steps[0]);
      RunKeepsInv(Next(s, steps[0]), steps[1..], r);
    }
  }

  /** No lost wake-up: whenever the loop is blocked with a functor queued, either the
      eventfd is readable, so that Poll returns, or a submitter is about to write it. */
  lemma NoLostWakeup(steps: seq<Step>, s: State)
    requires Run(NEW_LOOP, steps, s) && s.phase.Polling? && s.functors != []
    ensures Enabled(s, PollReturns(true, false)) || exists t :: t in s.appended
  {
    hide Run;
    NewInv();
    RunKeepsInv(NEW_LOOP, steps, s);
  }

  lemma NewInv()
    ensures Inv(NEW_LOOP)
  {
    assert NEW_LOOP.counter == 0 * WAKE;
  }

  /** The loop's own read of the eventfd never finds it empty, a failed write leaves
      a wake-up pending, and the counter never overflows. */
  lemma EventfdIsSafe(steps: seq<Step>, s: State)
    requires Run(NEW_LOOP, steps, s)
    ensures Enabled(s, ReadWake) ==> s.counter > 0
    ensures WriteEventfd(s.counter) > 0 && WriteEventfd(s.counter) <= EVENTFD_MAX
    ensures exists k: nat :: k <= 255 && s.counter == k * WAKE
  {
    hide Run;
    NewInv();
    RunKeepsInv(NEW_LOOP, steps, s);
    WriteCounts(s);
  }

  /** After `k` writes without a read the next one fails exactly if it is the 256th. */
  lemma WriteFailsIff(k: nat)
    requires k <= 255
    ensures WriteEventfd(k * WAKE) == k * WAKE <==> k == 255
    ensures k < 255 ==> WriteEventfd(k * WAKE) == (k + 1) * WAKE
  {
  }

  /** In every run the next step brings the process down if and only if it is the loop
      leaving with no function given to DoOnStop, or any goroutine, the loop's own
      included, calling Loop() while it runs. */
  lemma PanicIff(steps: seq<Step>, s: State, st: Step)
    requires Run(NEW_LOOP, steps, s) && Enabled(s, st)
    ensures Next(s, st).phase.Panicked? <==>
            (st.Check? && !s.running && !s.stopHook) || (st.Start? && s.running)
  {
    hide Run, Conserved, Counted, WakePending;
    NewInv();
    RunKeepsInv(NEW_LOOP, steps, s);
  }

  /** A second call does it, by another goroutine at any time or by a functor of the loop. */
  lemma SecondLoopPanics(t: nat)
    ensures var s := Next(NEW_LOOP, Start(LOOP));
      && Run(NEW_LOOP, [Start(LOOP)], s)
      && Enabled(s, Start(t)) && Next(s, Start(t)).phase.Panicked?
  {
    assert [Start(LOOP)][1..] == [];
  }

  predicate NoHookSet(steps: seq<Step>) {
    forall i :: 0 <= i < |steps| ==> !steps[i].SetStopHook?
  }

  /** A loop that is never given such a function never returns from Loop(). */
  lemma {:induction false} DefaultNeverExits(s: State, steps: seq<Step>, r: State)
    requires !s.stopHook && !s.phase.Exited? && Run(s, steps, r) && NoHookSet(steps)
    ensures !r.stopHook && !r.phase.Exited?
    decreases |steps|
  {
    if steps != [] {
      DefaultNeverExits(Next(s, steps[0]), steps[1..], r);
    }
  }

  /** Queued functors run at most once each and in the order they were queued: what
      ran is a prefix of what was queued; and at exit nothing taken out of the queue
      was left unrun, also behind a Stop. */
  lemma ExactlyOnceInOrder(steps: seq<Step>, s: State)
    requires Run(NEW_LOOP, steps, s)
    ensures s.executed <= s.submitted
    ensures s.submitted == s.executed + Batch(s) + s.functors
    ensures s.phase.Exited? ==> s.submitted == s.executed + s.functors
  {
    hide Run;
    NewInv();
    RunKeepsInv(NEW_LOOP, steps, s);
  }

  /** A functor taken out of the queue is run before the loop can leave, also when
      it stands behind a Stop in its batch, unless the process goes down. */
  lemma {:induction false} TakenIsRun(s: State, steps: seq<Step>, r: State)
    requires Run(s, steps, r)
    ensures s.executed + Batch(s) <= r.executed + Batch(r)
    ensures !r.phase.Draining? && !r.phase.Panicked? ==> s.executed + Batch(s) <= r.executed
    decreases |steps|
  {
    hide Next, Enabled;
    if steps != [] {
      StepTakes(s, steps[0]);
      TakenIsRun(Next(s, steps[0]), steps[1..], r);
    }
  }

  lemma StepTakes(s: State, st: Step)
    requires Enabled(s, st)
    ensures s.executed + Batch(s) <= Next(s, st).executed + Batch(Next(s, st))
  {
    if st.RunNext? {
      FirstRuns(s.executed, s.phase.batch, []);
      assert s.executed + s.phase.batch + [] == s.executed + s.phase.batch;
    }
  }

  // ---------- what a run does, read off its steps ----------

  /** A call of RunInLoop: who made it, with what, and whether the loop was running. */
  datatype Submission = Submission(tid: nat, f: Functor, running: bool)

  /** The calls of RunInLoop in a run, in order. */
  function Submissions(s: State, steps: seq<Step>): seq<Submission>
    decreases |steps|
  {
    if steps == [] || !Enabled(s, steps[0]) then []
    else
      (if steps[0].Submit? then [Submission(steps[0].tid, steps[0].f, s.running)] else [])
      + Submissions(Next(s, steps[0]), steps[1..])
  }

  /** The functors of the calls that the loop goroutine made while the loop was running
      (`inPlace`), or of all other calls. */
  function FunctorsOf(calls: seq<Submission>, inPlace: bool): seq<Functor> {
    if calls == [] then []
    else
      (if (calls[0].tid == LOOP && calls[0].running) == inPlace then [calls[0].f] else [])
      + FunctorsOf(calls[1..], inPlace)
  }

  lemma FunctorsOfFirst(c: Submission, calls: seq<Submission>, inPlace: bool)
    ensures FunctorsOf([c] + calls, inPlace) ==
            (if (c.tid == LOOP && c.running) == inPlace then [c.f] else []) + FunctorsOf(calls, inPlace)
  {
    assert ([c] + calls)[1..] == calls;
  }

  /** RunInLoop on the running loop goroutine: the functor has run when the call is done,
      and neither the queue nor the eventfd was touched. */
  lemma RunsInPlace(s: State, f: Functor)
    requires Enabled(s, Submit(LOOP, f)) && s.running
    ensures var t := Next(s, Submit(LOOP, f));
      && t.inlined == s.inlined + [f] && t.running == !f.StopLoop?
      && t.functors == s.functors && t.submitted == s.submitted && t.executed == s.executed
      && t.appended == s.appended && t.counter == s.counter && t.phase == s.phase && t.stopHook == s.stopHook
  {
  }

  /** Every other call leaves the functor at the end of the queue, unrun, and its goroutine
      about to write the eventfd, which is then all that write changes. */
  lemma IsQueued(s: State, t: nat, f: Functor)
    requires Enabled(s, Submit(t, f)) && !(t == LOOP && s.running)
    ensures var q := Next(s, Submit(t, f));
      && q.functors == s.functors + [f] && q.inlined == s.inlined && q.executed == s.executed
      && q.running == s.running && q.phase == s.phase && q.counter == s.counter && q.stopHook == s.stopHook
      && q.appended == s.appended + {t} && Enabled(q, Wakeup(t))
      && var w := Next(q, Wakeup(t));
         w.appended == s.appended && w.counter == WriteEventfd(s.counter) && w == q.(appended := w.appended, counter := w.counter)
  {
    assert s.appended + {t} - {t} == s.appended;
  }

  lemma StepSubmits(s: State, st: Step)
    requires Enabled(s, st) && !st.Submit?
    ensures Next(s, st).inlined == s.inlined && Next(s, st).submitted == s.submitted
  {
  }

  /** In every run the functors run in place are, in order, those the loop goroutine
      submitted while the loop was running, and the queued ones are all others. */
  lemma {:induction false} InPlaceExactly(s: State, steps: seq<Step>, r: State)
    requires Run(s, steps, r)
    ensures r.inlined == s.inlined + FunctorsOf(Submissions(s, steps), true)
    ensures r.submitted == s.submitted + FunctorsOf(Submissions(s, steps), false)
    decreases |steps|
  {
    hide Next, Enabled, FunctorsOf;
    if steps == [] {
      NoFunctors(s);
    } else {
      var st, t := steps[0], Next(s, steps[0]);
      InPlaceExactly(t, steps[1..], r);
      var rest := Submissions(t, steps[1..]);
      if st.Submit? {
        var c := Submission(st.tid, st.f, s.running);
        FunctorsOfFirst(c, rest, true);
        FunctorsOfFirst(c, rest, false);
        SubmitGoesTo(s, st);
        InFront(s.inlined, st.f, FunctorsOf(rest, true));
        InFront(s.submitted, st.f, FunctorsOf(rest, false));
      } else {
        StepSubmits(s, st);
        assert [] + rest == rest;
      }
    }
  }

  lemma NoFunctors(s: State)
    ensures s.inlined + FunctorsOf([], true) == s.inlined && s.submitted + FunctorsOf([], false) == s.submitted
  {
  }

  lemma InFront(a: seq<Functor>, f: Functor, rest: seq<Functor>)
    ensures (a + [f]) + rest == a + ([f] + rest) && a + ([] + rest) == a + rest
  {
  }

  lemma SubmitGoesTo(s: State, st: Step)
    requires Enabled(s, st) && st.Submit?
    ensures var t := Next(s, st);
      if st.tid == LOOP && s.running then t.inlined == s.inlined + [st.f] && t.submitted == s.submitted
      else t.submitted == s.submitted + [st.f] && t.inlined == s.inlined
  {
  }

  /** Loop() goes through its phases in this order: the function given to DoOnLoop, then, as
      long as it runs, poll, handlers with the read of the eventfd among them, the whole
      queue, one functor after the other; no other step moves it. */
  lemma PhaseAfter(s: State, st: Step)
    requires Inv(s) && Enabled(s, st)
    ensures var p := Next(s, st).phase;
      match st
      case Start(_) => if s.running then p == Panicked(Batch(s)) else p == Starting
      case Begin => s.phase == Starting && p == Checking
      case Check => s.phase == Checking && p == if s.running then Polling else if s.stopHook then Exited else Panicked([])
      case PollReturns(wake, _) => s.phase == Polling && p == Handling(wake)
      case ReadWake => s.phase == Handling(true) && p == Handling(false)
      case TakeFunctors => s.phase == Handling(false) && p == Draining(s.functors)
      case RunNext => s.phase.Draining? && |s.phase.batch| > 0 && p == Draining(s.phase.batch[1..])
      case BatchDone => s.phase == Draining([]) && p == Checking
      case _ => p == s.phase
  {
    hide Conserved, Counted, WakePending;
  }

  /** The loop runs after a step exactly if the step starts it, or it ran before and the
      step did not run the function that `Stop` submits. */
  lemma RunningIff(s: State, st: Step)
    requires Enabled(s, st)
    ensures Next(s, st).running <==>
      || st.Start?
      || (&& s.running
          && !(st.RunNext? && s.phase.batch[0] == StopLoop)
          && !(st.Submit? && st.tid == LOOP && st.f == StopLoop))
  {
  }

  /** Writes of the eventfd since it was last read, starting from `n`. */
  function Writes(n: nat, steps: seq<Step>): nat
    decreases |steps|
  {
    if steps == [] then n
    else Writes(if steps[0].Wakeup? then n + 1 else if steps[0].ReadWake? then 0 else n, steps[1..])
  }

  function Least(a: nat, b: nat): nat {
    if a < b then a else b
  }

  lemma StepCounter(s: State, st: Step, n: nat)
    requires Enabled(s, st) && s.counter == Least(n, 255) * WAKE
    ensures Next(s, st).counter ==
            Least(if st.Wakeup? then n + 1 else if st.ReadWake? then 0 else n, 255) * WAKE
  {
    if st.Wakeup? {
      WriteFailsIff(Least(n, 255));
    }
  }

  /** In every run the eventfd holds 2^56 for each write since its last read, up to 255. */
  lemma {:induction false} CounterExactly(s: State, steps: seq<Step>, r: State, n: nat)
    requires Run(s, steps, r) && s.counter == Least(n, 255) * WAKE
    ensures r.counter == Least(Writes(n, steps), 255) * WAKE
    decreases |steps|
  {
    hide Next, Enabled;
    if steps != [] {
      StepCounter(s, steps[0], n);
      var m := if steps[0].Wakeup? then n + 1 else if steps[0].ReadWake? then 0 else n;
      CounterExactly(Next(s, steps[0]), steps[1..], r, m);
    }
  }

  /** Polls that reported the eventfd and were not followed by its read, starting from `n`. */
  function Unread(n: int, steps: seq<Step>): int
    decreases |steps|
  {
    if steps == [] then n
    else Unread(n + (if steps[0].PollReturns? && steps[0].wake then 1 else if steps[0].ReadWake? then -1 else 0), steps[1..])
  }

  function ToRead(p: Phase): int {
    if p.Handling? && p.wake then 1 else 0
  }

  lemma StepReads(s: State, st: Step)
    requires Enabled(s, st)
    ensures Next(s, st).phase.Panicked? ||
      ToRead(Next(s, st).phase) == ToRead(s.phase) +
        (if st.PollReturns? && st.wake then 1 else if st.ReadWake? then -1 else 0)
  {
  }

  /** In every run each poll that reports the eventfd is followed by one read of it, before
      the functors are taken. */
  lemma {:induction false} EachWakeIsRead(s: State, steps: seq<Step>, r: State, n: int)
    requires Run(s, steps, r) && n == ToRead(s.phase) && !r.phase.Panicked?
    ensures Unread(n, steps) == ToRead(r.phase)
    decreases |steps|
  {
    hide Next, Enabled;
    if steps != [] {
      var t := Next(s, steps[0]);
      PanicLasts(t, steps[1..], r);
      StepReads(s, steps[0]);
      EachWakeIsRead(t, steps[1..], r, ToRead(t.phase));
    }
  }

  lemma PanicLasts(s: State, steps: seq<Step>, r: State)
    requires Run(s, steps, r)
    ensures s.phase.Panicked? ==> r == s
  {
    hide Next;
  }

  /** What DoOnStop was last given. */
  function LastHook(given: bool, steps: seq<Step>): bool
    decreases |steps|
  {
    if steps == [] then given else LastHook(if steps[0].SetStopHook? then steps[0].given else given, steps[1..])
  }

  lemma {:induction false} HookExactly(s: State, steps: seq<Step>, r: State)
    requires Run(s, steps, r)
    ensures r.stopHook == LastHook(s.stopHook, steps)
    decreases |steps|
  {
    hide Enabled;
    if steps != [] {
      HookExactly(Next(s, steps[0]), steps[1..], r);
    }
  }

  // ---------- progress ----------

  /** What the loop goroutine does next when it is alone. */
  function LoopStep(s: State): Step {
    match s.phase
    case Starting => Begin
    case Checking => Check
    case Polling => PollReturns(true, false)
    case Handling(wake) => if wake then ReadWake else TakeFunctors
    case Draining(batch) => if batch != [] then RunNext else BatchDone
    case _ => Start(LOOP)
  }

  predicate NoStop(fs: seq<Functor>) {
    forall i :: 0 <= i < |fs| ==> fs[i].User?
  }

  /** How far the loop is from its next batch or, with nothing queued, from its end. */
  ghost function Rank(s: State): nat {
    match s.phase
    case Checking => 3
    case Polling => 2
    case Handling(wake) => (if wake then 1 else 0) + if s.functors == [] then 5 else 0
    case _ => 4
  }

  /** Once the writes are done, the loop goroutine alone runs every queued functor:
      no functor waits for an unrelated event.  A Stop in the batch being drained is
      excluded, because the loop then leaves what is still in the queue. */
  lemma {:induction false} QueueDrains(s: State) returns (steps: seq<Step>, r: State)
    requires Inv(s) && s.appended == {} && !s.phase.Panicked? && (s.running || s.phase.Draining?)
    requires s.phase.Draining? ==> s.functors == [] || (s.running && NoStop(s.phase.batch))
    ensures Run(s, steps, r) && r.executed == s.submitted
    decreases if s.functors != [] then 1 else 0, |Batch(s)|, Rank(s)
  {
    hide Counted;
    if Batch(s) == [] && s.functors == [] {
      steps, r := [], s;
    } else {
      var st := LoopStep(s);
      StepKeepsInv(s, st);
      var t := Next(s, st);
      steps, r := QueueDrains(t);
      steps := [st] + steps;
    }
  }

  predicate InLoop(p: Phase) {
    !p.Before? && !p.Exited? && !p.Panicked?
  }

  /** Once a Stop is queued or has run and the writes are done, the loop goroutine alone
      gets to the end of Loop(): it returns when DoOnStop was given a function and
      panics when it was not. */
  lemma {:induction false} StopEndsLoop(s: State) returns (steps: seq<Step>, r: State)
    requires Inv(s) && s.appended == {} && InLoop(s.phase)
    requires !s.running || StopLoop in Batch(s) || StopLoop in s.functors
    ensures Run(s, steps, r) && r.phase == if s.stopHook then Exited else Panicked([])
    decreases if s.functors != [] then 1 else 0, |Batch(s)|, Rank(s)
  {
    hide Counted, Conserved;
    var st := LoopStep(s);
    StepKeepsInv(s, st);
    var t := Next(s, st);
    if InLoop(t.phase) {
      steps, r := StopEndsLoop(t);
    } else {
      steps, r := [], t;
    }
    steps := [st] + steps;
  }

  lemma RunJoins(s: State, a: seq<Step>, m: State, b: seq<Step>, r: State)
    requires Run(s, a, m) && Run(m, b, r)
    ensures Run(s, a + b, r)
    decreases |a|
  {
    hide Next, Enabled;
    if a == [] {
      assert a + b == b;
    } else {
      assert (a + b)[1..] == a[1..] + b;
      RunJoins(Next(s, a[0]), a[1..], m, b, r);
    }
  }

  /** A new loop that is started and stopped from another goroutine panics. */
  lemma DefaultStopPanics() returns (steps: seq<Step>, r: State)
    ensures Run(NEW_LOOP, [Start(LOOP), Submit(1, StopLoop), Wakeup(1)] + steps, r) && r.phase.Panicked?
  {
    var begun := Next(NEW_LOOP, Start(LOOP));
    var queued := Next(begun, Submit(1, StopLoop));
    var s := Next(queued, Wakeup(1));
    var first := [Start(LOOP), Submit(1, StopLoop), Wakeup(1)];
    assert Run(s, first[3..], s) && Run(queued, first[2..], s) && Run(begun, first[1..], s);
    NewInv();
    RunKeepsInv(NEW_LOOP, first, s);
    steps, r := StopEndsLoop(s);
    RunJoins(NEW_LOOP, first, s, steps, r);
  }

  // ---------- the event loop object ----------

  class Loop {
    var functors: seq<Functor>
    var running: bool
    var stopHook: bool  // doOnStop is not nil
    var counter: nat    // the eventfd

    // where the loop goroutine and the submitting goroutines stand
    var phase: Phase
    var appended: set<nat>
    ghost var submitted: seq<Functor>
    ghost var executed: seq<Functor>
    ghost var inlined: seq<Functor>

    ghost function View(): State
      reads this
    {
      State(phase, running, stopHook, functors, counter, appended, submitted, executed, inlined)
    }

    constructor ()
      ensures View() == NEW_LOOP
    {
      functors, running, stopHook, counter, phase, appended := [], false, false, 0, Before, {};
      submitted, executed, inlined := [], [], [];
    }

    /** RunInLoop up to the unlock; `tid` is the calling goroutine. */
    method RunInLoop(tid: nat, f: Functor)
      requires Enabled(View(), Submit(tid, f))
      modifies this
      ensures View() == Next(old(View()), Submit(tid, f))
    {
      if running && tid == LOOP {
        Call(f);
        inlined := inlined + [f];
      } else {
        functors := functors + [f];
        submitted := submitted + [f];
        appended := appended + {tid};
      }
    }

    /** Calling a functor: only the one `Stop` submits touches the loop itself. */
    method Call(f: Functor)
      modifies this`running
      ensures running == StillRunning(old(running), f)
    {
      if f.StopLoop? {
        running := false;
      }
    }

    /** The write of eight bytes at the end of RunInLoop; EAGAIN is ignored. */
    method Wake(tid: nat)
      requires Enabled(View(), Wakeup(tid))
      modifies this
      ensures View() == Next(old(View()), Wakeup(tid))
    {
      if counter + WAKE <= EVENTFD_MAX {
        counter := counter + WAKE;
      }
      appended := appended - {tid};
    }

    /** The entry of Loop(); `ok` is false where it panics. */
    method EnterLoop(tid: nat) returns (ok: bool)
      requires Enabled(View(), Start(tid))
      modifies this`phase, this`running
      ensures View() == Next(old(View()), Start(tid))
      ensures ok <==> !old(running)
    {
      ok := !running;
      if ok {
        running := true;
        phase := Starting;
      } else {
        phase := Panicked(match phase case Draining(batch) => batch case _ => []);
      }
    }

    /** The test of `running` in Loop() and, when it fails, the call of `doOnStop`; `ok`
        is false where calling nil panics. */
    method CheckRunning() returns (ok: bool)
      requires Enabled(View(), Check)
      modifies this`phase
      ensures View() == Next(old(View()), Check)
      ensures ok <==> running || stopHook
    {
      if running {
        phase := Polling;
        return true;
      }
      phase := if stopHook then Exited else Panicked([]);
      return stopHook;
    }

    /** The read callback of the eventfd: an empty eventfd would panic. */
    method ReadEventfd()
      requires Inv(View()) && Enabled(View(), ReadWake)
      modifies this
      ensures View() == Next(old(View()), ReadWake) && !phase.Panicked?
    {
      counter := 0;
      phase := Handling(false);
    }

    /** Take the queue under the lock. */
    method TakeQueue()
      requires Enabled(View(), TakeFunctors)
      modifies this`phase, this`functors
      ensures View() == Next(old(View()), TakeFunctors)
    {
      phase := Draining(functors);
      functors := [];
    }

    /** One call of the loop over the functors taken; between two calls any goroutine
        may submit more. */
    method RunFunctor()
      requires Enabled(View(), RunNext)
      modifies this`phase, this`running, this`executed
      ensures View() == Next(old(View()), RunNext)
    {
      var f := phase.batch[0];
      Call(f);
      executed := executed + [f];
      phase := Draining(phase.batch[1..]);
    }

    /** The functor being run submits `fs` itself: inline while the loop is running, otherwise
        to the queue, with a wake-up. */
    method SubmitAll(fs: seq<Functor>) returns (ghost steps: seq<Step>)
      requires LoopFree(View()) && phase.Draining?
      modifies this
      ensures Run(old(View()), steps, View())
      ensures LoopFree(View()) && phase == old(phase) && executed == old(executed)
    {
      hide Run, Next;
      steps := [];
      RunNothing(View());
      for i := 0 to |fs|
        invariant Run(old(View()), steps, View())
        invariant LoopFree(View()) && phase == old(phase) && executed == old(executed)
      {
        ghost var s := View();
        RunInLoop(LOOP, fs[i]);
        SubmitShape(s, fs[i]);
        RunStep(old(View()), steps, s, Submit(LOOP, fs[i]));
        steps := steps + [Submit(LOOP, fs[i])];
        if LOOP in appended {
          s := View();
          Wake(LOOP);
          WakeShape(s);
          RunStep(old(View()), steps, s, Wakeup(LOOP));
          steps := steps + [Wakeup(LOOP)];
        }
      }
    }

    /** The rest of one round of Loop(): all functors in the queue are run in order, also when
        they submit more or stop the loop; functor `i` submits `inner[i]`. */
    method DrainQueue(inner: seq<seq<Functor>>) returns (ghost steps: seq<Step>)
      requires Enabled(View(), TakeFunctors) && |inner| == |functors|
      modifies this
      ensures Run(old(View()), steps, View())
      ensures phase.Checking? && executed == old(executed) + old(functors)
    {
      hide Run, Next;
      ghost var start, f := View(), functors;
      TakeQueue();
      TakeShape(start);
      RunNothing(start);
      RunStep(start, [], start, TakeFunctors);
      steps := [TakeFunctors];
      assert [] + [TakeFunctors] == steps && f[0..] == f && executed + f[..0] == executed;
      for i := 0 to |inner|
        invariant Run(start, steps, View()) && LoopFree(View())
        invariant phase == Draining(f[i..]) && executed == start.executed + f[..i]
      {
        ghost var s := View();
        RunFunctor();
        CallShape(s);
        RunStep(start, steps, s, RunNext);
        steps := steps + [RunNext];
        assert f[i..][1..] == f[i + 1..] && f[..i + 1] == f[..i] + [f[i]];
        s := View();
        ghost var more := SubmitAll(inner[i]);
        RunJoins(start, steps, s, more, View());
        steps := steps + more;
      }
      ghost var s := View();
      assert f[..|f|] == f && s.phase.batch == [];
      phase := Checking;
      DoneShape(s);
      RunStep(start, steps, s, BatchDone);
      steps := steps + [BatchDone];
    }
  }

  lemma RunNothing(s: State)
    ensures Run(s, [], s)
  {
  }

  lemma RunStep(s: State, steps: seq<Step>, t: State, st: Step)
    requires Run(s, steps, t) && Enabled(t, st)
    ensures Run(s, steps + [st], Next(t, st))
  {
    hide Next, Enabled;
    assert [st][1..] == [];
    assert Run(Next(t, st), [st][1..], Next(t, st));
    RunJoins(s, steps, t, [st], Next(t, st));
  }

  lemma SubmitShape(s: State, f: Functor)
    requires LoopFree(s) && s.phase.Draining?
    ensures Enabled(s, Submit(LOOP, f))
    ensures var t := Next(s, Submit(LOOP, f)); t.phase == s.phase && t.executed == s.executed
  {
  }

  lemma WakeShape(s: State)
    requires LOOP in s.appended && s.phase.Draining?
    ensures Enabled(s, Wakeup(LOOP))
    ensures var t := Next(s, Wakeup(LOOP)); t.phase == s.phase && t.executed == s.executed && LoopFree(t)
  {
  }

  lemma TakeShape(s: State)
    requires Enabled(s, TakeFunctors)
    ensures var t := Next(s, TakeFunctors);
      t.phase == Draining(s.functors) && t.executed == s.executed && LoopFree(t)
  {
  }

  lemma CallShape(s: State)
    requires Enabled(s, RunNext)
    ensures var t := Next(s, RunNext);
      && t.phase == Draining(s.phase.batch[1..]) && t.executed == s.executed + [s.phase.batch[0]]
      && t.appended == s.appended
  {
  }

  lemma DoneShape(s: State)
    requires LoopFree(s) && s.phase == Draining([])
    ensures Enabled(s, BatchDone) && Next(s, BatchDone) == s.(phase := Checking)
  {
  }
}
