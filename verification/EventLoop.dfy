/** The queue of functions and the wake-up protocol of net/event_loop/event_loop.go, as interleaved atomic
    steps of the loop, of any number of producers and of any number of callers of Stop. */
module EventLoop {
  // ---------- The machine ----------

  /** Where the goroutine in Run is. */
  datatype LoopPc =
    | NotStarted
    | Waiting                // in, or about to enter, the wait
    | Dispatching(saw: bool) // the wait is over; saw: the wake event was among the results
    | BeforeSwap             // wants the mutex
    | Locked                 // holds the mutex, has not swapped yet
    | Swapped                // holds the mutex, has swapped
    | Running(next: nat)     // running the snapshot; next is the next task
    | Exited

  /** How far the producer inside RunInLoop is. */
  datatype Stage = Acquired | Appended | Woken

  datatype Mutex<+T> = Free | HeldByLoop | HeldByProducer(task: T, stage: Stage)

  /** kqueue clears its wake event when it reports it; epoll when the loop reads the event
      descriptor, after the wait. */
  datatype Platform = KqueuePlatform | EpollPlatform

  datatype State<+T> = State(
    pc: LoopPc,
    mutex: Mutex<T>,
    functions: seq<T>,
    snapshot: seq<T>,
    token: bool,          // a wake-up is pending in the kernel
    running: bool,
    waitDone: bool,       // the channel is closed
    stopChecked: nat,     // callers of Stop that found the loop running
    stopWaiting: nat,     // callers of Stop blocked on waitDone
    multiClosed: bool,
    executed: seq<T>,     // history: tasks run, in order
    appended: seq<T>,     // history: tasks appended, in order
    lastSwap: nat)        // history: how many had been appended at the last swap

  datatype Step<+T> =
    | Start
    | WaitReturns(saw: bool)
    | Consume
    | LockForSwap
    | Swap
    | UnlockAfterSwap
    | RunTask
    | EndPass
    | Acquire(task: T)
    | Append
    | Wake
    | Release
    | StopCheck
    | StopSet
    | StopReturns

  function Initial<T>(): State<T> {
    State(NotStarted, Free, [], [], false, false, false, 0, 0, false, [], [], 0)
  }

  predicate Enabled<T>(s: State<T>, step: Step<T>) {
    match step
    case Start => s.pc == NotStarted
    case WaitReturns(saw) => s.pc == Waiting && (saw ==> s.token)
    case Consume => s.pc.Dispatching?
    case LockForSwap => s.pc == BeforeSwap && s.mutex.Free?
    case Swap => s.pc == Locked
    case UnlockAfterSwap => s.pc == Swapped
    case RunTask => s.pc.Running? && s.pc.next < |s.snapshot|
    case EndPass => s.pc.Running? && s.pc.next >= |s.snapshot|
    case Acquire(_) => s.mutex.Free?
    case Append => s.mutex.HeldByProducer? && s.mutex.stage == Acquired
    case Wake => s.mutex.HeldByProducer? && s.mutex.stage == Appended
    case Release => s.mutex.HeldByProducer? && s.mutex.stage == Woken
    case StopCheck => s.running
    case StopSet => s.stopChecked > 0
    case StopReturns => s.stopWaiting > 0 && s.waitDone
  }

  function Apply<T>(p: Platform, s: State<T>, step: Step<T>): State<T>
    requires Enabled(s, step)
  {
    match step
    case Start => s.(running := true, pc := Waiting)
    case WaitReturns(saw) =>
      s.(pc := Dispatching(saw), token := if p.KqueuePlatform? && saw then false else s.token)
    case Consume =>
      s.(pc := BeforeSwap, token := if p.EpollPlatform? && s.pc.saw then false else s.token)
    case LockForSwap => s.(pc := Locked, mutex := HeldByLoop)
    case Swap => s.(pc := Swapped, snapshot := s.functions, functions := [], lastSwap := |s.appended|)
    case UnlockAfterSwap => s.(pc := Running(0), mutex := Free)
    case RunTask => s.(pc := Running(s.pc.next + 1), executed := s.executed + [s.snapshot[s.pc.next]])
    case EndPass => if s.running then s.(pc := Waiting) else s.(pc := Exited, waitDone := true)
    case Acquire(t) => s.(mutex := HeldByProducer(t, Acquired))
    case Append =>
      s.(mutex := HeldByProducer(s.mutex.task, Appended),
         functions := s.functions + [s.mutex.task], appended := s.appended + [s.mutex.task])
    case Wake => s.(mutex := HeldByProducer(s.mutex.task, Woken), token := true)
    case Release => s.(mutex := Free)
    case StopCheck => s.(stopChecked := s.stopChecked + 1)
    case StopSet => s.(stopChecked := s.stopChecked - 1, stopWaiting := s.stopWaiting + 1, running := false)
    case StopReturns => s.(stopWaiting := s.stopWaiting - 1, multiClosed := true)
  }

  predicate Legal<T>(p: Platform, steps: seq<Step<T>>)
    decreases |steps|, 0
  {
    steps == []
    || (Legal(p, steps[..|steps| - 1])
        && Enabled(Run(p, steps[..|steps| - 1]), steps[|steps| - 1]))
  }

  function Run<T>(p: Platform, steps: seq<Step<T>>): State<T>
    requires Legal(p, steps)
    decreases |steps|, 1
  {
    if steps == [] then Initial()
    else Apply(p, Run(p, steps[..|steps| - 1]), steps[|steps| - 1])
  }

  lemma RunSnoc<T>(p: Platform, steps: seq<Step<T>>, step: Step<T>)
    requires Legal(p, steps) && Enabled(Run(p, steps), step)
    ensures Legal(p, steps + [step])
    ensures Run(p, steps + [step]) == Apply(p, Run(p, steps), step)
  {
    assert (steps + [step])[..|steps|] == steps;
  }

  // ---------- What every step keeps ----------

  /** The mutex is with the loop exactly between its lock and its unlock. */
  predicate LockDiscipline<T>(s: State<T>) {
    s.mutex.HeldByLoop? <==> s.pc == Locked || s.pc == Swapped
  }

  /** The part of the snapshot not run yet. */
  function Unrun<T>(s: State<T>): seq<T> {
    match s.pc
    case Swapped => s.snapshot
    case Running(next) => if next <= |s.snapshot| then s.snapshot[next..] else []
    case _ => []
  }

  /** The tasks taken out of the queue so far, run or in the snapshot still to be run. */
  function Taken<T>(s: State<T>): seq<T> {
    s.executed + Unrun(s)
  }

  /** Every task is in exactly one place, in the order of the appends; the last swap took what had been
      appended by then. */
  ghost predicate Fifo<T>(s: State<T>) {
    && Taken(s) + s.functions == s.appended
    && |Taken(s)| == s.lastSwap
    && (s.pc.Running? ==> s.pc.next <= |s.snapshot|)
  }

  /** A task in the queue has a wake-up pending, or its producer is about to send one, or the loop is
      past its wait and has yet to swap. */
  predicate WakePromised<T>(s: State<T>) {
    s.functions != [] ==>
      || s.token
      || (s.mutex.HeldByProducer? && s.mutex.stage == Appended)
      || s.pc.Dispatching? || s.pc == BeforeSwap || s.pc == Locked
  }

  /** The channel is closed when Run returns, and the multiplexer only after that. */
  predicate ShutdownOrder<T>(s: State<T>) {
    && (s.waitDone <==> s.pc == Exited)
    && (s.multiClosed ==> s.pc == Exited)
    && (s.pc == Exited ==> !s.running)
  }

  /** Only a started loop that has not returned is running. */
  predicate RunningInside<T>(s: State<T>) {
    s.running ==> s.pc != NotStarted && s.pc != Exited
  }

  ghost predicate Inv<T>(s: State<T>) {
    LockDiscipline(s) && Fifo(s) && WakePromised(s) && ShutdownOrder(s) && RunningInside(s)
  }

  lemma FirstMoved<T>(done: seq<T>, snapshot: seq<T>, next: nat)
    requires next < |snapshot|
    ensures done + [snapshot[next]] + snapshot[next + 1..] == done + snapshot[next..]
  {
  }

  lemma RunTaskTakesNothing<T>(p: Platform, s: State<T>)
    requires Enabled(s, RunTask)
    ensures Taken(Apply(p, s, RunTask)) == Taken(s)
  {
    FirstMoved(s.executed, s.snapshot, s.pc.next);
  }

  lemma UnlockTakesNothing<T>(p: Platform, s: State<T>)
    requires Enabled(s, UnlockAfterSwap)
    ensures Taken(Apply(p, s, UnlockAfterSwap)) == Taken(s)
  {
    assert s.snapshot[0..] == s.snapshot;
  }

  lemma EndPassTakesNothing<T>(p: Platform, s: State<T>)
    requires Enabled(s, EndPass)
    ensures Taken(Apply(p, s, EndPass)) == Taken(s)
  {
    assert Unrun(s) == [];
  }

  /** The steps that touch neither the snapshot nor the history. */
  predicate Aside<T>(step: Step<T>) {
    !step.Swap? && !step.RunTask? && !step.UnlockAfterSwap? && !step.EndPass?
  }

  lemma AsideTakesNothing<T>(p: Platform, s: State<T>, step: Step<T>)
    requires Enabled(s, step) && Aside(step)
    ensures Taken(Apply(p, s, step)) == Taken(s)
  {
    assert Unrun(Apply(p, s, step)) == Unrun(s);
  }

  /** Only the swap takes tasks out of the queue. */
  lemma OnlySwapTakes<T>(p: Platform, s: State<T>, step: Step<T>)
    requires Enabled(s, step) && !step.Swap?
    ensures Taken(Apply(p, s, step)) == Taken(s)
  {
    match step
    case RunTask => RunTaskTakesNothing(p, s);
    case UnlockAfterSwap => UnlockTakesNothing(p, s);
    case EndPass => EndPassTakesNothing(p, s);
    case _ => AsideTakesNothing(p, s, step);
  }

  /** The swap takes all of the queue. */
  lemma SwapTakesAll<T>(p: Platform, s: State<T>)
    requires Enabled(s, Swap)
    ensures Taken(Apply(p, s, Swap)) == Taken(s) + s.functions
  {
    assert Unrun(s) == [];
    assert Taken(s) == s.executed;
  }

  lemma AppendedAtTheEnd<T>(taken: seq<T>, functions: seq<T>, task: T)
    ensures taken + (functions + [task]) == (taken + functions) + [task]
  {
  }

  lemma FifoStep<T>(p: Platform, s: State<T>, step: Step<T>)
    requires Fifo(s) && Enabled(s, step)
    ensures Fifo(Apply(p, s, step))
  {
    match step
    case Swap =>
      SwapTakesAll(p, s);
      assert Taken(Apply(p, s, step)) + [] == Taken(Apply(p, s, step));
    case Append =>
      OnlySwapTakes(p, s, step);
      AppendedAtTheEnd(Taken(s), s.functions, s.mutex.task);
    case _ => OnlySwapTakes(p, s, step);
  }

  lemma InvStep<T>(p: Platform, s: State<T>, step: Step<T>)
    requires Inv(s) && Enabled(s, step)
    ensures Inv(Apply(p, s, step))
  {
    FifoStep(p, s, step);
    hide Fifo;
  }

  lemma {:induction false} Invariant<T>(p: Platform, steps: seq<Step<T>>)
    requires Legal(p, steps)
    ensures Inv(Run(p, steps))
  {
    if steps != [] {
      Invariant(p, steps[..|steps| - 1]);
      InvStep(p, Run(p, steps[..|steps| - 1]), steps[|steps| - 1]);
    }
  }

  // ---------- The properties ----------

  /** No lost wake-up, on either platform and under every interleaving: when the loop is blocked and
      tasks are queued, a wake-up is pending or a producer is between its append and its wake. */
  lemma NoLostWakeUp<T>(p: Platform, steps: seq<Step<T>>)
    requires Legal(p, steps)
    ensures var s := Run(p, steps);
            s.pc == Waiting && s.functions != [] ==>
              s.token || (s.mutex.HeldByProducer? && s.mutex.stage == Appended)
  {
    Invariant(p, steps);
  }

  /** Exactly once and in order: at every step what has run, the rest of the snapshot and the queue
      are, together, what was appended. */
  lemma ExactlyOnceInOrder<T>(p: Platform, steps: seq<Step<T>>)
    requires Legal(p, steps)
    ensures var s := Run(p, steps);
            s.executed + Unrun(s) + s.functions == s.appended
  {
    Invariant(p, steps);
  }

  /** When Run has returned, what has run is exactly what was appended before its last swap. Nobody
      has closed the multiplexer before that. */
  lemma ShutdownOrdering<T>(p: Platform, steps: seq<Step<T>>)
    requires Legal(p, steps)
    ensures var s := Run(p, steps);
            && (s.pc == Exited ==> s.lastSwap <= |s.appended|
                                   && s.executed == s.appended[..s.lastSwap]
                                   && s.functions == s.appended[s.lastSwap..])
            && (s.multiClosed ==> s.pc == Exited)
  {
    Invariant(p, steps);
    var s := Run(p, steps);
    if s.pc == Exited {
      assert Taken(s) == s.executed;
    }
  }

  /** After the multiplexer is closed there is no further wait and no further task: the loop is done,
      only producers and callers of Stop can still move. */
  lemma NothingAfterClose<T>(p: Platform, steps: seq<Step<T>>, step: Step<T>)
    requires Legal(p, steps) && Run(p, steps).multiClosed && Enabled(Run(p, steps), step)
    ensures step.Acquire? || step.Append? || step.Wake? || step.Release?
            || step.StopCheck? || step.StopSet? || step.StopReturns?
    ensures Apply(p, Run(p, steps), step).executed == Run(p, steps).executed
  {
    Invariant(p, steps);
  }

  /** The steps of one pass of the loop and of anyone else while it is at it. */
  predicate DuringPass<T>(step: Step<T>) {
    step.RunTask? || step.Acquire? || step.Append? || step.Wake? || step.Release? || step.StopCheck? || step.StopSet?
  }

  /** Part of the way through the snapshot snap, having run base before. */
  ghost predicate InPass<T>(s: State<T>, snap: seq<T>, base: seq<T>) {
    && s.pc.Running? && s.snapshot == snap && s.pc.next <= |snap|
    && s.executed == base + snap[..s.pc.next]
  }

  lemma PassStep<T>(p: Platform, s: State<T>, step: Step<T>, snap: seq<T>, base: seq<T>)
    requires InPass(s, snap, base) && DuringPass(step) && Enabled(s, step)
    ensures InPass(Apply(p, s, step), snap, base)
  {
    if step.RunTask? {
      assert snap[..s.pc.next + 1] == snap[..s.pc.next] + [snap[s.pc.next]];
    }
  }

  lemma {:induction false} StaysInPass<T>(p: Platform, steps: seq<Step<T>>, during: seq<Step<T>>)
    requires Legal(p, steps) && Run(p, steps).pc == Running(0)
    requires Legal(p, steps + during)
    requires forall i :: 0 <= i < |during| ==> DuringPass(during[i])
    ensures InPass(Run(p, steps + during), Run(p, steps).snapshot, Run(p, steps).executed)
    decreases |during|
  {
    if during == [] {
      assert steps + during == steps;
    } else {
      var init, last := during[..|during| - 1], during[|during| - 1];
      assert (steps + during)[..|steps + during| - 1] == steps + init;
      StaysInPass(p, steps, init);
      PassStep(p, Run(p, steps + init), last, Run(p, steps).snapshot, Run(p, steps).executed);
    }
  }

  /** A pass ends exactly when its snapshot has been run, whatever is appended meanwhile. */
  lemma PassRunsItsSnapshot<T>(p: Platform, steps: seq<Step<T>>, during: seq<Step<T>>)
    requires Legal(p, steps) && Run(p, steps).pc == Running(0)
    requires Legal(p, steps + during)
    requires forall i :: 0 <= i < |during| ==> DuringPass(during[i])
    ensures var s, s' := Run(p, steps), Run(p, steps + during);
            Enabled(s', EndPass) <==> s'.executed == s.executed + s.snapshot
  {
    StaysInPass(p, steps, during);
    var s, s' := Run(p, steps), Run(p, steps + during);
    assert s.snapshot[..|s.snapshot|] == s.snapshot;
    assert |s'.executed| == |s.executed| + s'.pc.next;
  }

  // ---------- No wake-up is seen twice ----------

  /** How many wake-ups producers have sent. */
  function Wakes<T>(steps: seq<Step<T>>): nat {
    if steps == [] then 0 else Wakes(steps[..|steps| - 1]) + if steps[|steps| - 1].Wake? then 1 else 0
  }

  /** How many waits have reported the wake event. */
  function Sightings<T>(steps: seq<Step<T>>): nat {
    if steps == [] then 0
    else Sightings(steps[..|steps| - 1]) + if steps[|steps| - 1] == WaitReturns(true) then 1 else 0
  }

  /** A wake-up that no wait has reported yet. */
  predicate Unseen<T>(p: Platform, s: State<T>) {
    s.token && !(p.EpollPlatform? && s.pc == Dispatching(true))
  }

  predicate SeenInv<T>(p: Platform, s: State<T>, seen: nat, woken: nat) {
    && seen + (if Unseen(p, s) then 1 else 0) <= woken
    && woken + (if s.mutex.HeldByProducer? && s.mutex.stage == Appended then 1 else 0) == |s.appended|
  }

  lemma SeenStep<T>(p: Platform, s: State<T>, step: Step<T>, seen: nat, woken: nat)
    requires Enabled(s, step) && LockDiscipline(s) && SeenInv(p, s, seen, woken)
    ensures SeenInv(p, Apply(p, s, step), seen + (if step == WaitReturns(true) then 1 else 0),
                    woken + (if step.Wake? then 1 else 0))
  {
  }

  /** A wake-up is reported by one wait at most, and each is for a function that has been appended: the loop is
      not woken more often than that, whatever the interleaving. */
  lemma {:induction false} SeenOnce<T>(p: Platform, steps: seq<Step<T>>)
    requires Legal(p, steps)
    ensures var s := Run(p, steps);
            && Sightings(steps) + (if Unseen(p, s) then 1 else 0) <= Wakes(steps)
            && Wakes(steps) + (if s.mutex.HeldByProducer? && s.mutex.stage == Appended then 1 else 0) == |s.appended|
  {
    hide Apply, Enabled, Fifo, WakePromised, ShutdownOrder, RunningInside;
    if steps != [] {
      var before := steps[..|steps| - 1];
      SeenOnce(p, before);
      Invariant(p, before);
      SeenStep(p, Run(p, before), steps[|steps| - 1], Sightings(before), Wakes(before));
    }
  }

  /** A call of Stop has returned. */
  predicate StopReturned<T>(steps: seq<Step<T>>) {
    steps != [] && (steps[|steps| - 1].StopReturns? || StopReturned(steps[..|steps| - 1]))
  }

  /** How many calls of Stop have found the loop running, cleared the flag, and returned. */
  function StopsAt<T>(steps: seq<Step<T>>): (nat, nat, nat) {
    if steps == [] then (0, 0, 0)
    else
      var (checked, cleared, returned) := StopsAt(steps[..|steps| - 1]);
      match steps[|steps| - 1]
      case StopCheck => (checked + 1, cleared, returned)
      case StopSet => (checked, cleared + 1, returned)
      case StopReturns => (checked, cleared, returned + 1)
      case _ => (checked, cleared, returned)
  }

  lemma CountStep<T>(p: Platform, s: State<T>, step: Step<T>)
    requires Enabled(s, step)
    ensures var t := Apply(p, s, step);
            && t.stopChecked == s.stopChecked + (if step.StopCheck? then 1 else 0) - (if step.StopSet? then 1 else 0)
            && t.stopWaiting == s.stopWaiting + (if step.StopSet? then 1 else 0) - (if step.StopReturns? then 1 else 0)
  {
  }

  /** Each call of Stop that finds the loop running clears the flag once, waits, and returns once at most. */
  lemma {:induction false} StopsCounted<T>(p: Platform, steps: seq<Step<T>>)
    requires Legal(p, steps)
    ensures var s := Run(p, steps);
            var (checked, cleared, returned) := StopsAt(steps);
            checked == cleared + s.stopChecked && cleared == returned + s.stopWaiting
  {
    hide Apply, Enabled;
    if steps != [] {
      var before := steps[..|steps| - 1];
      StopsCounted(p, before);
      CountStep(p, Run(p, before), steps[|steps| - 1]);
    }
  }

  lemma CloseStep<T>(p: Platform, s: State<T>, step: Step<T>)
    requires Enabled(s, step)
    ensures Apply(p, s, step).multiClosed <==> s.multiClosed || step.StopReturns?
  {
  }

  /** The multiplexer is closed exactly once a call of Stop has returned. */
  lemma {:induction false} ClosedByStop<T>(p: Platform, steps: seq<Step<T>>)
    requires Legal(p, steps)
    ensures Run(p, steps).multiClosed <==> StopReturned(steps)
  {
    hide Apply, Enabled;
    if steps != [] {
      var before := steps[..|steps| - 1];
      ClosedByStop(p, before);
      CloseStep(p, Run(p, before), steps[|steps| - 1]);
    }
  }

  lemma EmptyPass<T>(p: Platform) returns (steps: seq<Step<T>>)
    ensures Legal(p, steps) && |steps| == 6
    ensures Run(p, steps) == State(Running(0), Free, [], [], false, true, false, 0, 0, false, [], [], 0)
  {
    steps := Then(p, [], Start);
    steps := Then(p, steps, WaitReturns(false));
    steps := Then(p, steps, Consume);
    steps := Then(p, steps, LockForSwap);
    steps := Then(p, steps, Swap);
    steps := Then(p, steps, UnlockAfterSwap);
  }

  /** Not every task queued before Stop runs: the loop looks at the running flag after the swap. In
      this run it is appended (step 7) before Stop is called (step 10), and is never run. */
  lemma QueuedBeforeStopMayNotRun<T>(p: Platform, task: T) returns (steps: seq<Step<T>>)
    ensures Legal(p, steps) && |steps| == 13 && steps[7] == Step.Append && steps[10] == StopCheck
    ensures var s := Run(p, steps);
            s.pc == Exited && s.appended == [task] && s.functions == [task] && s.executed == []
  {
    steps := EmptyPass(p);
    steps := Then(p, steps, Acquire(task));
    steps := Then(p, steps, Step.Append);
    steps := Then(p, steps, Wake);
    steps := Then(p, steps, Release);
    assert Run(p, steps) == State(Running(0), Free, [task], [], true, true, false, 0, 0, false, [], [task], 0);
    steps := Then(p, steps, StopCheck);
    steps := Then(p, steps, StopSet);
    steps := Then(p, steps, EndPass);
  }

  // ---------- What a call of Stop leaves behind ----------

  /** The queue of this round has been taken, and the flag is looked at when it has been run. */
  predicate QueueTaken<T>(s: State<T>) {
    s.pc == Swapped || s.pc.Running?
  }

  /** t is reached from s after the flag was cleared in s: if the queue of the round had been taken then,
      nothing more is taken; otherwise everything appended by then is taken before the end. */
  ghost predicate Stopping<T>(s: State<T>, t: State<T>) {
    && !t.running && t.pc != NotStarted && s.appended <= t.appended
    && (QueueTaken(s) ==> (QueueTaken(t) || t.pc == Exited) && Taken(t) == Taken(s))
    && (!QueueTaken(s) && (QueueTaken(t) || t.pc == Exited) ==> s.appended <= Taken(t))
  }

  lemma StoppingStep<T>(p: Platform, s: State<T>, t: State<T>, step: Step<T>)
    requires Stopping(s, t) && Inv(t) && Enabled(t, step)
    ensures Stopping(s, Apply(p, t, step))
  {
    if step.Swap? {
      SwapTakesAll(p, t);
    } else {
      OnlySwapTakes(p, t, step);
    }
  }

  lemma StoppingBegins<T>(p: Platform, s: State<T>)
    requires Inv(s) && s.running && Enabled(s, StopSet)
    ensures Stopping(s, Apply(p, s, StopSet))
  {
    OnlySwapTakes(p, s, StopSet);
  }

  lemma {:induction false} StaysStopping<T>(p: Platform, steps: seq<Step<T>>, more: seq<Step<T>>)
    requires Legal(p, steps) && Run(p, steps).running
    requires Legal(p, steps + [StopSet] + more)
    ensures Stopping(Run(p, steps), Run(p, steps + [StopSet] + more))
    decreases |more|
  {
    hide Inv, Stopping, Apply;
    var all := steps + [StopSet] + more;
    if more == [] {
      assert all == steps + [StopSet] && all[..|all| - 1] == steps;
      Invariant(p, steps);
      StoppingBegins(p, Run(p, steps));
    } else {
      var init := more[..|more| - 1];
      assert all[..|all| - 1] == steps + [StopSet] + init;
      StaysStopping(p, steps, init);
      Invariant(p, steps + [StopSet] + init);
      StoppingStep(p, Run(p, steps), Run(p, steps + [StopSet] + init), more[|more| - 1]);
    }
  }

  /** What Stop promises to those who queued before it: whenever the loop returns after a call of Stop
      has cleared the flag, everything appended before has been run if and only if, at that moment, the
      queue was empty or the loop had yet to take it. */
  lemma StopRunsTheQueueExactly<T>(p: Platform, steps: seq<Step<T>>, more: seq<Step<T>>)
    requires Legal(p, steps) && Run(p, steps).running
    requires Legal(p, steps + [StopSet] + more) && Run(p, steps + [StopSet] + more).pc == Exited
    ensures var s, s' := Run(p, steps), Run(p, steps + [StopSet] + more);
            s.appended <= s'.executed <==> s.functions == [] || !QueueTaken(s)
  {
    StaysStopping(p, steps, more);
    Invariant(p, steps);
    var s, s' := Run(p, steps), Run(p, steps + [StopSet] + more);
    assert Taken(s') == s'.executed;
    assert |s.appended| == |Taken(s)| + |s.functions|;
  }

  /** Task by task: one appended before the flag was cleared has run at the exit if and only if it had been
      taken out of the queue by then or the loop had yet to take the queue. */
  lemma StopRunsTaskExactly<T>(p: Platform, steps: seq<Step<T>>, more: seq<Step<T>>, j: nat)
    requires Legal(p, steps) && Run(p, steps).running && j < |Run(p, steps).appended|
    requires Legal(p, steps + [StopSet] + more) && Run(p, steps + [StopSet] + more).pc == Exited
    ensures var s, s' := Run(p, steps), Run(p, steps + [StopSet] + more);
            && (j < |s'.executed| <==> j < |Taken(s)| || !QueueTaken(s))
            && (j < |s'.executed| ==> s'.executed[j] == s.appended[j])
  {
    StaysStopping(p, steps, more);
    Invariant(p, steps);
    var s, s' := Run(p, steps), Run(p, steps + [StopSet] + more);
    assert Taken(s') == s'.executed;
    assert s.appended == Taken(s) + s.functions;
  }

  /** If the loop had taken its queue when the flag was cleared, what was queued then stays queued. */
  lemma StopLeavesQueued<T>(p: Platform, steps: seq<Step<T>>, more: seq<Step<T>>)
    requires Legal(p, steps) && Run(p, steps).running
    requires Legal(p, steps + [StopSet] + more) && Run(p, steps + [StopSet] + more).pc == Exited
    ensures var s, s' := Run(p, steps), Run(p, steps + [StopSet] + more);
            QueueTaken(s) ==> s'.executed == Taken(s) && s.functions <= s'.functions
  {
    StaysStopping(p, steps, more);
    Invariant(p, steps);
    Invariant(p, steps + [StopSet] + more);
    var s, s' := Run(p, steps), Run(p, steps + [StopSet] + more);
    assert Taken(s') == s'.executed;
    if QueueTaken(s) {
      assert s.appended == Taken(s) + s.functions && s'.appended == Taken(s) + s'.functions;
      assert s.functions == s.appended[|Taken(s)|..] && s'.functions == s'.appended[|Taken(s)|..];
    }
  }

  lemma Then<T>(p: Platform, steps: seq<Step<T>>, step: Step<T>) returns (longer: seq<Step<T>>)
    requires Legal(p, steps) && Enabled(Run(p, steps), step)
    ensures longer == steps + [step] && Legal(p, longer)
    ensures Run(p, longer) == Apply(p, Run(p, steps), step)
  {
    RunSnoc(p, steps, step);
    longer := steps + [step];
  }
}
