/** The event loop object. Its fields always are what some run of the machine in EventLoop leads to,
    so every property of the machine's runs holds of the object. */
module TaskLoop {
  import opened EventLoop

  /** Everything appended while the first n tasks of a pass run, in order. */
  function Gathered<T>(meanwhile: nat -> seq<T>, n: nat): seq<T> {
    if n == 0 then [] else Gathered(meanwhile, n - 1) + meanwhile(n - 1)
  }

  /** A Stop falls within the first n tasks of a pass. */
  predicate StoppedIn(stops: nat -> bool, n: nat) {
    n > 0 && (stops(n - 1) || StoppedIn(stops, n - 1))
  }

  lemma AcquireAndAppend<T>(p: Platform, steps: seq<Step<T>>, fun: T) returns (after: seq<Step<T>>)
    requires Legal(p, steps) && EventLoop.Run(p, steps).mutex.Free?
    ensures after == steps + [Acquire(fun)] + [Step.Append] && Legal(p, after)
    ensures var s := EventLoop.Run(p, steps);
            EventLoop.Run(p, after)
            == s.(functions := s.functions + [fun], appended := s.appended + [fun],
                  mutex := HeldByProducer(fun, Appended))
  {
    after := Then(p, steps, Acquire(fun));
    after := Then(p, after, Step.Append);
  }

  lemma WakeAndRelease<T>(p: Platform, steps: seq<Step<T>>) returns (after: seq<Step<T>>)
    requires Legal(p, steps)
    requires var m := EventLoop.Run(p, steps).mutex; m.HeldByProducer? && m.stage == Appended
    ensures after == steps + [Wake] + [Release] && Legal(p, after)
    ensures EventLoop.Run(p, after) == EventLoop.Run(p, steps).(token := true, mutex := Free)
  {
    after := Then(p, steps, Wake);
    after := Then(p, after, Release);
  }

  /** The four steps of RunInLoop, taken in one go. */
  lemma FourSteps<T>(p: Platform, steps: seq<Step<T>>, fun: T) returns (after: seq<Step<T>>)
    requires Legal(p, steps) && EventLoop.Run(p, steps).mutex.Free?
    ensures after == steps + [Acquire(fun)] + [Step.Append] + [Wake] + [Release] && Legal(p, after)
    ensures var s := EventLoop.Run(p, steps);
            EventLoop.Run(p, after)
            == s.(functions := s.functions + [fun], token := true, appended := s.appended + [fun])
  {
    after := AcquireAndAppend(p, steps, fun);
    after := WakeAndRelease(p, after);
  }

  /** Lock, swap and unlock, taken in one go. */
  lemma SwapSteps<T>(p: Platform, steps: seq<Step<T>>) returns (after: seq<Step<T>>)
    requires Legal(p, steps)
    requires EventLoop.Run(p, steps).mutex.Free? && EventLoop.Run(p, steps).pc == BeforeSwap
    ensures Legal(p, after)
    ensures var s := EventLoop.Run(p, steps);
            EventLoop.Run(p, after)
            == s.(pc := Running(0), snapshot := s.functions, functions := [], lastSwap := |s.appended|)
  {
    after := Then(p, steps, LockForSwap);
    after := Then(p, after, Swap);
    after := Then(p, after, UnlockAfterSwap);
  }

  class Loop<T> {
    const platform: Platform
    var functions: seq<T>
    var mutex: Mutex<T>
    var running: bool
    var waitDone: bool
    var token: bool
    var pc: LoopPc
    var snapshot: seq<T>
    ghost var steps: seq<Step<T>>

    ghost function Now(): State<T>
      requires Legal(platform, steps)
      reads this
    {
      EventLoop.Run(platform, steps)
    }

    ghost predicate Valid()
      reads this
    {
      && Legal(platform, steps)
      && var s := Now();
      && s.functions == functions && s.mutex == mutex && s.running == running && s.waitDone == waitDone
      && s.token == token && s.pc == pc && s.snapshot == snapshot
    }

    /** The tasks run so far. */
    ghost function Executed(): seq<T>
      requires Valid()
      reads this
    {
      Now().executed
    }

    /** The tasks still to be run: the rest of the snapshot, then the queue. */
    ghost function Pending(): seq<T>
      requires Valid()
      reads this
    {
      Unrun(Now()) + functions
    }

    /** What the loop has run and is running is the same. */
    twostate predicate SamePass()
      requires old(Valid()) && Valid()
      reads this
    {
      && pc == old(pc) && snapshot == old(snapshot) && running == old(running)
      && Executed() == old(Executed())
    }

    constructor (platform: Platform)
      ensures Valid() && steps == [] && pc == NotStarted && mutex.Free? && functions == []
      ensures this.platform == platform
    {
      this.platform := platform;
      functions, mutex, running, waitDone, token := [], Free, false, false, false;
      pc, snapshot, steps := NotStarted, [], [];
    }

    /** Append a task and wake the loop, holding the mutex. */
    method RunInLoop(fun: T)
      requires Valid() && mutex.Free?
      modifies this
      ensures Valid() && mutex.Free?
      ensures steps == old(steps) + [Acquire(fun)] + [Step.Append] + [Wake] + [Release]
      ensures Now() == old(Now()).(functions := old(functions) + [fun], token := true,
                                   appended := old(Now()).appended + [fun])
      ensures Pending() == old(Pending()) + [fun] && functions == old(functions) + [fun] && SamePass()
    {
      hide EventLoop.Run, EventLoop.Legal;
      ghost var after := FourSteps(platform, steps, fun);
      mutex := HeldByProducer(fun, Acquired);
      functions := functions + [fun];
      mutex := HeldByProducer(fun, Appended);
      token := true;
      mutex := HeldByProducer(fun, Woken);
      mutex := Free;
      steps := after;
    }

    /** Whoever it is passes tasks to RunInLoop, one after the other. */
    method RunInLoopAll(tasks: seq<T>)
      requires Valid() && mutex.Free?
      modifies this
      ensures Valid() && mutex.Free? && pc == old(pc) && snapshot == old(snapshot) && running == old(running)
      ensures functions == old(functions) + tasks
      ensures Now().executed == old(Now()).executed && Now().appended == old(Now()).appended + tasks
    {
      hide EventLoop.Run, EventLoop.Legal;
      var i := 0;
      while i < |tasks|
        invariant 0 <= i <= |tasks|
        invariant Valid() && mutex.Free? && pc == old(pc) && snapshot == old(snapshot) && running == old(running)
        invariant functions == old(functions) + tasks[..i]
        invariant Now().executed == old(Now()).executed && Now().appended == old(Now()).appended + tasks[..i]
      {
        RunInLoop(tasks[i]);
        assert tasks[..i + 1] == tasks[..i] + [tasks[i]];
        i := i + 1;
      }
      assert tasks[..|tasks|] == tasks;
    }

    // ---------- The steps of Run ----------

    /** The beginning of Run. */
    method Start()
      requires Valid() && pc == NotStarted
      modifies this
      ensures Valid() && Now() == old(Now()).(running := true, pc := Waiting)
    {
      hide EventLoop.Run, EventLoop.Legal;
      ghost var after := Then(platform, steps, Step.Start);
      running, pc := true, Waiting;
      steps := after;
    }

    /** The wait returns, having seen the wake event or not. */
    method WaitReturns() returns (saw: bool)
      requires Valid() && pc == Waiting
      modifies this
      ensures Valid() && (saw ==> old(token))
      ensures Now() == old(Now()).(pc := Dispatching(saw), token := token)
      ensures !old(token) ==> !token
      ensures mutex == old(mutex) && functions == old(functions) && snapshot == old(snapshot) && running == old(running)
      ensures pc == Dispatching(saw) && Pending() == old(Pending()) && Executed() == old(Executed())
    {
      hide EventLoop.Run, EventLoop.Legal;
      saw :| saw ==> token;
      ghost var after := Then(platform, steps, Step.WaitReturns(saw));
      pc := Dispatching(saw);
      if platform.KqueuePlatform? && saw {
        token := false;
      }
      steps := after;
    }

    /** The wake event, if it was seen, is read. */
    method ReadWake()
      requires Valid() && pc.Dispatching?
      modifies this
      ensures Valid() && Now() == old(Now()).(pc := BeforeSwap, token := token)
      ensures mutex == old(mutex) && functions == old(functions) && running == old(running)
      ensures snapshot == old(snapshot) && pc == BeforeSwap
      ensures Pending() == old(Pending()) && Executed() == old(Executed())
    {
      hide EventLoop.Run, EventLoop.Legal;
      ghost var after := Then(platform, steps, Consume);
      if platform.EpollPlatform? && pc.saw {
        token := false;
      }
      pc := BeforeSwap;
      steps := after;
    }

    method TakeFunctions()
      requires Valid() && mutex.Free? && pc == BeforeSwap
      modifies this
      ensures Valid() && mutex.Free? && pc == Running(0) && running == old(running)
      ensures snapshot == old(functions) && functions == []
      ensures Now().executed == old(Now()).executed && Now().appended == old(Now()).appended
      ensures Pending() == old(Pending()) == snapshot && Executed() == old(Executed())
    {
      hide EventLoop.Run, EventLoop.Legal;
      ghost var after := SwapSteps(platform, steps);
      mutex, pc := HeldByLoop, Locked;
      snapshot, functions, pc := functions, [], Swapped;
      mutex, pc := Free, Running(0);
      steps := after;
      assert snapshot[0..] == snapshot;
    }

    lemma FirstPending()
      requires Valid() && pc.Running? && pc.next < |snapshot|
      ensures Pending() == [snapshot[pc.next]] + (snapshot[pc.next + 1..] + functions)
    {
      assert snapshot[pc.next..] == [snapshot[pc.next]] + snapshot[pc.next + 1..];
    }

    lemma QueuedIsPending(i: nat)
      requires Valid() && i < |functions|
      ensures functions[i] in Pending()
    {
      assert Pending()[|Unrun(Now())| + i] == functions[i];
    }

    /** The next task of the snapshot is run. */
    method NextTask() returns (task: T)
      requires Valid() && pc.Running? && pc.next < |snapshot|
      modifies this
      ensures Valid() && task == old(snapshot[pc.next])
      ensures Now() == old(Now()).(pc := Running(old(pc).next + 1), executed := old(Now()).executed + [task])
      ensures mutex == old(mutex) && functions == old(functions) && snapshot == old(snapshot) && running == old(running)
      ensures pc == Running(old(pc).next + 1) && Executed() == old(Executed()) + [task]
      ensures Pending() == snapshot[pc.next..] + functions
    {
      hide EventLoop.Run, EventLoop.Legal;
      ghost var after := Then(platform, steps, RunTask);
      task := snapshot[pc.next];
      assert snapshot[pc.next..] == [task] + snapshot[pc.next + 1..];
      pc := Running(pc.next + 1);
      steps := after;
    }

    /** The end of a round: exit, closing the channel, if the flag is down. */
    method EndPass() returns (exit: bool)
      requires Valid() && pc.Running? && pc.next >= |snapshot|
      modifies this
      ensures Valid() && exit == !running
      ensures Now() == old(Now()).(pc := if exit then Exited else Waiting, waitDone := exit)
      ensures mutex == old(mutex) && functions == old(functions) && running == old(running)
      ensures pc == if exit then Exited else Waiting
      ensures snapshot == old(snapshot) && Pending() == old(Pending()) && Executed() == old(Executed())
    {
      hide EventLoop.Run, EventLoop.Legal;
      Invariant(platform, steps);
      ghost var after := Then(platform, steps, Step.EndPass);
      if !running {
        waitDone, pc := true, Exited;
        exit := true;
      } else {
        pc := Waiting;
        exit := false;
      }
      steps := after;
    }

    /** Stop, up to the point where it waits for the channel. */
    method BeginStop() returns (ok: bool)
      requires Valid()
      modifies this
      ensures Valid() && ok == old(running) && !running
      ensures ok ==> steps == old(steps) + [StopCheck] + [StopSet]
      ensures ok ==> Now() == old(Now()).(running := false, stopWaiting := old(Now()).stopWaiting + 1)
      ensures !ok ==> steps == old(steps) && Now() == old(Now())
      ensures mutex == old(mutex) && functions == old(functions) && snapshot == old(snapshot) && pc == old(pc)
      ensures Pending() == old(Pending()) && Executed() == old(Executed())
    {
      hide EventLoop.Run, EventLoop.Legal;
      ok := running;
      if ok {
        ghost var after := Then(platform, steps, StopCheck);
        after := Then(platform, after, StopSet);
        running := false;
        steps := after;
      }
    }

    // ---------- One round, with what others do meanwhile ----------

    /** Others append posted, and call Stop or not. */
    method Meanwhile(posted: seq<T>, stop: bool)
      requires Valid() && mutex.Free?
      modifies this
      ensures Valid() && mutex.Free? && pc == old(pc) && snapshot == old(snapshot)
      ensures running == (old(running) && !stop)
      ensures functions == old(functions) + posted
      ensures Now().executed == old(Now()).executed
    {
      hide EventLoop.Run, EventLoop.Legal;
      RunInLoopAll(posted);
      if stop {
        var _ := BeginStop();
      }
    }

    /** Part of the way through a pass over tasks: i of them have run, after base. */
    ghost predicate InPass(tasks: seq<T>, base: seq<T>, i: nat)
      reads this
    {
      && Valid() && mutex.Free? && pc == Running(i) && snapshot == tasks
      && i <= |tasks| && Now().executed == base + tasks[..i]
    }

    /** One task runs; it and anyone else append posted meanwhile, and someone calls Stop or not. */
    method RunNext(posted: seq<T>, stop: bool, ghost base: seq<T>)
      requires pc.Running? && pc.next < |snapshot| && InPass(snapshot, base, pc.next)
      modifies this
      ensures InPass(old(snapshot), base, old(pc).next + 1)
      ensures functions == old(functions) + posted && running == (old(running) && !stop)
    {
      hide EventLoop.Run, EventLoop.Legal;
      assert snapshot[..pc.next + 1] == snapshot[..pc.next] + [snapshot[pc.next]];
      var _ := NextTask();
      Meanwhile(posted, stop);
    }

    method RunSnapshot(meanwhile: nat -> seq<T>, stops: nat -> bool, ghost base: seq<T>)
      requires InPass(snapshot, base, 0) && functions == []
      modifies this
      ensures InPass(old(snapshot), base, |old(snapshot)|)
      ensures functions == Gathered(meanwhile, |snapshot|)
      ensures running == (old(running) && !StoppedIn(stops, |snapshot|))
    {
      hide EventLoop.Run, EventLoop.Legal;
      var i := 0;
      while i < |snapshot|
        invariant InPass(old(snapshot), base, i)
        invariant functions == Gathered(meanwhile, i) && running == (old(running) && !StoppedIn(stops, i))
      {
        RunNext(meanwhile(i), stops(i), base);
        i := i + 1;
      }
    }

    /** One pass runs exactly what was queued, in order, and leaves queued exactly what was appended while
        it ran, by the tasks themselves or by other goroutines. */
    method RunAllFunctionInLoop(meanwhile: nat -> seq<T>, stops: nat -> bool)
      requires Valid() && mutex.Free? && pc == BeforeSwap
      modifies this
      ensures Valid() && mutex.Free? && pc == Running(|snapshot|) && snapshot == old(functions)
      ensures running == (old(running) && !StoppedIn(stops, |old(functions)|))
      ensures Now().executed == old(Now()).executed + old(functions)
      ensures functions == Gathered(meanwhile, |old(functions)|)
    {
      ghost var base := Now().executed;
      TakeFunctions();
      assert base + snapshot[..0] == base;
      RunSnapshot(meanwhile, stops, base);
      assert snapshot[..|snapshot|] == snapshot;
    }

    /** The wait, whose outcome is the kernel's, up to the point where the queue is taken. The handlers
        it runs, and anyone else, append posted; the wake event is read somewhere in between. */
    method WaitAndRunHandle(posted: seq<T>, stop: bool)
      requires Valid() && mutex.Free? && pc == Waiting
      modifies this
      ensures Valid() && mutex.Free? && pc == BeforeSwap
      ensures functions == old(functions) + posted && running == (old(running) && !stop)
      ensures Now().executed == old(Now()).executed
    {
      hide EventLoop.Run, EventLoop.Legal;
      var cut: nat :| cut <= |posted|;
      var _ := WaitReturns();
      Meanwhile(posted[..cut], stop);
      ReadWake();
      Meanwhile(posted[cut..], false);
      assert posted[..cut] + posted[cut..] == posted;
    }

    /** The body of Run's loop: what was queued, and what the handlers add, is run; the round is the last
        one exactly if Stop was called before its end. */
    method RunOnce(posted: seq<T>, stop: bool, meanwhile: nat -> seq<T>, stops: nat -> bool) returns (exit: bool)
      requires Valid() && mutex.Free? && pc == Waiting
      modifies this
      ensures Valid() && mutex.Free?
      ensures Now().executed == old(Now()).executed + (old(functions) + posted)
      ensures functions == Gathered(meanwhile, |old(functions) + posted|)
      ensures exit <==> !old(running) || stop || StoppedIn(stops, |old(functions) + posted|)
      ensures waitDone == exit && pc == if exit then Exited else Waiting
    {
      WaitAndRunHandle(posted, stop);
      RunAllFunctionInLoop(meanwhile, stops);
      exit := EndPass();
    }

    // ---------- What holds of every loop at any time ----------

    /** Whatever the interleaving that led here, a loop blocked with tasks queued will be woken. */
    lemma WillWake()
      requires Valid() && pc == Waiting && functions != []
      ensures token || (mutex.HeldByProducer? && mutex.stage == Appended)
    {
      NoLostWakeUp(platform, steps);
    }

    lemma RunsInOrder()
      requires Valid()
      ensures Now().executed + Pending() == Now().appended
    {
      ExactlyOnceInOrder(platform, steps);
      var s := Now();
      assert s.executed + Unrun(s) + functions == s.executed + (Unrun(s) + functions);
    }
  }
}
