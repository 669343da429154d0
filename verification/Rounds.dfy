/** What one round of a loop does to its connections, told by values: the steps that a batch of handlers
    makes, what is queued meanwhile, and what a pass over the queue carries out. */
module Rounds {
  import opened Prelude
  import opened Connection
  import Codec
  import EventLoop
  import Events
  import Interest
  import Session

  /** One entry of the batch a wait returns. */
  datatype Ready = Ready(fd: int, revents: Interest.EventType)

  // ---------- Data on its way to a connection ----------

  /** The data that the tasks will hand to one connection, in order. */
  function DataFor(conn: Connect, tasks: seq<Task>): seq<Bytes> {
    if tasks == [] then []
    else
      var last := tasks[|tasks| - 1];
      DataFor(conn, tasks[..|tasks| - 1]) + if last.WriteTask? && last.conn == conn then [last.buffer] else []
  }

  lemma DataForSnoc(conn: Connect, tasks: seq<Task>, task: Task)
    ensures DataFor(conn, tasks + [task])
            == DataFor(conn, tasks) + if task.WriteTask? && task.conn == conn then [task.buffer] else []
  {
    assert (tasks + [task])[..|tasks|] == tasks;
  }

  lemma {:induction false} DataForAppend(conn: Connect, a: seq<Task>, b: seq<Task>)
    ensures DataFor(conn, a + b) == DataFor(conn, a) + DataFor(conn, b)
  {
    if b == [] {
      assert a + b == a;
    } else {
      assert (a + b)[..|a + b| - 1] == a + b[..|b| - 1];
      DataForAppend(conn, a, b[..|b| - 1]);
    }
  }

  lemma DataForFirst(conn: Connect, task: Task, rest: seq<Task>)
    ensures DataFor(conn, [task] + rest)
            == (if task.WriteTask? && task.conn == conn then [task.buffer] else []) + DataFor(conn, rest)
  {
    DataForAppend(conn, [task], rest);
    assert [] + [task] == [task];
    DataForSnoc(conn, [], task);
  }

  lemma {:induction false} NothingFor(conn: Connect, tasks: seq<Task>)
    requires forall i :: 0 <= i < |tasks| ==> tasks[i].conn != conn
    ensures DataFor(conn, tasks) == []
  {
    if tasks != [] {
      NothingFor(conn, tasks[..|tasks| - 1]);
    }
  }

  lemma OneTask(task: Task)
    ensures forall d: Connect {:trigger DataFor(d, [task])} ::
              DataFor(d, [task]) == if task.WriteTask? && task.conn == d then [task.buffer] else []
  {
    forall d: Connect
      ensures DataFor(d, [task]) == if task.WriteTask? && task.conn == d then [task.buffer] else []
    {
      DataForSnoc(d, [], task);
    }
  }

  lemma SameBefore<T>(a: seq<T>, b: seq<T>, tail: seq<T>)
    requires a + tail == b + tail
    ensures a == b
  {
    assert |a| == |b|;
    assert a == (a + tail)[..|a|] && b == (b + tail)[..|b|];
  }

  // ---------- Handlers and the steps they make ----------

  /** A step with the traffic before and after it. */
  datatype Entry = Entry(step: Session.Step, before: Traffic, after: Traffic)

  predicate Whole(b: Story) {
    |b.past| == |b.steps|
  }

  function Entries(b: Story, from: nat): (es: seq<Entry>)
    requires Whole(b) && from <= |b.steps|
  {
    seq(|b.steps| - from, i requires 0 <= i < |b.steps| - from =>
      Entry(b.steps[from + i], b.past[from + i], if from + i + 1 < |b.past| then b.past[from + i + 1] else b.now))
  }

  /** One story goes on from another. */
  predicate GoesOn(a: Story, b: Story) {
    && Whole(a) && Whole(b) && a.steps <= b.steps && a.past <= b.past
    && b.now == (if |b.steps| == |a.steps| then a.now else b.now)
    && (|b.steps| > |a.steps| ==> b.past[|a.past|] == a.now)
  }

  lemma GoesOnTwice(a: Story, b: Story, c: Story)
    requires GoesOn(a, b) && GoesOn(b, c)
    ensures GoesOn(a, c)
    ensures Entries(c, |a.steps|) == Entries(b, |a.steps|) + Entries(c, |b.steps|)
  {
  }

  lemma GoesOnPrefix(a: Story, b: Story)
    requires GoesOn(a, b)
    ensures a.steps <= b.steps && Whole(a) && Whole(b)
  {
  }

  /** The traffic with which a story began. */
  function First(b: Story): Traffic {
    if b.past == [] then b.now else b.past[0]
  }

  lemma FirstStays(a: Story, b: Story)
    requires GoesOn(a, b)
    ensures First(b) == First(a)
  {
  }

  /** ShutdownWrite may be called from anywhere at any time. */
  function WithoutShutdowns(es: seq<Entry>): seq<Entry> {
    if es == [] then []
    else
      var last := es[|es| - 1];
      WithoutShutdowns(es[..|es| - 1]) + if last.step.Shutdown? then [] else [last]
  }

  lemma {:induction false} WithoutAppend(a: seq<Entry>, b: seq<Entry>)
    ensures WithoutShutdowns(a + b) == WithoutShutdowns(a) + WithoutShutdowns(b)
  {
    if b == [] {
      assert a + b == a;
    } else {
      assert (a + b)[..|a + b| - 1] == a + b[..|b| - 1];
      WithoutAppend(a, b[..|b| - 1]);
    }
  }

  predicate QuietShutdowns(es: seq<Entry>) {
    forall i :: 0 <= i < |es| && es[i].step.Shutdown? ==> es[i].after == es[i].before
  }

  predicate AllFit(conn: Connect, clock: int, hs: seq<Events.Handler>, es: seq<Entry>) {
    && |es| == |hs|
    && forall k :: 0 <= k < |hs| ==>
         HandlerDone(hs[k], conn.idleTime > 0, clock, es[k].step, es[k].before, es[k].after)
  }

  /** While the connection is open its traffic is that of the steps. */
  predicate Agrees(app: Session.App, b: Story)
    requires Codec.Usable(app.codec) && Session.Legal(app, b.steps)
  {
    var c := Session.Run(app, b.steps);
    Session.Open(c) ==> c.out == b.now.out && c.accepted == b.now.accepted
  }

  /** From a to b, at the time clock, the handlers hs have run, one step each and just as HandlerDone says, each on
      an open connection. */
  predicate Progress(conn: Connect, clock: int, a: Story, b: Story, hs: seq<Events.Handler>)
  {
    var app := conn.app;
    && Codec.Usable(app.codec) && Session.Legal(app, a.steps) && Session.Legal(app, b.steps)
    && GoesOn(a, b) && Agrees(app, b) && Session.MadeOpen(app, b.steps, |a.steps|)
    && QuietShutdowns(Entries(b, |a.steps|)) && AllFit(conn, clock, hs, WithoutShutdowns(Entries(b, |a.steps|)))
  }

  lemma ProgressThen(conn: Connect, clock: int, a: Story, b: Story, c: Story,
                     hs: seq<Events.Handler>, more: seq<Events.Handler>)
    requires Progress(conn, clock, a, b, hs) && Progress(conn, clock, b, c, more)
    ensures Progress(conn, clock, a, c, hs + more)
  {
    hide Session.Legal, Session.Run, Agrees, HandlerDone, Entries, GoesOn;
    GoesOnTwice(a, b, c);
    GoesOnPrefix(a, b);
    GoesOnPrefix(b, c);
    assert c.steps[..|b.steps|] == b.steps;
    Session.MadeOpenFrom(conn.app, c.steps, |b.steps|, |a.steps|);
    WithoutAppend(Entries(b, |a.steps|), Entries(c, |b.steps|));
  }

  lemma ProgressGoesOn(conn: Connect, clock: int, a: Story, b: Story, hs: seq<Events.Handler>)
    requires Progress(conn, clock, a, b, hs)
    ensures GoesOn(a, b) && First(b) == First(a)
  {
    FirstStays(a, b);
  }

  /** Without handlers the time does not matter. */
  lemma AnyClock(conn: Connect, clock: int, other: int, a: Story, b: Story)
    requires Progress(conn, clock, a, b, [])
    ensures Progress(conn, other, a, b, [])
  {
  }

  lemma NoProgress(conn: Connect, clock: int, a: Story)
    requires Codec.Usable(conn.app.codec) && Session.Legal(conn.app, a.steps) && Whole(a) && Agrees(conn.app, a)
    ensures Progress(conn, clock, a, a, [])
  {
    assert Entries(a, |a.steps|) == [];
  }

  /** One step more: of a handler, on an open connection, or of a ShutdownWrite. */
  lemma OneStepMore(conn: Connect, clock: int, a: Story, step: Session.Step, now: Traffic, hs: seq<Events.Handler>)
    requires Codec.Usable(conn.app.codec) && Whole(a)
    requires Session.Legal(conn.app, a.steps) && Session.Legal(conn.app, a.steps + [step])
    requires Agrees(conn.app, Story(a.steps + [step], a.past + [a.now], now))
    requires if step.Shutdown? then hs == [] && now == a.now
             else Session.Open(Session.Run(conn.app, a.steps)) && |hs| == 1
                  && HandlerDone(hs[0], conn.idleTime > 0, clock, step, a.now, now)
    ensures Progress(conn, clock, a, Story(a.steps + [step], a.past + [a.now], now), hs)
  {
    hide Agrees, HandlerDone;
    var b := Story(a.steps + [step], a.past + [a.now], now);
    assert b.steps[..|b.steps| - 1] == a.steps;
    assert Session.MadeOpen(conn.app, a.steps, |a.steps|);
    OneEntry(a, step, now);
  }

  lemma OneEntry(a: Story, step: Session.Step, now: Traffic)
    requires Whole(a)
    ensures var b, one := Story(a.steps + [step], a.past + [a.now], now), Entry(step, a.now, now);
            && Entries(b, |a.steps|) == [one] && WithoutShutdowns([one]) == if step.Shutdown? then [] else [one]
  {
    var one := Entry(step, a.now, now);
    assert [one][..0] == [] && [] + [one] == [one];
  }

  /** The handlers that a report runs: one or none. */
  function HandlersOf(revents: Interest.EventType): seq<Events.Handler> {
    match Events.Chosen(revents)
    case Some(h) => [h]
    case None => []
  }

  lemma NeverShutdown(h: Events.Handler, timed: bool, clock: int, step: Session.Step, s: Traffic, t: Traffic)
    requires HandlerDone(h, timed, clock, step, s, t)
    ensures !step.Shutdown? && !step.Submit? && !step.Connect?
  {
  }

  lemma HandlerSteps(conn: Connect, clock: int, a: Story, b: Story, revents: Interest.EventType)
    requires Codec.Usable(conn.app.codec) && Whole(a) && Whole(b)
    requires Session.Legal(conn.app, a.steps) && Session.Legal(conn.app, b.steps)
    requires Agrees(conn.app, b) && Session.Open(Session.Run(conn.app, a.steps))
    requires if HandlersOf(revents) == [] then b == a
             else |b.steps| == |a.steps| + 1 && b.steps == a.steps + [b.steps[|a.steps|]] && b.past == a.past + [a.now]
                  && HandlerDone(HandlersOf(revents)[0], conn.idleTime > 0, clock, b.steps[|a.steps|], a.now, b.now)
    ensures Progress(conn, clock, a, b, HandlersOf(revents))
  {
    hide Session.Legal, Session.Run, HandlerDone, Progress, Agrees;
    if HandlersOf(revents) == [] {
      NoProgress(conn, clock, a);
    } else {
      NeverShutdown(HandlersOf(revents)[0], conn.idleTime > 0, clock, b.steps[|a.steps|], a.now, b.now);
      OneStepMore(conn, clock, a, b.steps[|a.steps|], b.now, HandlersOf(revents));
    }
  }

  lemma {:induction false} FittingSubmitsNothing(conn: Connect, clock: int, es: seq<Entry>, hs: seq<Events.Handler>,
                                                 before: seq<Session.Step>, after: seq<Session.Step>)
    requires AllFit(conn, clock, hs, WithoutShutdowns(es))
    requires |after| == |before| + |es| && before <= after
    requires forall i :: 0 <= i < |es| ==> es[i].step == after[|before| + i]
    ensures Session.SubmitData(after) == Session.SubmitData(before)
    decreases |es|
  {
    if es == [] {
      assert after == before;
    } else {
      var init, last := es[..|es| - 1], es[|es| - 1];
      if last.step.Shutdown? {
        FittingSubmitsNothing(conn, clock, init, hs, before, after[..|after| - 1]);
      } else {
        var n := |hs| - 1;
        assert WithoutShutdowns(es)[n] == last && WithoutShutdowns(es)[..n] == WithoutShutdowns(init);
        FittingSubmitsNothing(conn, clock, init, hs[..n], before, after[..|after| - 1]);
      }
    }
  }

  /** Handlers submit nothing. */
  lemma ProgressSubmitsNothing(conn: Connect, clock: int, a: Story, b: Story, hs: seq<Events.Handler>)
    requires Progress(conn, clock, a, b, hs)
    ensures Session.SubmitData(b.steps) == Session.SubmitData(a.steps)
  {
    FittingSubmitsNothing(conn, clock, Entries(b, |a.steps|), hs, a.steps, b.steps);
  }

  /** A reading or writing handler is among them. */
  predicate Busy(hs: seq<Events.Handler>) {
    exists k :: 0 <= k < |hs| && (hs[k] == Events.OnRead || hs[k] == Events.OnWrite)
  }

  predicate Chained(es: seq<Entry>, first: Traffic) {
    && (es != [] ==> es[0].before == first)
    && forall i :: 0 < i < |es| ==> es[i].before == es[i - 1].after
  }

  function LastOf(es: seq<Entry>, first: Traffic): Traffic {
    if es == [] then first else es[|es| - 1].after
  }

  lemma {:induction false} FittingMarks(conn: Connect, clock: int, es: seq<Entry>, hs: seq<Events.Handler>,
                                        first: Traffic)
    requires AllFit(conn, clock, hs, WithoutShutdowns(es)) && QuietShutdowns(es) && Chained(es, first)
    ensures LastOf(es, first).lastActivity == if conn.idleTime > 0 && Busy(hs) then clock else first.lastActivity
    decreases |es|
  {
    if es != [] {
      var init, last := es[..|es| - 1], es[|es| - 1];
      assert LastOf(init, first) == last.before;
      if last.step.Shutdown? {
        FittingMarks(conn, clock, init, hs, first);
      } else {
        var n := |hs| - 1;
        assert WithoutShutdowns(es)[n] == last && WithoutShutdowns(es)[..n] == WithoutShutdowns(init);
        FittingMarks(conn, clock, init, hs[..n], first);
        assert hs == hs[..n] + [hs[n]];
        assert Busy(hs) <==> Busy(hs[..n]) || hs[n] == Events.OnRead || hs[n] == Events.OnWrite by {
          if Busy(hs[..n]) {
            var k :| 0 <= k < n && (hs[..n][k] == Events.OnRead || hs[..n][k] == Events.OnWrite);
            assert hs[k] == hs[..n][k];
          }
          if Busy(hs) && hs[n] != Events.OnRead && hs[n] != Events.OnWrite {
            var k :| 0 <= k < |hs| && (hs[k] == Events.OnRead || hs[k] == Events.OnWrite);
            assert hs[..n][k] == hs[k];
          }
        }
      }
    }
  }

  /** Reading and writing handlers count as activity, at the time they run, and nothing else does. */
  lemma ProgressMarks(conn: Connect, clock: int, a: Story, b: Story, hs: seq<Events.Handler>)
    requires Progress(conn, clock, a, b, hs)
    ensures b.now.lastActivity == if conn.idleTime > 0 && Busy(hs) then clock else a.now.lastActivity
  {
    hide Session.Legal, Session.Run, Agrees, HandlerDone, Busy;
    var es := Entries(b, |a.steps|);
    assert Chained(es, a.now);
    FittingMarks(conn, clock, es, hs, a.now);
    assert LastOf(es, a.now) == b.now;
  }

  lemma {:induction false} QuietLast(es: seq<Entry>, first: Traffic)
    requires WithoutShutdowns(es) == [] && QuietShutdowns(es) && Chained(es, first)
    ensures LastOf(es, first) == first
    decreases |es|
  {
    if es != [] {
      var init, last := es[..|es| - 1], es[|es| - 1];
      assert last.step.Shutdown?;
      QuietLast(init, first);
      assert LastOf(init, first) == last.before;
    }
  }

  /** Without handlers there is no traffic. */
  lemma NoTraffic(conn: Connect, clock: int, a: Story, b: Story)
    requires Progress(conn, clock, a, b, [])
    ensures b.now == a.now
  {
    hide Session.Legal, Session.Run, Agrees, HandlerDone;
    var es := Entries(b, |a.steps|);
    assert Chained(es, a.now);
    QuietLast(es, a.now);
    assert LastOf(es, a.now) == b.now;
  }

  // ---------- The ledger of a loop ----------

  /** What a loop has run and is running, what is queued, and what its connections have accepted and done. */
  datatype Ledger = Ledger(
    pc: EventLoop.LoopPc,
    snapshot: seq<Task>,
    running: bool,
    executed: seq<Task>,
    functions: seq<Task>,
    pending: seq<Task>,
    owner: map<Events.Event, Connect>,
    queued: map<Events.Event, seq<Bytes>>,
    pool: map<int, Events.Event>,
    admitted: set<Events.Event>,
    gone: set<Events.Event>,
    stories: map<Events.Event, Story>)

  predicate Sound(l: Ledger) {
    && l.queued.Keys == l.owner.Keys && l.stories.Keys == l.owner.Keys
    && (forall e :: e in l.stories ==> Whole(l.stories[e]) && Blank(First(l.stories[e])))
    && (forall e :: e in l.owner ==> l.owner[e].event == e)
    && (forall fd :: fd in l.pool ==> l.pool[fd].eventFd == fd && l.pool[fd] in l.owner)
  }

  function At<T>(m: map<Events.Event, seq<T>>, e: Events.Event): seq<T> {
    if e in m then m[e] else []
  }

  /** The story in b goes on from that in a; a new connection begins with no step made. */
  function Earlier(a: Ledger, b: Ledger, e: Events.Event): Story
    requires e in b.stories
  {
    if e in a.stories then a.stories[e] else Story([], [], First(b.stories[e]))
  }

  predicate OwnedBy(owner: map<Events.Event, Connect>, tasks: seq<Task>) {
    forall i :: 0 <= i < |tasks| ==>
      tasks[i].conn.event in owner && owner[tasks[i].conn.event] == tasks[i].conn
  }

  /** Posted has been queued, by connections of the loop, old or new, that have accepted the data in it;
      Stop may have been called. */
  ghost predicate Grown(a: Ledger, b: Ledger, posted: seq<Task>) {
    && Sound(a) && Sound(b) && (b.running ==> a.running)
    && (forall e :: e in a.owner ==> e in b.owner && b.owner[e] == a.owner[e])
    && OwnedBy(b.owner, posted)
    && forall e :: e in b.owner ==> b.queued[e] == At(a.queued, e) + DataFor(b.owner[e], posted)
  }

  lemma SoundBoth(a: Ledger, posted: seq<Task>, b: Ledger)
    requires Grown(a, b, posted)
    ensures Sound(a) && Sound(b)
  {
  }

  lemma NothingGrown(l: Ledger)
    requires Sound(l)
    ensures Grown(l, l, [])
  {
    assert forall e :: e in l.owner ==> l.queued[e] == At(l.queued, e) + DataFor(l.owner[e], []);
  }

  /** As far as what is queued goes, handlers and tasks change nothing. */
  lemma GrownSame(a: Ledger, b: Ledger, c: Ledger, posted: seq<Task>)
    requires Grown(a, b, posted) && Sound(c)
    requires c.owner == b.owner && c.queued == b.queued && c.running == b.running
    ensures Grown(a, c, posted)
  {
  }

  lemma OwnedTogether(owner: map<Events.Event, Connect>, wider: map<Events.Event, Connect>, p: seq<Task>, q: seq<Task>)
    requires OwnedBy(owner, p) && OwnedBy(wider, q)
    requires forall e :: e in owner ==> e in wider && wider[e] == owner[e]
    ensures OwnedBy(wider, p + q)
  {
    forall i | 0 <= i < |p + q|
      ensures (p + q)[i].conn.event in wider && wider[(p + q)[i].conn.event] == (p + q)[i].conn
    {
      if i < |p| {
        assert (p + q)[i] == p[i];
      } else {
        assert (p + q)[i] == q[i - |p|];
      }
    }
  }

  lemma QueuedTwice(a: Ledger, b: Ledger, c: Ledger, p: seq<Task>, q: seq<Task>, e: Events.Event)
    requires Grown(a, b, p) && Grown(b, c, q) && e in c.owner
    ensures c.queued[e] == At(a.queued, e) + DataFor(c.owner[e], p + q)
  {
    hide DataFor, Whole, Blank, First;
    DataForAppend(c.owner[e], p, q);
    if e in b.owner {
      assert At(b.queued, e) == b.queued[e];
    } else {
      NothingFor(c.owner[e], p);
    }
  }

  lemma GrownTwice(a: Ledger, b: Ledger, c: Ledger, p: seq<Task>, q: seq<Task>)
    requires Grown(a, b, p) && Grown(b, c, q)
    ensures Grown(a, c, p + q)
  {
    hide DataFor, OwnedBy;
    OwnedTogether(b.owner, c.owner, p, q);
    forall e | e in c.owner ensures c.queued[e] == At(a.queued, e) + DataFor(c.owner[e], p + q) {
      QueuedTwice(a, b, c, p, q, e);
    }
  }

  /** Others have been at work: they have queued posted, made connections, shut sending sides down and
      called Stop, in whatever number. */
  ghost predicate Posted(a: Ledger, b: Ledger, posted: seq<Task>) {
    && Grown(a, b, posted)
    && b.pc == a.pc && b.snapshot == a.snapshot && b.executed == a.executed
    && b.functions == a.functions + posted && b.pending == a.pending + posted
    && b.pool == a.pool && b.admitted == a.admitted && b.gone == a.gone
    && forall e :: e in b.owner ==> Progress(b.owner[e], 0, Earlier(a, b, e), b.stories[e], [])
  }

  lemma PostedKeepsPlace(a: Ledger, b: Ledger, posted: seq<Task>)
    requires Posted(a, b, posted)
    ensures b.pc == a.pc && b.snapshot == a.snapshot && b.gone == a.gone && b.admitted == a.admitted
  {
  }

  lemma PostedTwice(a: Ledger, b: Ledger, c: Ledger, p: seq<Task>, q: seq<Task>)
    requires Posted(a, b, p) && Posted(b, c, q)
    ensures Posted(a, c, p + q)
  {
    hide Progress, Grown;
    GrownTwice(a, b, c, p, q);
    assert a.functions + p + q == a.functions + (p + q) && a.pending + p + q == a.pending + (p + q);
    StoriesGrown(a, b, p);
    StoriesGrown(b, c, q);
    forall e | e in c.owner ensures Progress(c.owner[e], 0, Earlier(a, c, e), c.stories[e], []) {
      QuietTwice(a, b, c, e);
    }
  }

  lemma QuietTwice(a: Ledger, b: Ledger, c: Ledger, e: Events.Event)
    requires e in c.stories && e in c.owner
    requires e in a.stories ==> e in b.stories
    requires e in b.stories ==>
               e in b.owner && b.owner[e] == c.owner[e] && Progress(b.owner[e], 0, Earlier(a, b, e), b.stories[e], [])
    requires Progress(c.owner[e], 0, Earlier(b, c, e), c.stories[e], [])
    ensures Progress(c.owner[e], 0, Earlier(a, c, e), c.stories[e], [])
  {
    hide Progress;
    if e in b.stories {
      var none: seq<Events.Handler> := [];
      ProgressGoesOn(c.owner[e], 0, b.stories[e], c.stories[e], none);
      ProgressThen(c.owner[e], 0, Earlier(a, b, e), b.stories[e], c.stories[e], none, none);
      assert none + none == none;
    }
  }

  lemma StoriesGrown(a: Ledger, b: Ledger, p: seq<Task>)
    requires Grown(a, b, p)
    ensures a.stories.Keys == a.owner.Keys && b.stories.Keys == b.owner.Keys
    ensures forall e :: e in a.owner ==> e in b.owner && b.owner[e] == a.owner[e]
  {
  }

  // ---------- The handlers of one batch ----------

  /** In the pool at the start, and closed by no entry of the batch so far. */
  predicate StillThere(pool: set<int>, batch: seq<Ready>, closed: seq<bool>, fd: int)
    requires |closed| <= |batch|
  {
    fd in pool && forall j :: 0 <= j < |closed| ==> !(batch[j].fd == fd && closed[j])
  }

  lemma StillThereSnoc(pool: set<int>, batch: seq<Ready>, closed: seq<bool>, last: bool, fd: int)
    requires |closed| < |batch|
    ensures StillThere(pool, batch, closed + [last], fd)
            <==> StillThere(pool, batch, closed, fd) && !(batch[|closed|].fd == fd && last)
  {
    var all := closed + [last];
    assert all[|closed|] == last;
    assert forall j :: 0 <= j < |closed| ==> all[j] == closed[j];
  }

  /** The handlers run for one descriptor. */
  function HandlersFor(batch: seq<Ready>, ran: seq<Option<Events.Handler>>, fd: int): seq<Events.Handler>
    requires |ran| <= |batch|
  {
    if ran == [] then []
    else
      var n := |ran| - 1;
      HandlersFor(batch, ran[..n], fd) + if batch[n].fd == fd && ran[n].Some? then [ran[n].value] else []
  }

  lemma HandlersForSnoc(batch: seq<Ready>, ran: seq<Option<Events.Handler>>, last: Option<Events.Handler>, fd: int)
    requires |ran| < |batch|
    ensures HandlersFor(batch, ran + [last], fd)
            == HandlersFor(batch, ran, fd)
               + if batch[|ran|].fd == fd && last.Some? then [last.value] else []
  {
    assert (ran + [last])[..|ran|] == ran;
  }

  /** The handler of one entry of a batch has run, if its descriptor was in the pool: one connection has
      made a step, and has been taken out of the pool if the step closed it. */
  ghost predicate Handled(a: Ledger, entry: Ready, ran: Option<Events.Handler>, closed: bool, clock: int, b: Ledger) {
    && Sound(a) && Sound(b)
    && b == a.(pool := b.pool, gone := b.gone, stories := b.stories)
    && ran == (if entry.fd in a.pool then Events.Chosen(entry.revents) else None)
    && (closed ==> ran.Some?)
    && b.pool == (if closed then a.pool - {entry.fd} else a.pool)
    && b.gone == (if closed then a.gone + {a.pool[entry.fd]} else a.gone)
    && (ran.Some? ==> OneStep(a.stories[a.pool[entry.fd]], b.stories[a.pool[entry.fd]], closed))
    && forall e :: e in a.owner ==>
         if ran.Some? && a.pool[entry.fd] == e then Progress(a.owner[e], clock, a.stories[e], b.stories[e], [ran.value])
         else b.stories[e] == a.stories[e]
  }

  /** One step has been made, and it closes or not. */
  predicate OneStep(a: Story, b: Story, closed: bool) {
    |b.steps| == |a.steps| + 1 && (closed <==> b.steps[|a.steps|].Close?)
  }

  /** The handlers that ran for the event of a descriptor that was in the pool at the start. */
  function Served(pool: map<int, Events.Event>, batch: seq<Ready>, ran: seq<Option<Events.Handler>>, e: Events.Event)
    : seq<Events.Handler>
    requires |ran| <= |batch|
  {
    if e.eventFd in pool && pool[e.eventFd] == e then HandlersFor(batch, ran, e.eventFd) else []
  }

  /** The events that have left the pool. */
  ghost function TakenOut(was: map<int, Events.Event>, now: map<int, Events.Event>): set<Events.Event> {
    set fd | fd in was && fd !in now :: was[fd]
  }

  lemma OneTakenOut(was: map<int, Events.Event>, now: map<int, Events.Event>, fd: int)
    requires fd in was && fd in now && now[fd] == was[fd]
    ensures TakenOut(was, now - {fd}) == TakenOut(was, now) + {was[fd]}
  {
    var later := now - {fd};
    forall e | e in TakenOut(was, later) ensures e in TakenOut(was, now) + {was[fd]} {
      var g :| g in was && g !in later && was[g] == e;
    }
    assert fd in was && fd !in later;
    forall e | e in TakenOut(was, now) ensures e in TakenOut(was, later) {
      var g :| g in was && g !in now && was[g] == e;
      assert g !in later;
    }
  }

  /** The handler of each entry has run exactly when its descriptor was in the pool at the start and no
      handler of an earlier entry had closed it. */
  predicate RanRight(pool: set<int>, batch: seq<Ready>, ran: seq<Option<Events.Handler>>, closed: seq<bool>) {
    && |ran| == |closed| <= |batch|
    && forall i :: 0 <= i < |ran| ==>
         ran[i] == if StillThere(pool, batch, closed[..i], batch[i].fd) then Events.Chosen(batch[i].revents) else None
  }

  lemma RanRightMore(pool: set<int>, batch: seq<Ready>, ran: seq<Option<Events.Handler>>, closed: seq<bool>,
                     h: Option<Events.Handler>, cl: bool)
    requires RanRight(pool, batch, ran, closed) && |ran| < |batch|
    requires var entry := batch[|ran|];
             h == if StillThere(pool, batch, closed, entry.fd) then Events.Chosen(entry.revents) else None
    ensures RanRight(pool, batch, ran + [h], closed + [cl])
  {
    forall i | 0 <= i <= |ran| ensures (closed + [cl])[..i] == closed[..i] {
    }
    assert closed[..|ran|] == closed;
  }

  /** The first entries of a batch have been dispatched: the handler of an entry has run exactly when its
      descriptor was in the pool at the start and no handler of the batch had closed it, and each
      connection, old or new, has made exactly the steps of the handlers that ran for it, on an open
      connection. */
  ghost predicate Dispatched(start: Ledger, batch: seq<Ready>, ran: seq<Option<Events.Handler>>, closed: seq<bool>,
                             posted: seq<Task>, clock: int, now: Ledger)
  {
    && |ran| == |closed| <= |batch| && Grown(start, now, posted)
    && now.pc == start.pc && now.snapshot == start.snapshot && now.executed == start.executed
    && now.functions == start.functions + posted && now.pending == start.pending + posted
    && now.admitted == start.admitted
    && RanRight(start.pool.Keys, batch, ran, closed)
    && (forall fd :: fd in now.pool <==> StillThere(start.pool.Keys, batch, closed, fd))
    && (forall fd :: fd in now.pool ==> fd in start.pool && now.pool[fd] == start.pool[fd])
    && now.gone == start.gone + TakenOut(start.pool, now.pool)
    && forall e :: e in now.owner ==>
         Progress(now.owner[e], clock, Earlier(start, now, e), now.stories[e], Served(start.pool, batch, ran, e))
  }

  lemma NothingDispatched(l: Ledger, batch: seq<Ready>, clock: int)
    requires Sound(l)
    requires forall e :: e in l.owner ==> Progress(l.owner[e], clock, l.stories[e], l.stories[e], [])
    ensures Dispatched(l, batch, [], [], [], clock, l)
  {
    hide Progress;
    NothingGrown(l);
    assert l.functions + [] == l.functions && l.pending + [] == l.pending;
  }

  /** The pool has lost the descriptor of the entry if its handler closed. */
  lemma PoolMore(pool: map<int, Events.Event>, batch: seq<Ready>, closed: seq<bool>,
                 was: map<int, Events.Event>, cl: bool, now: map<int, Events.Event>)
    requires |closed| < |batch|
    requires forall fd :: fd in was <==> StillThere(pool.Keys, batch, closed, fd)
    requires forall fd :: fd in was ==> fd in pool && was[fd] == pool[fd]
    requires now == if cl then was - {batch[|closed|].fd} else was
    requires cl ==> batch[|closed|].fd in was
    ensures forall fd :: fd in now <==> StillThere(pool.Keys, batch, closed + [cl], fd)
    ensures forall fd :: fd in now ==> fd in pool && now[fd] == pool[fd]
    ensures TakenOut(pool, now)
            == if cl then TakenOut(pool, was) + {was[batch[|closed|].fd]} else TakenOut(pool, was)
  {
    if cl {
      OneTakenOut(pool, was, batch[|closed|].fd);
    }
    forall fd ensures fd in now <==> StillThere(pool.Keys, batch, closed + [cl], fd) {
      StillThereSnoc(pool.Keys, batch, closed, cl, fd);
    }
  }

  lemma ServedMore(pool: map<int, Events.Event>, batch: seq<Ready>, ran: seq<Option<Events.Handler>>,
                   h: Option<Events.Handler>, e: Events.Event)
    requires |ran| < |batch|
    requires forall fd :: fd in pool ==> pool[fd].eventFd == fd
    requires h.Some? ==> batch[|ran|].fd in pool
    ensures Served(pool, batch, ran + [h], e)
            == Served(pool, batch, ran, e) + if h.Some? && pool[batch[|ran|].fd] == e then [h.value] else []
  {
    HandlersForSnoc(batch, ran, h, e.eventFd);
  }

  lemma StoryMore(conn: Connect, clock: int, pool: map<int, Events.Event>, batch: seq<Ready>,
                  ran: seq<Option<Events.Handler>>, h: Option<Events.Handler>, e: Events.Event,
                  a: Story, b: Story, c: Story)
    requires |ran| < |batch|
    requires forall fd :: fd in pool ==> pool[fd].eventFd == fd
    requires h.Some? ==> batch[|ran|].fd in pool
    requires Progress(conn, clock, a, b, Served(pool, batch, ran, e))
    requires if h.Some? && pool[batch[|ran|].fd] == e then Progress(conn, clock, b, c, [h.value]) else c == b
    ensures Progress(conn, clock, a, c, Served(pool, batch, ran + [h], e))
    ensures First(c) == First(b)
  {
    hide Progress;
    ServedMore(pool, batch, ran, h, e);
    var served := Served(pool, batch, ran, e);
    if h.Some? && pool[batch[|ran|].fd] == e {
      ProgressThen(conn, clock, a, b, c, served, [h.value]);
      ProgressGoesOn(conn, clock, b, c, [h.value]);
    } else {
      assert served + [] == served;
    }
  }

  lemma DispatchedMore(start: Ledger, batch: seq<Ready>, ran: seq<Option<Events.Handler>>, closed: seq<bool>,
                       posted: seq<Task>, clock: int, a: Ledger, h: Option<Events.Handler>, cl: bool, b: Ledger)
    requires Dispatched(start, batch, ran, closed, posted, clock, a) && |ran| < |batch|
    requires Handled(a, batch[|ran|], h, cl, clock, b)
    ensures Dispatched(start, batch, ran + [h], closed + [cl], posted, clock, b)
  {
    hide Progress, Grown, TakenOut, Served, RanRight, StillThere, Sound, At, OneStep, First;
    GrownSame(start, a, b, posted);
    SoundPool(start, a, posted);
    SoundPool(start, b, posted);
    RanRightMore(start.pool.Keys, batch, ran, closed, h, cl);
    PoolMore(start.pool, batch, closed, a.pool, cl, b.pool);
    forall e | e in b.owner
      ensures Progress(b.owner[e], clock, Earlier(start, b, e), b.stories[e], Served(start.pool, batch, ran + [h], e))
    {
      StoryMore(b.owner[e], clock, start.pool, batch, ran, h, e, Earlier(start, a, e), a.stories[e], b.stories[e]);
    }
  }

  lemma SoundPool(start: Ledger, now: Ledger, posted: seq<Task>)
    requires Grown(start, now, posted)
    ensures forall fd :: fd in start.pool ==> start.pool[fd].eventFd == fd && start.pool[fd] in start.owner
    ensures now.stories.Keys == now.owner.Keys && start.stories.Keys == start.owner.Keys
    ensures forall e :: e in start.owner ==> e in now.owner && now.owner[e] == start.owner[e]
  {
  }

  lemma DispatchedPosted(start: Ledger, batch: seq<Ready>, ran: seq<Option<Events.Handler>>, closed: seq<bool>,
                         posted: seq<Task>, clock: int, a: Ledger, more: seq<Task>, b: Ledger)
    requires Dispatched(start, batch, ran, closed, posted, clock, a) && Posted(a, b, more)
    ensures Dispatched(start, batch, ran, closed, posted + more, clock, b)
  {
    hide Progress, Grown, TakenOut, StillThere, HandlersFor, RanRight, First;
    GrownTwice(start, a, b, posted, more);
    SoundPool(start, a, posted);
    SoundPool(a, b, more);
    assert start.functions + posted + more == start.functions + (posted + more);
    assert start.pending + posted + more == start.pending + (posted + more);
    forall e | e in b.owner
      ensures Progress(b.owner[e], clock, Earlier(start, b, e), b.stories[e], Served(start.pool, batch, ran, e))
    {
      var served := Served(start.pool, batch, ran, e);
      AnyClock(b.owner[e], 0, clock, Earlier(a, b, e), b.stories[e]);
      if e in a.owner {
        ProgressGoesOn(b.owner[e], clock, a.stories[e], b.stories[e], []);
        ProgressThen(b.owner[e], clock, Earlier(start, a, e), a.stories[e], b.stories[e], served, []);
        assert served + [] == served;
      } else {
        assert served == [];
      }
    }
  }

  /** Where the loop is makes no difference to what a batch does. */
  lemma DispatchedElsewhere(start: Ledger, batch: seq<Ready>, ran: seq<Option<Events.Handler>>, closed: seq<bool>,
                            posted: seq<Task>, clock: int, now: Ledger, pc: EventLoop.LoopPc)
    requires Dispatched(start, batch, ran, closed, posted, clock, now)
    ensures Dispatched(start.(pc := pc), batch, ran, closed, posted, clock, now.(pc := pc)) && now.pc == start.pc
  {
    hide Progress, Grown, TakenOut, Served, StillThere, RanRight, First;
    SoundBoth(start, posted, now);
    GrownElsewhere(start, now, posted, start.(pc := pc), now.(pc := pc));
  }

  /** Nor where it is, what it has run and what it has in hand to what has been queued. */
  lemma GrownElsewhere(a: Ledger, b: Ledger, posted: seq<Task>, c: Ledger, d: Ledger)
    requires Grown(a, b, posted) && Sound(c) && Sound(d)
    requires c.owner == a.owner && c.queued == a.queued && c.running == a.running
    requires d.owner == b.owner && d.queued == b.queued && d.running == b.running
    ensures Grown(c, d, posted)
  {
  }

  // ---------- The tasks of one pass ----------

  /** One task of the snapshot has been run: its connection has made the step of the task, and no other has
      made any. Opening puts the event into the pool; closing, which a write does exactly when it fails, takes
      it out. */
  ghost predicate TaskRun(a: Ledger, b: Ledger) {
    && Sound(a) && Sound(b) && a.pc.Running? && a.pc.next < |a.snapshot|
    && var task := a.snapshot[a.pc.next];
    var e := task.conn.event;
    && e in a.owner && a.owner[e] == task.conn
    && a.pending == [task] + b.pending
    && b == a.(pc := EventLoop.Running(a.pc.next + 1), executed := a.executed + [task], pending := b.pending,
               pool := b.pool, admitted := b.admitted, gone := b.gone, stories := b.stories)
    && |b.stories[e].steps| == |a.stories[e].steps| + 1
    && var step := b.stories[e].steps[|a.stories[e].steps|];
    && b.stories[e] == Story(a.stories[e].steps + [step], a.stories[e].past + [a.stories[e].now], b.stories[e].now)
    && TaskDone(task, step, a.stories[e].now, b.stories[e].now)
    && b.admitted == (if task.ConnectTask? then a.admitted + {e} else a.admitted)
    && b.gone == (if step.Close? then a.gone + {e} else a.gone)
    && b.pool == (if task.ConnectTask? then a.pool[e.eventFd := e]
                  else if step.Close? && e !in a.gone then a.pool - {e.eventFd} else a.pool)
    && forall g :: g in a.owner && g != e ==> b.stories[g] == a.stories[g]
  }

  /** The events that the tasks open. */
  ghost function Opens(tasks: seq<Task>): set<Events.Event> {
    set i | 0 <= i < |tasks| && tasks[i].ConnectTask? :: tasks[i].conn.event
  }

  /** The events that the tasks close. */
  ghost function Closes(tasks: seq<Task>): set<Events.Event> {
    set i | 0 <= i < |tasks| && tasks[i].CloseTask? :: tasks[i].conn.event
  }

  /** The events that the tasks write to. */
  ghost function Writes(tasks: seq<Task>): set<Events.Event> {
    set i | 0 <= i < |tasks| && tasks[i].WriteTask? :: tasks[i].conn.event
  }

  lemma OneMoreTask(tasks: seq<Task>, task: Task)
    ensures Opens(tasks + [task]) == Opens(tasks) + if task.ConnectTask? then {task.conn.event} else {}
    ensures Closes(tasks + [task]) == Closes(tasks) + if task.CloseTask? then {task.conn.event} else {}
    ensures Writes(tasks + [task]) == Writes(tasks) + if task.WriteTask? then {task.conn.event} else {}
  {
    var all := tasks + [task];
    assert all[|tasks|] == task;
    assert forall i :: 0 <= i < |tasks| ==> all[i] == tasks[i];
  }

  /** How a connection has fared that had the traffic s before and t after it was handed data. If a write of it
      failed it is closed; while it is open the kernel has, or will get, just the data besides what there was; it
      has not been read from, and none of it counts as activity. */
  predicate Fares(s: Traffic, t: Traffic, closed: bool, data: seq<Bytes>) {
    && t.failures >= s.failures && (t.failures > s.failures ==> closed)
    && (!closed ==> t.accepted + t.out == s.accepted + s.out + Flatten(data))
    && t.answers == s.answers && t.lastActivity == s.lastActivity
  }

  lemma FaresNothing(s: Traffic, closed: bool)
    ensures Fares(s, s, closed, [])
  {
    assert Flatten<Byte>([]) == [];
  }

  lemma FaresMore(s: Traffic, t: Traffic, u: Traffic, was: bool, closed: bool, data: seq<Bytes>,
                  task: Task, step: Session.Step)
    requires Fares(s, t, was, data) && TaskDone(task, step, t, u) && (closed <==> was || step.Close?)
    ensures Fares(s, u, closed, data + if task.WriteTask? then [task.buffer] else [])
    ensures closed && !was ==> task.CloseTask? || (task.WriteTask? && u.failures > t.failures)
  {
    if task.WriteTask? {
      FlattenSnoc(data, task.buffer);
    } else {
      assert data + [] == data;
    }
  }

  ghost predicate Fared(a: Ledger, b: Ledger, tasks: seq<Task>, e: Events.Event)
    requires e in b.owner && e in b.stories
  {
    && First(b.stories[e]) == First(Earlier(a, b, e))
    && Fares(Earlier(a, b, e).now, b.stories[e].now, e in b.gone, DataFor(b.owner[e], tasks))
  }

  /** A write of the connection has failed. */
  predicate WriteFailed(a: Ledger, b: Ledger, e: Events.Event) {
    e in b.stories && b.stories[e].now.failures > Earlier(a, b, e).now.failures
  }

  /** What carrying out the tasks has done: it has opened exactly the connections to be opened, and it has closed
      those to be closed and those of which a write failed, and no others. */
  ghost predicate CarriedOut(a: Ledger, b: Ledger, tasks: seq<Task>) {
    && b.admitted == a.admitted + Opens(tasks) && OwnedBy(b.owner, tasks)
    && a.gone + Closes(tasks) <= b.gone && ClosedRightly(a, b, tasks) && AllFared(a, b, tasks)
  }

  ghost predicate ClosedRightly(a: Ledger, b: Ledger, tasks: seq<Task>) {
    forall e :: e in b.gone ==> e in a.gone || e in Closes(tasks) || (e in Writes(tasks) && WriteFailed(a, b, e))
  }

  ghost predicate AllFared(a: Ledger, b: Ledger, tasks: seq<Task>) {
    forall e :: e in b.owner && e in b.stories ==> Fared(a, b, tasks, e)
  }

  lemma NothingCarriedOut(l: Ledger)
    requires Sound(l)
    ensures CarriedOut(l, l, [])
  {
    hide Fares, Whole, Blank, First;
    forall e | e in l.owner && e in l.stories ensures Fared(l, l, [], e) {
      FaresNothing(l.stories[e].now, e in l.gone);
    }
  }

  /** Only the stories and who is open count. */
  lemma CarriedOutElsewhere(a: Ledger, b: Ledger, c: Ledger, d: Ledger, tasks: seq<Task>)
    requires CarriedOut(a, b, tasks)
    requires c.admitted == a.admitted && c.gone == a.gone && c.stories == a.stories
    requires d.admitted == b.admitted && d.gone == b.gone && d.stories == b.stories && d.owner == b.owner
    ensures CarriedOut(c, d, tasks)
  {
    hide Fares, DataFor, Opens, Closes, Writes, OwnedBy, First;
    forall e | e in d.owner && e in d.stories ensures Fared(c, d, tasks, e) {
      assert Fared(a, b, tasks, e);
    }
    forall e | e in d.gone
      ensures e in c.gone || e in Closes(tasks) || (e in Writes(tasks) && WriteFailed(c, d, e))
    {
      assert WriteFailed(a, b, e) <==> WriteFailed(c, d, e);
    }
  }

  /** What a task does to the ledger, but for the step itself. */
  lemma TaskKeeps(a: Ledger, b: Ledger)
    requires TaskRun(a, b)
    ensures b.owner == a.owner && a.stories.Keys == a.owner.Keys && b.stories.Keys == a.owner.Keys
    ensures b.queued == a.queued && b.running == a.running && b.snapshot == a.snapshot && b.functions == a.functions
    ensures Sound(a) && Sound(b)
    ensures a.pc.Running? && a.pc.next < |a.snapshot| && b.pc == EventLoop.Running(a.pc.next + 1)
    ensures var task := a.snapshot[a.pc.next];
            && task.conn.event in a.owner && a.owner[task.conn.event] == task.conn
            && a.pending == [task] + b.pending && b.executed == a.executed + [task]
            && b.admitted == (if task.ConnectTask? then a.admitted + {task.conn.event} else a.admitted)
            && a.gone <= b.gone <= a.gone + {task.conn.event}
            && (task.CloseTask? ==> task.conn.event in b.gone)
            && forall e :: e in a.owner && e != task.conn.event ==> b.stories[e] == a.stories[e]
  {
  }

  lemma KindOfStep(task: Task, step: Session.Step, s: Traffic, t: Traffic)
    requires TaskDone(task, step, s, t)
    ensures match task
            case ConnectTask(_) => step.Connect?
            case CloseTask(_) => step.Close?
            case WriteTask(_, data) => step.Close? || (step.Submit? && step.data == data)
  {
  }

  /** The step of the task. */
  lemma TaskStep(a: Ledger, b: Ledger) returns (step: Session.Step)
    requires TaskRun(a, b)
    ensures var task := a.snapshot[a.pc.next];
            var e := task.conn.event;
            && e in a.stories && e in b.stories && TaskDone(task, step, a.stories[e].now, b.stories[e].now)
            && (e in b.gone <==> e in a.gone || step.Close?)
            && First(b.stories[e]) == First(a.stories[e])
  {
    hide TaskDone, Blank;
    var e := a.snapshot[a.pc.next].conn.event;
    step := b.stories[e].steps[|a.stories[e].steps|];
  }

  /** What one task makes of its own connection. */
  lemma OwnFared(start: Ledger, a: Ledger, b: Ledger, done: seq<Task>, task: Task)
    requires TaskRun(a, b) && task == a.snapshot[a.pc.next]
    requires task.conn.event in a.owner && task.conn.event in a.stories && Fared(start, a, done, task.conn.event)
    ensures task.conn.event in b.owner && task.conn.event in b.stories
    ensures Fared(start, b, done + [task], task.conn.event)
    ensures var e := task.conn.event;
            e in b.gone ==> e in a.gone || task.CloseTask? || (task.WriteTask? && WriteFailed(start, b, e))
  {
    TaskKeeps(a, b);
    var step := TaskStep(a, b);
    hide TaskRun, TaskDone, First, DataFor;
    var e := task.conn.event;
    DataForSnoc(a.owner[e], done, task);
    var s, t, u := Earlier(start, a, e).now, a.stories[e].now, b.stories[e].now;
    FaresMore(s, t, u, e in a.gone, e in b.gone, DataFor(a.owner[e], done), task, step);
  }

  lemma OtherFared(start: Ledger, a: Ledger, b: Ledger, done: seq<Task>, task: Task, e: Events.Event)
    requires TaskRun(a, b) && task == a.snapshot[a.pc.next]
    requires e in a.owner && e in a.stories && e != task.conn.event && Fared(start, a, done, e)
    ensures e in b.owner && e in b.stories && Fared(start, b, done + [task], e)
    ensures WriteFailed(start, b, e) <==> WriteFailed(start, a, e)
  {
    TaskKeeps(a, b);
    assert b.owner[e].event == e;
    hide TaskRun, Fares, DataFor, First;
    DataForSnoc(b.owner[e], done, task);
    assert DataFor(b.owner[e], done) + [] == DataFor(b.owner[e], done);
  }

  lemma OneMoreOwned(owner: map<Events.Event, Connect>, tasks: seq<Task>, task: Task)
    requires OwnedBy(owner, tasks) && task.conn.event in owner && owner[task.conn.event] == task.conn
    ensures OwnedBy(owner, tasks + [task])
  {
    var all := tasks + [task];
    assert all[|tasks|] == task && forall i :: 0 <= i < |tasks| ==> all[i] == tasks[i];
  }

  lemma SetsMore(a0: set<Events.Event>, g0: set<Events.Event>, a: Ledger, b: Ledger, done: seq<Task>)
    requires TaskRun(a, b) && a.admitted == a0 + Opens(done) && g0 + Closes(done) <= a.gone
    ensures var all := done + [a.snapshot[a.pc.next]];
            b.admitted == a0 + Opens(all) && g0 + Closes(all) <= b.gone && b.owner == a.owner
    ensures OwnedBy(a.owner, done) ==> OwnedBy(b.owner, done + [a.snapshot[a.pc.next]])
  {
    TaskKeeps(a, b);
    var task := a.snapshot[a.pc.next];
    hide TaskRun, Opens, Closes, Writes, OwnedBy, Sound;
    OneMoreTask(done, task);
    if OwnedBy(a.owner, done) {
      OneMoreOwned(b.owner, done, task);
    }
  }

  lemma CarriedOutMore(start: Ledger, a: Ledger, b: Ledger, done: seq<Task>, task: Task)
    requires CarriedOut(start, a, done) && TaskRun(a, b) && task == a.snapshot[a.pc.next]
    ensures CarriedOut(start, b, done + [task])
  {
    hide TaskRun, Opens, Closes, Writes, OwnedBy, ClosedRightly, AllFared;
    SetsMore(start.admitted, start.gone, a, b, done);
    AllFaredMore(start, a, b, done, task);
    ClosedRightlyMore(start, a, b, done, task);
  }

  lemma AllFaredMore(start: Ledger, a: Ledger, b: Ledger, done: seq<Task>, task: Task)
    requires AllFared(start, a, done) && TaskRun(a, b) && task == a.snapshot[a.pc.next]
    ensures AllFared(start, b, done + [task])
  {
    TaskKeeps(a, b);
    hide TaskRun, Fared, Sound;
    OwnFared(start, a, b, done, task);
    forall e | e in b.owner && e in b.stories ensures Fared(start, b, done + [task], e) {
      if e != task.conn.event {
        OtherFared(start, a, b, done, task, e);
      }
    }
  }

  lemma ClosedRightlyMore(start: Ledger, a: Ledger, b: Ledger, done: seq<Task>, task: Task)
    requires AllFared(start, a, done) && ClosedRightly(start, a, done)
    requires TaskRun(a, b) && task == a.snapshot[a.pc.next]
    ensures ClosedRightly(start, b, done + [task])
  {
    hide TaskRun, AllFared, Sound, Opens, Closes, Writes, WriteFailed;
    OneMoreTask(done, task);
    forall e | e in b.gone
      ensures e in start.gone || e in Closes(done + [task]) || (e in Writes(done + [task]) && WriteFailed(start, b, e))
    {
      ClosedByOrBefore(start, a, b, done, e);
    }
  }

  /** A connection that is closed after a task was closed by it or before it. */
  lemma ClosedByOrBefore(start: Ledger, a: Ledger, b: Ledger, done: seq<Task>, e: Events.Event)
    requires AllFared(start, a, done) && TaskRun(a, b) && e in b.gone
    ensures var task := a.snapshot[a.pc.next];
            || (e == task.conn.event && (task.CloseTask? || (task.WriteTask? && WriteFailed(start, b, e))))
            || (e in a.gone && (WriteFailed(start, a, e) ==> WriteFailed(start, b, e)))
  {
    var task := a.snapshot[a.pc.next];
    hide AllFared, TaskRun, WriteFailed;
    if e == task.conn.event {
      ClosedByTask(start, a, b, done);
    } else {
      ClosedEarlier(start, a, b, done, e);
    }
  }

  lemma ClosedByTask(start: Ledger, a: Ledger, b: Ledger, done: seq<Task>)
    requires AllFared(start, a, done) && TaskRun(a, b) && a.snapshot[a.pc.next].conn.event in b.gone
    ensures var task := a.snapshot[a.pc.next];
            var e := task.conn.event;
            || task.CloseTask? || (task.WriteTask? && WriteFailed(start, b, e))
            || (e in a.gone && (WriteFailed(start, a, e) ==> WriteFailed(start, b, e)))
  {
    TaskKeeps(a, b);
    hide TaskRun, Fared, Sound, WriteFailed;
    var task := a.snapshot[a.pc.next];
    OwnFared(start, a, b, done, task);
    if WriteFailed(start, a, task.conn.event) {
      FailedStays(start, a, b);
    }
  }

  lemma ClosedEarlier(start: Ledger, a: Ledger, b: Ledger, done: seq<Task>, e: Events.Event)
    requires AllFared(start, a, done) && TaskRun(a, b) && e in b.gone && e != a.snapshot[a.pc.next].conn.event
    ensures e in a.gone && (WriteFailed(start, a, e) ==> WriteFailed(start, b, e))
  {
    assert e in a.owner && e in a.stories ==> Fared(start, a, done, e);
    Bystander(a, b, e);
    hide AllFared, TaskRun, Fared, Sound, WriteFailed;
    if e in a.stories {
      OtherFared(start, a, b, done, a.snapshot[a.pc.next], e);
    } else {
      NotFailed(start, a, e);
    }
  }

  lemma Bystander(a: Ledger, b: Ledger, e: Events.Event)
    requires TaskRun(a, b) && e != a.snapshot[a.pc.next].conn.event
    ensures (e in b.gone <==> e in a.gone) && (e in a.stories <==> e in a.owner)
  {
    hide TaskDone;
  }

  lemma NotFailed(a: Ledger, b: Ledger, e: Events.Event)
    requires e !in b.stories
    ensures !WriteFailed(a, b, e)
  {
  }

  /** A write that has failed has failed. */
  lemma FailedStays(start: Ledger, a: Ledger, b: Ledger)
    requires TaskRun(a, b) && WriteFailed(start, a, a.snapshot[a.pc.next].conn.event)
    ensures WriteFailed(start, b, a.snapshot[a.pc.next].conn.event)
  {
    var step := TaskStep(a, b);
    hide TaskRun, First;
  }

  /** Whatever happens elsewhere brings no traffic. */
  lemma PostedTraffic(a: Ledger, b: Ledger, more: seq<Task>, e: Events.Event)
    requires Posted(a, b, more) && e in b.owner
    ensures e in b.stories && (e in a.owner <==> e in a.stories)
    ensures e in a.stories ==> b.stories[e].now == a.stories[e].now && First(b.stories[e]) == First(a.stories[e])
                               && b.owner[e] == a.owner[e]
    ensures e !in a.stories ==> b.stories[e].now == First(b.stories[e])
    ensures b.owner[e].event == e
  {
    hide Progress, DataFor, OwnedBy, Blank;
    NoTraffic(b.owner[e], 0, Earlier(a, b, e), b.stories[e]);
    ProgressGoesOn(b.owner[e], 0, Earlier(a, b, e), b.stories[e], []);
  }

  /** Whatever happens elsewhere, a connection fares no differently. */
  lemma FaredPosted(start: Ledger, a: Ledger, more: seq<Task>, b: Ledger, done: seq<Task>, e: Events.Event)
    requires Posted(a, b, more) && OwnedBy(a.owner, done) && e in b.owner && (e in start.stories ==> e in a.stories)
    requires e in a.owner && e in a.stories ==> Fared(start, a, done, e)
    ensures e in b.stories && Fared(start, b, done, e)
    ensures WriteFailed(start, b, e) <==> WriteFailed(start, a, e)
  {
    PostedTraffic(a, b, more, e);
    PostedKeepsPlace(a, b, more);
    hide Posted, First, Fares;
    if e !in a.owner {
      NothingFor(b.owner[e], done);
      FaresNothing(b.stories[e].now, e in b.gone);
    }
  }

  lemma CarriedOutPosted(start: Ledger, earlier: seq<Task>, a: Ledger, more: seq<Task>, b: Ledger, done: seq<Task>)
    requires Grown(start, a, earlier) && CarriedOut(start, a, done) && Posted(a, b, more)
    ensures CarriedOut(start, b, done)
  {
    StoriesGrown(start, a, earlier);
    PostedKeepsPlace(a, b, more);
    PostedGrown(a, b, more);
    StoriesGrown(a, b, more);
    hide Grown, Posted, Opens, Closes, Writes, Fared, WriteFailed, ClosedRightly, AllFared;
    AllFaredPosted(start, earlier, a, more, b, done);
    ClosedRightlyPosted(start, earlier, a, more, b, done);
  }

  lemma AllFaredPosted(start: Ledger, earlier: seq<Task>, a: Ledger, more: seq<Task>, b: Ledger, done: seq<Task>)
    requires Grown(start, a, earlier) && AllFared(start, a, done) && OwnedBy(a.owner, done) && Posted(a, b, more)
    ensures AllFared(start, b, done)
  {
    StoriesGrown(start, a, earlier);
    hide Grown, Posted, Fared, OwnedBy, WriteFailed;
    forall e | e in b.owner && e in b.stories ensures Fared(start, b, done, e) {
      FaredPosted(start, a, more, b, done, e);
    }
  }

  lemma ClosedRightlyPosted(start: Ledger, earlier: seq<Task>, a: Ledger, more: seq<Task>, b: Ledger, done: seq<Task>)
    requires Grown(start, a, earlier) && AllFared(start, a, done) && ClosedRightly(start, a, done)
    requires OwnedBy(a.owner, done) && Posted(a, b, more)
    ensures ClosedRightly(start, b, done)
  {
    StoriesGrown(start, a, earlier);
    PostedKeepsPlace(a, b, more);
    PostedGrown(a, b, more);
    StoriesGrown(a, b, more);
    hide Grown, Posted, Fared, OwnedBy, WriteFailed, Opens, Closes, Writes;
    forall e | e in b.gone
      ensures e in start.gone || e in Closes(done) || (e in Writes(done) && WriteFailed(start, b, e))
    {
      if e in b.owner {
        FaredPosted(start, a, more, b, done, e);
      } else {
        NotFailed(start, a, e);
      }
    }
  }

  lemma PostedGrown(a: Ledger, b: Ledger, more: seq<Task>)
    requires Posted(a, b, more)
    ensures Grown(a, b, more)
  {
  }

  /** Part of the way through a pass that began at start: the tasks of its snapshot have been carried out one
      after the other, and posted has been queued meanwhile. */
  ghost predicate Passing(start: Ledger, posted: seq<Task>, now: Ledger) {
    && now.pc.Running? && now.pc.next <= |start.snapshot| && Grown(start, now, posted)
    && now.snapshot == start.snapshot && now.executed == start.executed + start.snapshot[..now.pc.next]
    && now.functions == posted && now.pending == start.snapshot[now.pc.next..] + posted
    && CarriedOut(start, now, start.snapshot[..now.pc.next])
  }

  lemma PassBegins(l: Ledger)
    requires Sound(l) && l.pc == EventLoop.Running(0) && l.functions == [] && l.pending == l.snapshot
    ensures Passing(l, [], l)
  {
    NothingGrown(l);
    NothingCarriedOut(l);
    assert l.snapshot[..0] == [] && l.snapshot[0..] == l.snapshot && l.snapshot + [] == l.snapshot;
    assert l.executed + [] == l.executed;
  }

  lemma PassingTask(start: Ledger, posted: seq<Task>, a: Ledger, b: Ledger)
    requires Passing(start, posted, a) && TaskRun(a, b)
    ensures Passing(start, posted, b)
  {
    hide Grown, CarriedOut, TaskRun, Sound;
    TaskGrown(start, posted, a, b);
    TaskPlace(a, b);
    var n := a.pc.next;
    var task := a.snapshot[n];
    assert start.snapshot[..n + 1] == start.snapshot[..n] + [task];
    CarriedOutMore(start, a, b, start.snapshot[..n], task);
    assert start.executed + start.snapshot[..n] + [task] == start.executed + start.snapshot[..n + 1];
    assert a.pending == [task] + (start.snapshot[n + 1..] + posted);
    assert b.pending == a.pending[1..] == start.snapshot[n + 1..] + posted;
  }

  lemma TaskPlace(a: Ledger, b: Ledger)
    requires TaskRun(a, b)
    ensures a.pc.Running? && a.pc.next < |a.snapshot| && b.pc == EventLoop.Running(a.pc.next + 1)
    ensures b.snapshot == a.snapshot && b.functions == a.functions
    ensures a.pending == [a.snapshot[a.pc.next]] + b.pending && b.executed == a.executed + [a.snapshot[a.pc.next]]
  {
  }

  lemma TaskGrown(start: Ledger, posted: seq<Task>, a: Ledger, b: Ledger)
    requires Grown(start, a, posted) && TaskRun(a, b)
    ensures Grown(start, b, posted)
  {
    TaskKeeps(a, b);
    hide TaskRun, Sound, Grown;
    GrownSame(start, a, b, posted);
  }

  lemma PassingPosted(start: Ledger, posted: seq<Task>, a: Ledger, more: seq<Task>, b: Ledger)
    requires Passing(start, posted, a) && Posted(a, b, more)
    ensures Passing(start, posted + more, b)
  {
    hide Grown, Progress, CarriedOut;
    GrownTwice(start, a, b, posted, more);
    CarriedOutPosted(start, posted, a, more, b, start.snapshot[..a.pc.next]);
    assert (start.snapshot[a.pc.next..] + posted) + more == start.snapshot[a.pc.next..] + (posted + more);
  }

  /** A whole pass: what was queued has been carried out, in order, and what was posted meanwhile is queued. */
  ghost predicate Passed(start: Ledger, posted: seq<Task>, now: Ledger) {
    && Grown(start, now, posted)
    && now.executed == start.executed + start.functions
    && now.functions == posted && now.pending == posted
    && CarriedOut(start, now, start.functions)
  }

  lemma PassedIs(start: Ledger, taken: Ledger, posted: seq<Task>, now: Ledger)
    requires Sound(start) && taken == start.(pc := taken.pc, snapshot := start.functions, functions := [])
    requires Passing(taken, posted, now) && now.pc == EventLoop.Running(|taken.snapshot|)
    ensures Passed(start, posted, now)
  {
    hide Grown, CarriedOut;
    assert taken.snapshot[..|taken.snapshot|] == taken.snapshot;
    CarriedOutElsewhere(taken, now, start, now, start.functions);
    SoundBoth(taken, posted, now);
    GrownElsewhere(taken, now, posted, start, now);
    assert taken.snapshot[|taken.snapshot|..] + posted == posted;
  }

  /** The events whose opening is queued, and has not been run. */
  ghost function ToOpen(l: Ledger): set<Events.Event> {
    set e | e in l.owner && e !in l.admitted && ConnectTask(l.owner[e]) in l.functions
  }

  lemma ToOpenGrows(a: Ledger, b: Ledger, posted: seq<Task>)
    requires Grown(a, b, posted) && b.admitted == a.admitted && b.functions == a.functions + posted
    ensures ToOpen(a) <= ToOpen(b)
  {
  }

  /** Nothing but to open can be queued for a connection that has not been opened. */
  ghost predicate OnlyToOpen(l: Ledger) {
    ToOpen(l) <= Opens(l.functions) && ToOpen(l) !! Closes(l.functions) + Writes(l.functions) + l.gone
  }

  lemma OnlyToOpenIs(l: Ledger)
    requires forall e :: e in l.owner ==> l.owner[e].event == e
    requires l.gone <= l.admitted
    requires forall i :: 0 <= i < |l.functions| ==>
               (l.functions[i].ConnectTask? <==> l.functions[i].conn.event !in l.admitted)
    ensures OnlyToOpen(l)
  {
    forall e | e in ToOpen(l) ensures e in Opens(l.functions) {
      var i :| 0 <= i < |l.functions| && l.functions[i] == ConnectTask(l.owner[e]);
      assert l.functions[i].conn.event == e;
    }
  }

  /** So what a pass opens is open after it. */
  lemma PassOpens(start: Ledger, posted: seq<Task>, now: Ledger)
    requires Passed(start, posted, now) && OnlyToOpen(start)
    ensures ToOpen(start) <= now.admitted - now.gone && ToOpen(start) <= now.owner.Keys
  {
    hide Opens, Closes, Writes;
  }

  lemma ToOpenElsewhere(l: Ledger, pc: EventLoop.LoopPc)
    ensures ToOpen(l.(pc := pc)) == ToOpen(l)
  {
  }

  lemma ToOpenPosted(a: Ledger, b: Ledger, posted: seq<Task>)
    requires Posted(a, b, posted)
    ensures ToOpen(a) <= ToOpen(b) && b.pc == a.pc
    ensures forall e :: e in a.owner ==> e in b.owner && b.owner[e] == a.owner[e]
  {
    hide Progress, DataFor;
    ToOpenGrows(a, b, posted);
  }

  lemma NewIsToOpen(a: Ledger, b: Ledger, c: Connect)
    requires Posted(a, b, [ConnectTask(c)]) && c.event !in a.owner && c.event in b.owner && b.owner[c.event] == c
    requires c.event !in b.admitted
    ensures c.event in ToOpen(b)
  {
    hide Progress, DataFor, Grown;
    assert b.functions[|a.functions|] == ConnectTask(c);
  }

  lemma PassedKeeps(start: Ledger, posted: seq<Task>, now: Ledger)
    requires Passed(start, posted, now)
    ensures now.running ==> start.running
    ensures forall e :: e in start.owner ==> e in now.owner && now.owner[e] == start.owner[e]
  {
  }

  lemma PassedElsewhere(start: Ledger, posted: seq<Task>, now: Ledger, pc: EventLoop.LoopPc)
    requires Passed(start, posted, now)
    ensures Passed(start, posted, now.(pc := pc))
  {
    hide Grown, CarriedOut;
    CarriedOutElsewhere(start, now, start, now.(pc := pc), start.functions);
    SoundBoth(start, posted, now);
    GrownElsewhere(start, now, posted, start, now.(pc := pc));
  }

  /** What a round amounts to: the handlers of a batch and then a pass. */
  lemma RoundIs(start: Ledger, batch: seq<Ready>, ran: seq<Option<Events.Handler>>, closed: seq<bool>,
                early: seq<Task>, clock: int, middle: Ledger, late: seq<Task>, now: Ledger)
    requires Dispatched(start, batch, ran, closed, early, clock, middle) && Passed(middle, late, now)
    ensures Grown(start, middle, early)
    ensures now.executed == start.executed + (start.functions + early)
    ensures now.functions == late && now.pending == late
  {
    hide Grown;
  }

  /** The last activity of a connection, after a round that ran the handlers ran: the clock of the round if a
      reading or writing handler of its own was among them, and otherwise what it was before; a new connection
      starts with the time it was made. */
  predicate ActiveAt(start: Ledger, batch: seq<Ready>, ran: seq<Option<Events.Handler>>, clock: int, now: Ledger,
                     e: Events.Event)
  {
    && |ran| <= |batch| && e in now.owner && e in now.stories
    && now.stories[e].now.lastActivity
       == if now.owner[e].idleTime > 0 && Busy(Served(start.pool, batch, ran, e)) then clock
          else Earlier(start, now, e).now.lastActivity
  }

  lemma ActiveThroughRound(start: Ledger, pc: EventLoop.LoopPc, batch: seq<Ready>, ran: seq<Option<Events.Handler>>,
                           closed: seq<bool>, early: seq<Task>, clock: int, middle: Ledger, late: seq<Task>,
                           now: Ledger)
    requires Dispatched(start.(pc := pc), batch, ran, closed, early, clock, middle) && Passed(middle, late, now)
    ensures forall e :: e in now.owner ==> ActiveAt(start, batch, ran, clock, now, e)
  {
    hide Dispatched, Passed, ActiveAt;
    forall e | e in now.owner ensures ActiveAt(start, batch, ran, clock, now, e) {
      RoundMarks(start.(pc := pc), batch, ran, closed, early, clock, middle, late, now, e);
      ActiveElsewhere(start, pc, batch, ran, clock, now, e);
    }
  }

  lemma ActiveElsewhere(start: Ledger, pc: EventLoop.LoopPc, batch: seq<Ready>, ran: seq<Option<Events.Handler>>,
                        clock: int, now: Ledger, e: Events.Event)
    requires ActiveAt(start.(pc := pc), batch, ran, clock, now, e)
    ensures ActiveAt(start, batch, ran, clock, now, e)
  {
    hide Busy, Served, First;
  }

  lemma RoundMarks(start: Ledger, batch: seq<Ready>, ran: seq<Option<Events.Handler>>, closed: seq<bool>,
                   early: seq<Task>, clock: int, middle: Ledger, late: seq<Task>, now: Ledger, e: Events.Event)
    requires Dispatched(start, batch, ran, closed, early, clock, middle) && Passed(middle, late, now) && e in now.owner
    ensures ActiveAt(start, batch, ran, clock, now, e)
  {
    hide Progress, Blank, Whole, Served, Busy, DataFor, Opens, Closes, Writes, RanRight, StillThere, TakenOut, OwnedBy,
         ClosedRightly, First;
    StoriesGrown(start, middle, early);
    StoriesGrown(middle, now, late);
    assert Fared(middle, now, middle.functions, e);
    FirstOfNew(start, now, middle, e);
    if e in middle.owner {
      var served := Served(start.pool, batch, ran, e);
      ProgressMarks(now.owner[e], clock, Earlier(start, middle, e), middle.stories[e], served);
    } else {
      NobodyServed(start, batch, ran, e);
    }
  }

  lemma FirstOfNew(start: Ledger, now: Ledger, middle: Ledger, e: Events.Event)
    requires e in now.stories && (e in start.stories ==> e in middle.stories)
    requires First(now.stories[e]) == First(Earlier(middle, now, e))
    ensures e in middle.stories ==> Earlier(start, middle, e) == Earlier(start, now, e)
    ensures e !in middle.stories ==> Earlier(start, now, e) == Earlier(middle, now, e)
  {
  }

  lemma NobodyServed(start: Ledger, batch: seq<Ready>, ran: seq<Option<Events.Handler>>, e: Events.Event)
    requires Sound(start) && |ran| <= |batch| && e !in start.owner
    ensures Served(start.pool, batch, ran, e) == [] && !Busy(Served(start.pool, batch, ran, e))
  {
  }

  lemma AcceptedIs(a: Ledger, b: Ledger, posted: seq<Task>, e: Events.Event)
    requires Grown(a, b, posted) && e in b.owner
    ensures e in b.queued && b.queued[e] == At(a.queued, e) + DataFor(b.owner[e], posted)
  {
  }
}
