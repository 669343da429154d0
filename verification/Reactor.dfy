/** One event loop with its connections. The pool leads from a descriptor to an event, the event to the
    connection whose handlers it carries, and the queue of functions holds what is asked of them. */
module Reactor {
  import opened Prelude
  import opened Connection
  import opened Rounds
  import Codec
  import EventLoop
  import Events
  import Framing
  import IdleTimer
  import Interest
  import Session
  import TaskLoop

  /** Two connections share nothing, and no descriptor unless one of them is closed. */
  ghost predicate Apart(c: Connect, d: Connect)
    reads c, d
  {
    c.Own() !! d.Own() && (c.Live() && d.Live() ==> c.event.eventFd != d.event.eventFd)
  }

  /** A call that left alone what does not belong to descriptor fd, or left everything alone, leaves every
      connection valid that does not have that descriptor. */
  twostate lemma OtherStaysValid(d: Connect, new fd: int, new idle: bool)
    requires old(d.Valid()) && unchanged(d.Own())
    requires old(d.Live()) && !idle ==> d.event.eventFd != fd
    requires d.event.ctrl.OthersKept(fd)
    requires idle ==> unchanged(d.event.ctrl) && unchanged(d.event.ctrl.multi)
    ensures d.Valid()
  {
    hide Session.Run, Session.Legal, Interest.ApplyChanges, IdleTimer.Run, IdleTimer.Legal;
    var ctrl, g := d.event.ctrl, d.event.eventFd;
    if old(d.Live()) && !idle {
      assert g in ctrl.eventPool <==> g in ctrl.eventPool - {fd};
      assert g in old(ctrl.eventPool) <==> g in old(ctrl.eventPool) - {fd};
      assert ctrl.multi.Knows(g) <==> g in ctrl.multi.Elsewhere(fd).1;
      assert old(ctrl.multi.Knows(g)) <==> g in old(ctrl.multi.Elsewhere(fd)).1;
      forall f ensures ctrl.multi.Holds(g, f) <==> old(ctrl.multi.Holds(g, f)) {
        assert ctrl.multi.Holds(g, f) <==> (g, f) in ctrl.multi.Elsewhere(fd).0;
        assert old(ctrl.multi.Holds(g, f)) <==> (g, f) in old(ctrl.multi.Elsewhere(fd)).0;
      }
    }
  }

  class Reactor {
    const ctrl: Events.EventCtrl
    const loop: TaskLoop.Loop<Task>
    const app: Session.App                // the codec and the callback of the server
    const idleTime: int                   // and its idle limit
    ghost const slack: nat                // how late its timers may go off
    var owner: map<Events.Event, Connect> // whose handlers an event carries
    ghost var repr: set<object>           // the objects of all the connections

    ghost predicate Represented()
      reads this
    {
      && this !in repr && loop !in repr && ctrl !in repr && ctrl.multi !in repr
      && forall e :: e in owner ==> owner[e].Own() <= repr
    }

    ghost predicate Mine(e: Events.Event, c: Connect)
      reads c, c.inBuffer, c.outBuffer, c.socket, c.event, ctrl, ctrl.multi
    {
      c.event == e && e.ctrl == ctrl && c.loop == loop && e.eventFd != -1 && c.Valid()
    }

    ghost predicate Connections()
      requires Represented()
      reads this, repr, ctrl, ctrl.multi
    {
      && (forall e :: e in owner ==> Mine(e, owner[e]))
      && (forall e, g :: e in owner && g in owner && e != g ==> Apart(owner[e], owner[g]))
    }

    /** The pool leads to open connections only, and nothing outside the pool is watched. */
    ghost predicate PoolIsOpen()
      requires Represented()
      reads this, repr, ctrl, ctrl.multi
    {
      && (forall fd :: fd in ctrl.eventPool ==>
            ctrl.eventPool[fd].eventFd == fd && ctrl.eventPool[fd] in owner
            && owner[ctrl.eventPool[fd]].state != Session.Disconnected)
      && (forall fd, f :: ctrl.multi.Holds(fd, f) ==> fd in ctrl.eventPool)
    }

    /** Every task is for a connection of this loop, and opens it exactly if it is new; it is opened once. */
    ghost predicate Tasks(pending: seq<Task>)
      requires Represented()
      reads this, repr
    {
      && (forall i :: 0 <= i < |pending| ==>
            pending[i].conn.event in owner && owner[pending[i].conn.event] == pending[i].conn)
      && (forall i :: 0 <= i < |pending| ==> (pending[i].ConnectTask? <==> !owner[pending[i].conn.event].handled))
      && (forall i, j :: 0 <= i < j < |pending| && pending[i].ConnectTask? && pending[j].ConnectTask? ==>
            pending[i].conn != pending[j].conn)
    }

    /** Nothing asked of a connection is lost: what WriteInSelfLoop accepted has been handed over or is
        queued, in order; a close that the idle timer asked for is queued. */
    ghost predicate Accounts(c: Connect, pending: seq<Task>)
      reads c
    {
      && (c.Live() ==> c.queued == Session.SubmitData(c.steps) + DataFor(c, pending))
      && (c.Live() && c.idleTime > 0 && c.Timer().requested.Some? ==> CloseTask(c) in pending)
    }

    ghost predicate Books(pending: seq<Task>)
      requires Represented()
      reads this, repr
    {
      Tasks(pending) && forall e :: e in owner ==> Accounts(owner[e], pending)
    }

    /** What has been run has been carried out: its connection was opened, and closed if that was asked. */
    ghost predicate Carried(executed: seq<Task>)
      requires Represented()
      reads this, repr
    {
      forall i :: 0 <= i < |executed| ==>
        var c := executed[i].conn;
        && c.event in owner && owner[c.event] == c && owner[c.event].handled
        && (executed[i].CloseTask? ==> owner[c.event].state == Session.Disconnected)
    }

    ghost predicate Valid()
      reads this, repr, ctrl, ctrl.multi, loop
    {
      && Represented() && Connections() && PoolIsOpen() && Codec.Usable(app.codec)
      && loop.Valid() && Books(loop.Pending()) && Carried(loop.Executed())
    }

    ghost predicate OnTime(now: int)
      requires Represented()
      reads this, repr
    {
      forall e :: e in owner ==> owner[e].OnTime(now)
    }

    constructor (ctrl: Events.EventCtrl, loop: TaskLoop.Loop<Task>, app: Session.App, idleTime: int, ghost slack: nat)
      requires ctrl.eventPool == map[] && forall fd, f :: !ctrl.multi.Holds(fd, f)
      requires loop.Valid() && loop.steps == [] && Codec.Usable(app.codec)
      ensures Valid() && owner == map[] && this.ctrl == ctrl && this.loop == loop
      ensures this.app == app && this.idleTime == idleTime
    {
      this.ctrl, this.loop, this.app, this.idleTime, this.slack := ctrl, loop, app, idleTime, slack;
      owner, repr := map[], {};
    }

    ghost function LedgerNow(): Ledger
      requires Represented() && loop.Valid()
      reads this, repr, loop, ctrl
    {
      Ledger(loop.pc, loop.snapshot, loop.running, loop.Executed(), loop.functions, loop.Pending(),
             owner, map e | e in owner :: owner[e].queued, ctrl.eventPool,
             set e | e in owner && owner[e].handled, set e | e in owner && !owner[e].Live(),
             map e | e in owner :: owner[e].Told())
    }

    lemma LedgerSound()
      requires Represented() && Connections() && PoolIsOpen() && loop.Valid()
      ensures Sound(LedgerNow())
    {
      hide Connect.Valid, Connect.Told, TaskLoop.Loop.Valid, TaskLoop.Loop.Pending, TaskLoop.Loop.Executed, Whole,
           Blank,
           First;
      forall e | e in owner
        ensures owner[e].event == e && Whole(owner[e].Told()) && Blank(First(owner[e].Told()))
      {
        assert Mine(e, owner[e]);
        TellsWell(owner[e]);
      }
    }

    /** What a valid connection tells of itself. */
    lemma TellsWell(c: Connect)
      requires c.Valid()
      ensures Codec.Usable(c.app.codec) && Session.Legal(c.app, c.steps) && Agrees(c.app, c.Told())
      ensures Whole(c.Told()) && Blank(First(c.Told()))
    {
      hide Session.Run, Session.Legal, IdleTimer.Run, IdleTimer.Legal, Interest.ApplyChanges;
    }

    /** One more task is queued for a connection of this loop, and hands no data over. */
    lemma BooksGrow(pending: seq<Task>, task: Task)
      requires Represented() && Books(pending) && !task.WriteTask?
      requires task.conn.event in owner && owner[task.conn.event] == task.conn
      requires task.ConnectTask? <==> !task.conn.handled
      requires task.ConnectTask? ==> forall i :: 0 <= i < |pending| ==> pending[i].conn != task.conn
      ensures Books(pending + [task])
    {
      forall e | e in owner ensures Accounts(owner[e], pending + [task]) {
        DataForSnoc(owner[e], pending, task);
      }
    }

    /** A new connection is owed nothing, and nothing is queued for it. */
    twostate lemma BooksStay(new c: Connect, pending: seq<Task>)
      requires old(Represented()) && old(Books(pending)) && Represented()
      requires c.event !in old(owner) && owner == old(owner)[c.event := c]
      requires unchanged(old(repr))
      requires c.queued == [] && c.steps == [] && c.Timer().requested == None
      ensures Books(pending)
      ensures forall i :: 0 <= i < |pending| ==> pending[i].conn != c
    {
      hide Connect.Timer;
      NothingFor(c, pending);
      forall e | e in old(owner) ensures Accounts(owner[e], pending) {
        assert owner[e] == old(owner)[e] && owner[e] in owner[e].Own();
        assert old(Accounts(owner[e], pending));
      }
    }

    /** The handlers of its event lead to c from now on. */
    method Enrol(c: Connect)
      requires Represented() && Connections() && PoolIsOpen()
      requires c.event !in owner && Mine(c.event, c) && c.Own() !! repr
      requires {this, loop, ctrl, ctrl.multi} !! c.Own()
      requires forall e :: e in owner && owner[e].Live() ==> e.eventFd != c.event.eventFd
      modifies this`owner, this`repr
      ensures owner == old(owner)[c.event := c] && repr == old(repr) + c.Own()
      ensures Represented() && Connections() && PoolIsOpen()
    {
      hide Connect.Valid, Connect.Own, Interest.ApplyChanges;
      owner, repr := owner[c.event := c], repr + c.Own();
    }

    // ---------- What has been carried out stays so ----------

    /** No connection is lost, and what was opened or closed stays so. */
    twostate predicate Onward()
      requires old(Represented()) && Represented()
      reads this, repr
    {
      forall e :: e in old(owner) ==>
        && e in owner && owner[e] == old(owner)[e]
        && (old(owner[e].handled) ==> owner[e].handled)
        && (old(owner[e].handled && owner[e].state == Session.Disconnected) ==>
              owner[e].state == Session.Disconnected)
    }

    twostate lemma CarriedStays()
      requires old(Represented()) && Represented() && Onward() && old(loop.Valid())
      requires old(Carried(loop.Executed()))
      ensures Carried(old(loop.Executed()))
    {
      hide TaskLoop.Loop.Valid, TaskLoop.Loop.Executed;
      var executed := old(loop.Executed());
      forall i | 0 <= i < |executed|
        ensures var c := executed[i].conn;
                && c.event in owner && owner[c.event] == c && owner[c.event].handled
                && (executed[i].CloseTask? ==> owner[c.event].state == Session.Disconnected)
      {
        assert executed[i].conn.event in old(owner);
      }
    }

    // ---------- Making a connection ----------

    /** A new connection for a descriptor that nothing is registered for. */
    method Make(fd: int, now: int) returns (c: Connect)
      requires fd !in ctrl.eventPool && (forall f :: !ctrl.multi.Holds(fd, f))
      requires fd != -1 && Codec.Usable(app.codec)
      ensures fresh(c.Own()) && Mine(c.event, c) && {this, loop, ctrl, ctrl.multi} !! c.Own()
      ensures c.event.eventFd == fd && c.app == app && c.idleTime == idleTime && c.OnTime(now)
      ensures !c.handled && c.queued == [] && c.Timer().requested == None
      ensures c.Told() == Story([], [], Traffic([], [], [], 0, 0, now))
    {
      hide Connect.Valid, Interest.ApplyChanges;
      var e := new Events.Event(ctrl, fd);
      c := new Connect(app, loop, e, idleTime, now, slack);
    }

    /** The kernel does not hand out the descriptor of an open connection. */
    predicate Handed(fd: int)
      reads this, owner.Values, set e | e in owner :: owner[e].socket
    {
      fd != -1 && forall e :: e in owner && owner[e].socket.open ==> e.eventFd != fd
    }

    lemma HandedIsFree(fd: int)
      requires Represented() && Connections() && PoolIsOpen() && Handed(fd)
      ensures forall e :: e in owner && owner[e].Live() ==> e.eventFd != fd
      ensures fd !in ctrl.eventPool && forall f :: !ctrl.multi.Holds(fd, f)
    {
      hide Session.Run, Session.Legal, Interest.ApplyChanges, IdleTimer.Run, IdleTimer.Legal;
      forall e | e in owner && owner[e].Live() ensures owner[e].socket.open {
        assert Mine(e, owner[e]);
      }
    }

    /** A new connection for a descriptor that no open connection has. */
    method Adopt(fd: int, now: int, ghost pending: seq<Task>) returns (c: Connect)
      requires Represented() && Connections() && PoolIsOpen() && Books(pending)
      requires OnTime(now) && Codec.Usable(app.codec) && Handed(fd)
      modifies this`owner, this`repr
      ensures Represented() && Connections() && PoolIsOpen() && Books(pending) && OnTime(now)
      ensures fresh(repr - old(repr)) && fresh(c) && c.event !in old(owner) && owner == old(owner)[c.event := c]
      ensures c.event.eventFd == fd && c.app == app && c.idleTime == idleTime
      ensures !c.handled && c.queued == [] && c.Told() == Story([], [], Traffic([], [], [], 0, 0, now))
      ensures forall i :: 0 <= i < |pending| ==> pending[i].conn != c
    {
      hide Connect.Valid, Connect.OnTime, Books;
      HandedIsFree(fd);
      c := Make(fd, now);
      assert c.event in c.Own();
      hide PoolIsOpen, Connect.Own, Connect.Live;
      Enrol(c);
      BooksStay(c, pending);
    }

    /** The ledger after posted has been queued: no connection there was has been touched but by a
        ShutdownWrite, and new ones have done nothing yet. */
    twostate lemma PostedIs(new posted: seq<Task>)
      requires old(Represented()) && Represented() && old(loop.Valid()) && loop.Valid()
      requires Connections() && PoolIsOpen() && Sound(old(LedgerNow())) && OwnedBy(owner, posted)
      requires loop.pc == old(loop.pc) && loop.snapshot == old(loop.snapshot)
      requires loop.Executed() == old(loop.Executed()) && (loop.running ==> old(loop.running))
      requires loop.functions == old(loop.functions) + posted && loop.Pending() == old(loop.Pending()) + posted
      requires ctrl.eventPool == old(ctrl.eventPool)
      requires forall e :: e in old(owner) ==>
                 && e in owner && owner[e] == old(owner)[e]
                 && owner[e].handled == old(owner[e].handled) && owner[e].Live() == old(owner[e].Live())
                 && owner[e].queued == old(owner[e].queued) + DataFor(owner[e], posted)
                 && Progress(owner[e], 0, old(owner[e].Told()), owner[e].Told(), [])
      requires forall e :: e in owner && e !in old(owner) ==>
                 && !owner[e].handled && owner[e].queued == DataFor(owner[e], posted)
                 && Progress(owner[e], 0, Story([], [], First(owner[e].Told())), owner[e].Told(), [])
      ensures Posted(old(LedgerNow()), LedgerNow(), posted)
    {
      hide Progress, DataFor, OwnedBy, Connections, PoolIsOpen, Connect.Told, First;
      hide TaskLoop.Loop.Valid, TaskLoop.Loop.Pending, TaskLoop.Loop.Executed;
      LedgerSound();
      var a, b := old(LedgerNow()), LedgerNow();
      assert b.admitted == a.admitted;
      assert b.gone == a.gone;
    }

    twostate lemma NewIsOnward(new c: Connect)
      requires old(Represented()) && Represented() && unchanged(old(repr))
      requires c.event !in old(owner) && owner == old(owner)[c.event := c]
      ensures Onward()
    {
      forall e | e in old(owner) ensures owner[e] == old(owner)[e] && owner[e] in old(repr) {
        assert old(owner)[e] in old(owner)[e].Own();
      }
    }

    twostate lemma NewIsPosted(new c: Connect)
      requires old(Represented()) && Represented() && old(loop.Valid()) && loop.Valid() && unchanged(old(repr))
      requires Connections() && PoolIsOpen() && Sound(old(LedgerNow())) && ctrl.eventPool == old(ctrl.eventPool)
      requires c.event !in old(owner) && owner == old(owner)[c.event := c]
      requires !c.handled && c.queued == [] && c.steps == [] && c.past == []
      requires loop.SamePass() && loop.functions == old(loop.functions) + [ConnectTask(c)]
      requires loop.Pending() == old(loop.Pending()) + [ConnectTask(c)]
      ensures Posted(old(LedgerNow()), LedgerNow(), [ConnectTask(c)])
    {
      hide Progress, Posted, LedgerNow, Connections, PoolIsOpen, TaskLoop.Loop.Valid, TaskLoop.Loop.Pending,
           TaskLoop.Loop.Executed;
      OneTask(ConnectTask(c));
      AllIdle(0);
      forall e | e in old(owner)
        ensures owner[e] == old(owner)[e] && owner[e] in old(repr) && owner[e].Told() == old(owner[e].Told())
      {
        OwnParts(owner[e]);
      }
      assert c.Told() == Story([], [], First(c.Told()));
      hide Connect.Told, First;
      PostedIs([ConnectTask(c)]);
    }

    /** newConnected: a connection is made for a descriptor the kernel has just handed out, and the loop
        is asked to open it. */
    method NewConnected(fd: int, now: int) returns (c: Connect, ghost posted: seq<Task>)
      requires Valid() && loop.mutex.Free? && OnTime(now) && Handed(fd)
      modifies this`owner, this`repr, loop
      ensures Valid() && loop.mutex.Free? && OnTime(now)
      ensures fresh(repr - old(repr)) && c.event !in old(owner) && owner == old(owner)[c.event := c]
      ensures c.event.eventFd == fd && c.app == app && c.idleTime == idleTime && !c.handled
      ensures c.Told() == Story([], [], Traffic([], [], [], 0, 0, now))
      ensures posted == [ConnectTask(c)] && Posted(old(LedgerNow()), LedgerNow(), posted)
    {
      hide Connections, PoolIsOpen, Books, Carried, Posted, LedgerNow, Connect.OnTime;
      hide TaskLoop.Loop.Valid, TaskLoop.Loop.Pending;
      LedgerSound();
      ghost var pending := loop.Pending();
      c := Adopt(fd, now, pending);
      BooksGrow(pending, ConnectTask(c));
      loop.RunInLoop(ConnectTask(c));
      posted := [ConnectTask(c)];
      NewIsOnward(c);
      CarriedStays();
      NewIsPosted(c);
    }

    lemma OwnParts(c: Connect)
      ensures c in c.Own() && c.outBuffer in c.Own() && c.socket in c.Own()
    {
    }

    lemma AllIdle(clock: int)
      requires Represented() && Connections()
      ensures forall e :: e in owner ==> Progress(owner[e], clock, owner[e].Told(), owner[e].Told(), [])
    {
      hide Connect.Valid, Connect.Told, Progress, Agrees, Whole, Blank, First;
      forall e | e in owner ensures Progress(owner[e], clock, owner[e].Told(), owner[e].Told(), []) {
        assert Mine(e, owner[e]);
        TellsWell(owner[e]);
        assert owner[e].Told().steps == owner[e].steps by { ToldSteps(owner[e]); }
        NoProgress(owner[e], clock, owner[e].Told());
      }
    }

    lemma ToldSteps(c: Connect)
      ensures c.Told().steps == c.steps && c.Told().past == c.past && c.Told().now == c.SoFar()
    {
    }

    // ---------- A call on one connection keeps all the others ----------

    /** A call on c alone, after which c is handled and valid, and nothing that is not c's was touched. */
    twostate predicate CalledOn(c: Connect)
      reads this, repr, c, c.inBuffer, c.outBuffer, c.socket, c.event, c.event.ctrl, c.event.ctrl.multi
    {
      && old(Represented()) && owner == old(owner) && repr == old(repr)
      && c.event in owner && owner[c.event] == c && c.event.ctrl == ctrl
      && (forall e :: e in owner && e != c.event ==> unchanged(owner[e].Own()))
      && c.handled && c.Valid() && (c.Live() ==> old(c.Live()))
      && ctrl.OthersKept(c.event.eventFd)
      && (old(c.Live()) && !c.Live() ==> c.event.Gone())
      && (!old(c.Live()) ==> unchanged(ctrl) && unchanged(ctrl.multi))
    }

    /** What the contract of a call on c has to say for that. */
    twostate lemma CalledOnIs(c: Connect)
      requires old(Represented()) && owner == old(owner) && repr == old(repr) && unchanged(repr - c.Own())
      requires c.event in owner && owner[c.event] == c && c.event.ctrl == ctrl
      requires forall e :: e in owner && e != c.event ==> old(Apart(c, owner[e]))
      requires c.handled && c.Valid() && (c.Live() ==> old(c.Live()))
      requires ctrl.OthersKept(c.event.eventFd)
      requires old(c.Live()) && !c.Live() ==> c.event.Gone()
      requires !old(c.Live()) ==> unchanged(ctrl) && unchanged(ctrl.multi)
      ensures CalledOn(c)
    {
      hide Connect.Valid, Connect.Own, Events.EventCtrl.OthersKept, Events.Event.Gone;
    }

    twostate lemma CallKeepsConnections(c: Connect)
      requires CalledOn(c) && old(Connections()) && Represented()
      ensures Connections()
    {
      hide Connect.Valid;
      forall e | e in owner ensures Mine(e, owner[e]) {
        assert old(Mine(e, owner[e]));
        if e != c.event {
          assert old(Apart(c, owner[e]));
          OtherStaysValid(owner[e], c.event.eventFd, !old(c.Live()));
        }
      }
      forall e, g | e in owner && g in owner && e != g ensures Apart(owner[e], owner[g]) {
        assert old(Apart(owner[e], owner[g]));
      }
    }

    /** What the call leaves of the entry of c's own descriptor. */
    twostate lemma OwnPlace(c: Connect)
      requires CalledOn(c) && old(Connections()) && old(PoolIsOpen()) && Represented()
      ensures var fd := c.event.eventFd;
              && (fd in ctrl.eventPool ==>
                    ctrl.eventPool[fd] in owner && owner[ctrl.eventPool[fd]].state != Session.Disconnected
                    && ctrl.eventPool[fd].eventFd == fd)
              && forall f :: ctrl.multi.Holds(fd, f) ==> fd in ctrl.eventPool
    {
      hide Session.Run, Session.Legal, Interest.ApplyChanges, Connect.Timed;
      var fd := c.event.eventFd;
      if c.state == Session.Disconnected && !old(c.Live()) && fd in ctrl.eventPool {
        var e := ctrl.eventPool[fd];
        assert old(owner[e].state) != Session.Disconnected;
        assert owner[e] in owner[e].Own();
      }
    }

    twostate lemma CallKeepsPool(c: Connect)
      requires CalledOn(c) && old(Connections()) && old(PoolIsOpen()) && Represented()
      ensures PoolIsOpen()
    {
      hide Connect.Valid, Interest.ApplyChanges;
      OwnPlace(c);
      var fd := c.event.eventFd;
      forall g | g in ctrl.eventPool && g != fd
        ensures ctrl.eventPool[g].eventFd == g && ctrl.eventPool[g] in owner
                && owner[ctrl.eventPool[g]].state != Session.Disconnected
      {
        assert g in ctrl.eventPool - {fd} && g in old(ctrl.eventPool) - {fd};
        assert ctrl.eventPool[g] == (ctrl.eventPool - {fd})[g] == (old(ctrl.eventPool) - {fd})[g];
        var e := old(ctrl.eventPool)[g];
        assert e == ctrl.eventPool[g] && e.eventFd == g && e in owner;
        assert owner[e] in owner[e].Own();
      }
      forall g, f | ctrl.multi.Holds(g, f) && g != fd ensures g in ctrl.eventPool {
        assert (g, f) in ctrl.multi.Elsewhere(fd).0;
        assert g in old(ctrl.eventPool) - {fd};
      }
    }

    // ---------- What callbacks, timers and other goroutines ask meanwhile ----------

    lemma Known(c: Connect)
      requires Represented() && Connections() && c.event in owner && owner[c.event] == c
      ensures Mine(c.event, c) && (c.state != Session.Disconnected ==> c.handled)
    {
      assert Mine(c.event, owner[c.event]);
    }

    /** Data has been accepted for c: it is owed to c alone. */
    lemma BooksGrowData(c: Connect, pending: seq<Task>, data: Bytes)
      requires Represented() && Tasks(pending) && c.event in owner && owner[c.event] == c && c.handled
      requires forall e :: e in owner && e != c.event ==> owner[e] != c && Accounts(owner[e], pending)
      requires c.queued == Session.SubmitData(c.steps) + DataFor(c, pending) + [data]
      requires c.Live() && c.idleTime > 0 && c.Timer().requested.Some? ==> CloseTask(c) in pending
      ensures Books(pending + [WriteTask(c, data)])
    {
      hide Connect.Timer, Session.SubmitData, DataFor;
      forall e | e in owner ensures Accounts(owner[e], pending + [WriteTask(c, data)]) {
        DataForSnoc(owner[e], pending, WriteTask(c, data));
      }
    }

    /** The close that its timer asked for is queued for c. */
    lemma BooksGrowClose(c: Connect, pending: seq<Task>)
      requires Represented() && Tasks(pending) && c.event in owner && owner[c.event] == c && c.handled
      requires forall e :: e in owner && e != c.event ==> owner[e] != c && Accounts(owner[e], pending)
      requires c.Live() ==> c.queued == Session.SubmitData(c.steps) + DataFor(c, pending)
      ensures Books(pending + [CloseTask(c)])
    {
      hide Connect.Timer, Session.SubmitData, DataFor;
      var grown := pending + [CloseTask(c)];
      assert grown[|pending|] == CloseTask(c);
      forall e | e in owner ensures Accounts(owner[e], grown) {
        DataForSnoc(owner[e], pending, CloseTask(c));
      }
    }

    /** A call on c that leaves alone its state, the registry and everything else. */
    twostate predicate Quiet(c: Connect)
      requires old(Represented())
      reads this, repr, c, c.outBuffer, c.socket, ctrl, ctrl.multi
    {
      && owner == old(owner) && repr == old(repr) && c.event in owner && owner[c.event] == c
      && unchanged(ctrl) && unchanged(ctrl.multi) && unchanged(repr - {c})
      && c.state == old(c.state) && c.handled == old(c.handled) && c.Told() == old(c.Told())
    }

    twostate lemma QuietKeeps(c: Connect)
      requires old(Represented()) && old(Connections()) && old(PoolIsOpen()) && Quiet(c) && c.Valid()
      ensures Represented() && Connections() && PoolIsOpen()
    {
      hide Connect.Valid;
      forall e | e in owner ensures Mine(e, owner[e]) && (e != c.event ==> owner[e] != c) {
        assert old(Mine(e, owner[e])) && (e != c.event ==> old(Apart(c, owner[e])));
      }
      forall e, g | e in owner && g in owner && e != g ensures Apart(owner[e], owner[g]) {
        assert old(Apart(owner[e], owner[g]));
      }
    }

    twostate lemma QuietKeepsOthers(c: Connect)
      requires old(Represented()) && old(Connections()) && old(loop.Valid()) && old(Books(loop.Pending())) && Quiet(c)
      requires Represented()
      ensures Tasks(old(loop.Pending()))
      ensures forall e :: e in owner && e != c.event ==>
                owner[e] != c && owner[e].queued == old(owner[e].queued) && Accounts(owner[e], old(loop.Pending()))
    {
      hide Connect.Valid, Connect.Timer;
      forall e | e in owner && e != c.event
        ensures owner[e] != c && owner[e].queued == old(owner[e].queued) && Accounts(owner[e], old(loop.Pending()))
      {
        assert old(Apart(c, owner[e])) && owner[e] in owner[e].Own();
        assert old(Accounts(owner[e], loop.Pending()));
      }
    }

    twostate lemma QuietIsOnward(c: Connect)
      requires old(Represented()) && old(Connections()) && Represented() && Quiet(c)
      ensures Onward()
      ensures forall e :: e in owner ==>
        owner[e].handled == old(owner[e].handled) && owner[e].Live() == old(owner[e].Live())
      ensures forall e :: e in owner ==> owner[e].Told() == old(owner[e].Told())
    {
      hide Connect.Valid;
      forall e | e in owner
        ensures owner[e].handled == old(owner[e].handled) && owner[e].state == old(owner[e].state)
        ensures owner[e].Told() == old(owner[e].Told())
      {
        OwnParts(owner[e]);
        assert old(Mine(e, owner[e])) && (e != c.event ==> old(Apart(c, owner[e])));
      }
    }

    /** The ledger after a quiet call on c that has queued posted. */
    twostate lemma QuietIsPosted(c: Connect, new posted: seq<Task>)
      requires old(Represented()) && Represented() && old(loop.Valid()) && loop.Valid() && old(Connections())
      requires Connections() && PoolIsOpen() && Sound(old(LedgerNow())) && OwnedBy(owner, posted) && Quiet(c)
      requires loop.SamePass() && loop.functions == old(loop.functions) + posted
      requires loop.Pending() == old(loop.Pending()) + posted
      requires forall e :: e in owner && e != c.event ==> DataFor(owner[e], posted) == []
      requires c.queued == old(c.queued) + DataFor(c, posted)
      ensures Posted(old(LedgerNow()), LedgerNow(), posted)
    {
      hide Progress, Posted, LedgerNow, Connect.Valid, Connect.Told, TaskLoop.Loop.Valid, TaskLoop.Loop.Pending,
           TaskLoop.Loop.Executed;
      QuietIsOnward(c);
      AllIdle(0);
      forall e | e in owner ensures owner[e].queued == old(owner[e].queued) + DataFor(owner[e], posted) {
        assert owner[e] in owner[e].Own();
        if e != c.event {
          assert old(Mine(e, owner[e])) && owner[e] != c;
        }
      }
      hide Quiet, Connections, PoolIsOpen;
      PostedIs(posted);
    }

    method AskToClose(c: Connect) returns (ghost posted: seq<Task>)
      requires Valid() && loop.mutex.Free? && c.event in owner && owner[c.event] == c
      modifies loop
      ensures Valid() && loop.mutex.Free? && Posted(old(LedgerNow()), LedgerNow(), posted)
      ensures posted == if c.state != Session.Disconnected then [CloseTask(c)] else []
      ensures loop.functions == old(loop.functions) + posted && loop.running == old(loop.running)
    {
      hide Posted, LedgerNow, Connections, PoolIsOpen, Books, Carried, Connect.Valid, Session.SubmitData,
           TaskLoop.Loop.Valid, TaskLoop.Loop.Pending, TaskLoop.Loop.Executed;
      LedgerSound();
      Known(c);
      var ok := c.Close();
      posted := if ok then [CloseTask(c)] else [];
      if ok {
        BooksGrow(old(loop.Pending()), CloseTask(c));
        OneTask(CloseTask(c));
      } else {
        assert old(loop.Pending()) + [] == old(loop.Pending());
      }
      QuietIsPosted(c, posted);
    }

    method AskToWrite(c: Connect, data: Bytes) returns (ghost posted: seq<Task>)
      requires Valid() && loop.mutex.Free? && c.event in owner && owner[c.event] == c
      modifies loop, c`queued
      ensures Valid() && loop.mutex.Free? && Posted(old(LedgerNow()), LedgerNow(), posted)
    {
      hide Posted, LedgerNow, Connections, PoolIsOpen, Carried, Connect.Valid, Connect.Timer, Session.SubmitData,
           TaskLoop.Loop.Valid, TaskLoop.Loop.Pending, TaskLoop.Loop.Executed;
      LedgerSound();
      Known(c);
      var ok := c.WriteInSelfLoop(data);
      posted := if ok then [WriteTask(c, data)] else [];
      QuietKeeps(c);
      QuietKeepsOthers(c);
      QuietIsOnward(c);
      CarriedStays();
      hide Onward;
      if ok {
        BooksGrowData(c, old(loop.Pending()), data);
        OneTask(WriteTask(c, data));
      } else {
        assert old(loop.Pending()) + [] == old(loop.Pending());
      }
      QuietIsPosted(c, posted);
    }

    /** What a timer that goes off leads to, told by the last activity of the connection: to a close, if it is open,
        more than its idle time less a second after that; or to a timer due within its idle time after that. */
    ghost predicate FiredFor(c: Connect, last: int, now: int, posted: seq<Task>)
      reads c
    {
      if posted != [] then
        && posted == [CloseTask(c)] && c.state != Session.Disconnected
        && c.idleTime - IdleTimer.SECOND < now - last <= c.idleTime + c.slack
      else
        c.state != Session.Disconnected ==>
          && c.deadline.Some? && now < c.deadline.value
          && last + c.idleTime - IdleTimer.SECOND < c.deadline.value <= last + c.idleTime
    }

    lemma DeadlineIs(c: Connect)
      requires c.Valid()
      ensures if c.idleTime > 0 then c.deadline == c.Timer().armed else c.deadline == None
    {
      hide Connect.Timer, Connect.Tracks, Connect.Wired;
    }

    /** The timer goes off, and the loop is asked to close the connection or the timer is armed again. */
    method Fire(c: Connect, now: int) returns (ghost posted: seq<Task>)
      requires c.Valid() && c.OnTime(now) && c.deadline.Some? && c.deadline.value <= now
      requires c.loop == loop && loop.Valid() && loop.mutex.Free?
      modifies loop, c`deadline, c`ticks
      ensures c.Valid() && c.OnTime(now) && loop.Valid() && loop.mutex.Free? && loop.SamePass()
      ensures loop.functions == old(loop.functions) + posted && loop.Pending() == old(loop.Pending()) + posted
      ensures posted == [] || (posted == [CloseTask(c)] && c.state != Session.Disconnected)
      ensures c.Told() == old(c.Told()) && (c.Timer().requested.Some? ==> posted != [])
      ensures FiredFor(c, old(c.SoFar()).lastActivity, now, posted)
    {
      hide Connect.Valid, Connect.Timer, TaskLoop.Loop.Valid, TaskLoop.Loop.Pending, TaskLoop.Loop.Executed;
      DeadlineIs(c);
      var fired := c.CloseTimeoutConn(now);
      posted := if fired.RequestClose? && c.state != Session.Disconnected then [CloseTask(c)] else [];
      DeadlineIs(c);
    }

    /** The idle timer of a connection goes off. */
    method TimerFires(c: Connect, now: int) returns (ghost posted: seq<Task>)
      requires Valid() && OnTime(now) && loop.mutex.Free? && c.event in owner && owner[c.event] == c
      requires c.deadline.Some? && c.deadline.value <= now
      modifies loop, c`deadline, c`ticks
      ensures Valid() && OnTime(now) && loop.mutex.Free? && Posted(old(LedgerNow()), LedgerNow(), posted)
      ensures FiredFor(c, old(c.SoFar()).lastActivity, now, posted)
    {
      hide Posted, LedgerNow, Connections, PoolIsOpen, Carried, Connect.Valid, Connect.Timer, Connect.Told,
           Connect.OnTime,
           FiredFor, Session.SubmitData, TaskLoop.Loop.Valid, TaskLoop.Loop.Pending, TaskLoop.Loop.Executed;
      LedgerSound();
      Known(c);
      ToldSteps(c);
      assert Accounts(c, loop.Pending());
      posted := Fire(c, now);
      ToldSteps(c);
      QuietKeeps(c);
      QuietKeepsOthers(c);
      QuietIsOnward(c);
      CarriedStays();
      hide Onward;
      if posted != [] {
        BooksGrowClose(c, old(loop.Pending()));
        OneTask(CloseTask(c));
      } else {
        assert old(loop.Pending()) + [] == old(loop.Pending());
      }
      QuietIsPosted(c, posted);
    }

    /** Stop is called, and goes on to wait for the loop. */
    method AskToStop()
      requires Valid() && loop.mutex.Free?
      modifies loop
      ensures Valid() && loop.mutex.Free? && !loop.running && Posted(old(LedgerNow()), LedgerNow(), [])
      ensures loop.functions == old(loop.functions)
      ensures old(loop.running) ==>
                loop.steps == old(loop.steps) + [EventLoop.StopCheck] + [EventLoop.StopSet]
    {
      hide Progress, Posted, LedgerNow, Connections, PoolIsOpen, Books, Carried, Connect.Valid,
           TaskLoop.Loop.Valid, TaskLoop.Loop.Pending, TaskLoop.Loop.Executed;
      LedgerSound();
      var _ := loop.BeginStop();
      AllIdle(0);
      assert loop.functions + [] == loop.functions && loop.Pending() + [] == loop.Pending();
      PostedIs([]);
    }

    twostate lemma CalledIsOnward(c: Connect)
      requires CalledOn(c) && Represented() && old(Connections())
      ensures Onward()
      ensures forall e :: e in owner && e != c.event ==>
                && owner[e].handled == old(owner[e].handled) && owner[e].Live() == old(owner[e].Live())
                && owner[e].Told() == old(owner[e].Told()) && owner[e].queued == old(owner[e].queued)
                && owner[e].ticks == old(owner[e].ticks)
    {
      hide Connect.Valid, Events.EventCtrl.OthersKept;
      forall e | e in owner && e != c.event
        ensures owner[e].handled == old(owner[e].handled) && owner[e].state == old(owner[e].state)
                && owner[e].Told() == old(owner[e].Told()) && owner[e].queued == old(owner[e].queued)
                && owner[e].ticks == old(owner[e].ticks)
      {
        OwnParts(owner[e]);
      }
    }

    /** Handlers, and ShutdownWrite, change nothing that is owed: they submit nothing and leave the idle timer
        alone. */
    twostate lemma BooksAfterHandler(c: Connect, new clock: int, new hs: seq<Events.Handler>)
      requires CalledOn(c) && Represented() && old(loop.Valid()) && unchanged(loop)
      requires old(Books(loop.Pending()))
      requires c.queued == old(c.queued) && c.SameTimer() && c.handled == old(c.handled)
      requires Progress(c, clock, old(c.Told()), c.Told(), hs)
      ensures loop.Valid() && Books(loop.Pending())
    {
      hide Session.Run, Session.Legal, Connect.Valid, IdleTimer.Run, TaskLoop.Loop.Valid, TaskLoop.Loop.Pending,
           Progress;
      ProgressSubmitsNothing(c, clock, old(c.Told()), c.Told(), hs);
      forall e | e in owner ensures Accounts(owner[e], loop.Pending()) {
        assert owner[e] in owner[e].Own();
        assert old(Accounts(owner[e], loop.Pending()));
      }
    }

    method ShutDown(c: Connect)
      requires Represented() && Mine(c.event, c) && c.event in owner && owner[c.event] == c
      requires forall e :: e in owner && e != c.event ==> Apart(c, owner[e])
      requires c.handled
      modifies c`state, c`steps, c`past, c.socket`sendOpen
      ensures CalledOn(c) && c.SameTimer() && Progress(c, 0, old(c.Told()), c.Told(), [])
      ensures c.Live() == old(c.Live())
    {
      hide CalledOn, Session.Run, Session.Legal, Session.MadeOpen, Interest.ApplyChanges, IdleTimer.Run,
           IdleTimer.Legal;
      ghost var before := c.Told();
      TellsWell(c);
      c.ShutdownWrite();
      CalledOnIs(c);
      TellsWell(c);
      OneStepMore(c, 0, before, Session.Shutdown, c.SoFar(), []);
    }

    /** The ledger after a ShutdownWrite of c. */
    twostate lemma ShutIsPosted(c: Connect)
      requires CalledOn(c) && Represented() && old(loop.Valid()) && loop.Valid() && unchanged(loop)
      requires old(Connections()) && Connections() && PoolIsOpen() && Sound(old(LedgerNow()))
      requires ctrl.eventPool == old(ctrl.eventPool) && c.queued == old(c.queued) && c.Live() == old(c.Live())
      requires old(c.handled) && Progress(c, 0, old(c.Told()), c.Told(), [])
      ensures Posted(old(LedgerNow()), LedgerNow(), [])
    {
      hide Progress, Posted, LedgerNow, Connect.Valid, TaskLoop.Loop.Valid, TaskLoop.Loop.Pending,
           TaskLoop.Loop.Executed;
      CalledIsOnward(c);
      AllIdle(0);
      assert c.handled;
      hide CalledOn, Connections, PoolIsOpen;
      assert loop.functions + [] == loop.functions && loop.Pending() + [] == loop.Pending();
      PostedIs([]);
    }

    /** ShutdownWrite, which does nothing unless the connection is fully open. */
    method AskToShutDown(c: Connect, ghost now: int) returns (ghost posted: seq<Task>)
      requires Valid() && OnTime(now) && loop.mutex.Free? && c.event in owner && owner[c.event] == c
      requires c.state == Session.Connected
      modifies c`state, c`steps, c`past, c.socket`sendOpen
      ensures Valid() && OnTime(now) && loop.mutex.Free? && Posted(old(LedgerNow()), LedgerNow(), posted)
    {
      hide Progress, Posted, LedgerNow, Carried, Connect.Valid, Connect.Timer, TaskLoop.Loop.Valid,
           TaskLoop.Loop.Pending, TaskLoop.Loop.Executed;
      LedgerSound();
      Known(c);
      assert forall g :: g in owner && g != c.event ==> Apart(owner[c.event], owner[g]);
      ShutDown(c);
      CallKeepsConnections(c);
      CallKeepsPool(c);
      BooksAfterHandler(c, 0, []);
      CalledIsOnward(c);
      CarriedStays();
      ShutIsPosted(c);
      posted := [];
      hide CalledOn, Books, PoolIsOpen, Connections, Onward;
    }

    /** Somebody asks something of a connection. */
    method AskSomething(c: Connect, now: int) returns (ghost posted: seq<Task>)
      requires Valid() && OnTime(now) && loop.mutex.Free? && c.event in owner && owner[c.event] == c
      modifies loop, c`queued, c`deadline, c`ticks, c`state, c`steps, c`past, c.socket`sendOpen
      ensures Valid() && OnTime(now) && loop.mutex.Free? && Posted(old(LedgerNow()), LedgerNow(), posted)
    {
      hide Connections, PoolIsOpen, Books, Carried, Posted, LedgerNow, Connect.OnTime, TaskLoop.Loop.Valid,
           TaskLoop.Loop.Pending;
      var data: Bytes := *;
      if {
        case true => posted := AskToClose(c);
        case true => posted := AskToWrite(c, data);
        case c.deadline.Some? && c.deadline.value <= now => posted := TimerFires(c, now);
        case c.state == Session.Connected => posted := AskToShutDown(c, now);
      }
    }

    lemma LeadsBack(e: Events.Event)
      requires Represented() && Connections() && e in owner
      ensures owner[e].event == e && owner[e].Own() <= repr
    {
      assert Mine(e, owner[e]);
    }

    /** Something happens elsewhere: a connection is asked something, a new one is made, or Stop is called. */
    method SomethingHappens(now: int) returns (ghost posted: seq<Task>)
      requires Valid() && OnTime(now) && loop.mutex.Free?
      modifies this`owner, this`repr, loop, repr
      ensures Valid() && OnTime(now) && loop.mutex.Free? && fresh(repr - old(repr))
      ensures Posted(old(LedgerNow()), LedgerNow(), posted)
    {
      hide Connections, PoolIsOpen, Books, Carried, Posted, LedgerNow, OnTime;
      hide TaskLoop.Loop.Valid, TaskLoop.Loop.Pending;
      var fd: int := *;
      if {
        case owner.Keys != {} =>
          var e :| e in owner;
          LeadsBack(e);
          posted := AskSomething(owner[e], now);
        case Handed(fd) =>
          var c;
          c, posted := NewConnected(fd, now);
        case true =>
          AskToStop();
          posted := [];
      }
    }

    lemma NothingPosted()
      requires Represented() && Connections() && PoolIsOpen() && loop.Valid()
      ensures Posted(LedgerNow(), LedgerNow(), [])
    {
      hide Progress, Connect.Valid, TaskLoop.Loop.Valid, TaskLoop.Loop.Pending, TaskLoop.Loop.Executed, Connections,
           PoolIsOpen;
      LedgerSound();
      AllIdle(0);
      NothingGrown(LedgerNow());
    }

    /** Any number of such events: callbacks, timers and other goroutines at work. */
    method Meanwhile(now: int) returns (ghost posted: seq<Task>)
      requires Valid() && OnTime(now) && loop.mutex.Free?
      modifies this`owner, this`repr, loop, repr
      ensures Valid() && OnTime(now) && loop.mutex.Free? && fresh(repr - old(repr))
      ensures Posted(old(LedgerNow()), LedgerNow(), posted)
    {
      hide Connections, PoolIsOpen, Books, Carried, Posted, LedgerNow, OnTime;
      hide TaskLoop.Loop.Valid, TaskLoop.Loop.Pending;
      ghost var start := LedgerNow();
      NothingPosted();
      posted := [];
      var n: nat := *;
      while n > 0
        invariant Valid() && OnTime(now) && loop.mutex.Free? && fresh(repr - old(repr))
        invariant Posted(start, LedgerNow(), posted)
      {
        ghost var before := LedgerNow();
        ghost var more := SomethingHappens(now);
        PostedTwice(start, before, LedgerNow(), posted, more);
        posted := posted + more;
        n := n - 1;
      }
    }

    // ---------- The handlers of one batch ----------

    /** What HandleEvent promises, told by the stories before and after. */
    twostate lemma StoryAfterHandler(c: Connect, new revents: Interest.EventType, new now: int)
      requires old(c.Valid()) && c.Valid() && old(c.state) != Session.Disconnected
      requires match Events.Chosen(revents)
               case None => c.Told() == old(c.Told())
               case Some(h) =>
                 |c.steps| == |old(c.steps)| + 1 && old(c.steps) <= c.steps && c.past == old(c.past) + [old(c.SoFar())]
                 && HandlerDone(h, c.idleTime > 0, now, c.steps[|old(c.steps)|], old(c.SoFar()), c.SoFar())
                 && (c.state == Session.Disconnected <==> c.steps[|old(c.steps)|].Close?)
      ensures Progress(c, now, old(c.Told()), c.Told(), HandlersOf(revents))
      ensures if Events.Chosen(revents).Some? then OneStep(old(c.Told()), c.Told(), c.state == Session.Disconnected)
              else c.Told() == old(c.Told())
    {
      WasTold(c);
      TellsWell(c);
      ToldBefore(c);
      ToldSteps(c);
      hide Progress, HandlerDone, Events.Chosen, Connect.Valid, Connect.Told, Connect.SoFar, Session.Run, Session.Legal,
           Agrees, Blank;
      if Events.Chosen(revents).Some? {
        assert c.steps == old(c.steps) + [c.steps[|old(c.steps)|]];
      }
      HandlerSteps(c, now, old(c.Told()), c.Told(), revents);
    }

    twostate lemma WasTold(c: Connect)
      requires old(c.Valid()) && old(c.state) != Session.Disconnected
      ensures Codec.Usable(c.app.codec) && Session.Legal(c.app, old(c.steps))
      ensures Whole(old(c.Told())) && Session.Open(Session.Run(c.app, old(c.steps)))
    {
      hide Session.Run, Session.Legal, IdleTimer.Run, IdleTimer.Legal, Interest.ApplyChanges;
    }

    /** One handler of one connection. */
    method RunHandler(c: Connect, revents: Interest.EventType, now: int)
      requires Represented() && Mine(c.event, c) && c.event in owner && owner[c.event] == c
      requires forall e :: e in owner && e != c.event ==> Apart(c, owner[e])
      requires c.state != Session.Disconnected && c.OnTime(now)
      modifies c`state, c`teardown, c`steps, c`past, c`activeTime, c`ticks, c`temporaryBuf, c`byteBuffer,
               c.inBuffer, c.outBuffer, c.socket, c.event, ctrl`eventPool, ctrl.multi
      ensures CalledOn(c) && c.OnTime(now) && c.SameTimer()
      ensures Progress(c, now, old(c.Told()), c.Told(), HandlersOf(revents))
      ensures if Events.Chosen(revents).Some? then OneStep(old(c.Told()), c.Told(), c.state == Session.Disconnected)
              else c.Told() == old(c.Told())
      ensures ctrl.eventPool == if c.state == Session.Disconnected then old(ctrl.eventPool) - {c.event.eventFd}
                                else old(ctrl.eventPool)
      ensures c.state == Session.Disconnected ==> Events.Chosen(revents).Some?
    {
      hide CalledOn, Progress, OneStep, HandlerDone, Events.Chosen, Connect.Told, Connect.SoFar, Session.Run,
           Session.Legal, Session.MadeOpen, Interest.ApplyChanges, IdleTimer.Run, IdleTimer.Legal;
      c.HandleEvent(revents, now);
      CalledOnIs(c);
      StoryAfterHandler(c, revents, now);
    }

    /** The ledger after the handler of c, told connection by connection. */
    twostate lemma HandledIs(c: Connect, new entry: Ready, new h: Option<Events.Handler>, new closed: bool,
                             new clock: int)
      requires old(Represented()) && Represented() && old(loop.Valid()) && loop.Valid() && unchanged(loop)
      requires Sound(old(LedgerNow())) && Sound(LedgerNow()) && owner == old(owner)
      requires c.event in owner && owner[c.event] == c && c.handled && closed == !c.Live()
      requires old(c.handled) && old(c.Live()) && c.queued == old(c.queued)
      requires entry.fd in old(ctrl.eventPool) && old(ctrl.eventPool)[entry.fd] == c.event
      requires h == Events.Chosen(entry.revents) && (closed ==> h.Some?)
      requires if h.Some? then OneStep(old(c.Told()), c.Told(), closed)
                               && Progress(c, clock, old(c.Told()), c.Told(), [h.value])
               else c.Told() == old(c.Told())
      requires ctrl.eventPool == if closed then old(ctrl.eventPool) - {entry.fd} else old(ctrl.eventPool)
      requires forall e :: e in owner && e != c.event ==>
                 && owner[e].handled == old(owner[e].handled) && owner[e].Live() == old(owner[e].Live())
                 && owner[e].Told() == old(owner[e].Told()) && owner[e].queued == old(owner[e].queued)
      ensures Handled(old(LedgerNow()), entry, h, closed, clock, LedgerNow())
    {
      hide Progress, Sound, OneStep, Connect.Told, Connect.Live, TaskLoop.Loop.Valid, TaskLoop.Loop.Pending,
           TaskLoop.Loop.Executed;
      var a, b := old(LedgerNow()), LedgerNow();
      assert b.queued == a.queued && b.admitted == a.admitted;
      assert b.gone == if closed then a.gone + {c.event} else a.gone;
    }

    twostate lemma HandledBy(c: Connect, new entry: Ready, new h: Option<Events.Handler>, new clock: int)
      requires CalledOn(c) && Represented() && old(loop.Valid()) && loop.Valid() && unchanged(loop)
      requires old(Connections()) && Connections() && PoolIsOpen() && Sound(old(LedgerNow()))
      requires c.queued == old(c.queued) && entry.fd == c.event.eventFd && h == Events.Chosen(entry.revents)
      requires entry.fd in old(ctrl.eventPool) && old(ctrl.eventPool)[entry.fd] == c.event
      requires old(c.Live()) && old(c.handled)
      requires if h.Some? then OneStep(old(c.Told()), c.Told(), c.state == Session.Disconnected)
                               && Progress(c, clock, old(c.Told()), c.Told(), [h.value])
               else c.Told() == old(c.Told())
      requires ctrl.eventPool == if c.state == Session.Disconnected then old(ctrl.eventPool) - {entry.fd}
                                 else old(ctrl.eventPool)
      requires c.state == Session.Disconnected ==> h.Some?
      ensures Handled(old(LedgerNow()), entry, h, c.state == Session.Disconnected, clock, LedgerNow())
    {
      hide Progress, Sound, OneStep, LedgerNow, Handled, Connect.Told, Connect.Valid, TaskLoop.Loop.Valid,
           TaskLoop.Loop.Pending,
           TaskLoop.Loop.Executed;
      LedgerSound();
      CalledIsOnward(c);
      assert c.handled;
      hide CalledOn, Connections, PoolIsOpen;
      HandledIs(c, entry, h, c.state == Session.Disconnected, clock);
    }

    lemma ApartFromOthers(c: Connect)
      requires Represented() && Connections() && c.event in owner && owner[c.event] == c
      ensures forall g :: g in owner && g != c.event ==> Apart(c, owner[g])
    {
    }

    twostate lemma StillOnTime(c: Connect, new now: int)
      requires CalledOn(c) && Represented() && old(Connections()) && old(OnTime(now)) && c.OnTime(now)
      ensures OnTime(now)
    {
      hide Connect.Valid, IdleTimer.Run;
      CalledIsOnward(c);
      forall e | e in owner && e != c.event ensures owner[e].OnTime(now) {
        assert owner[e].Timer() == old(owner[e].Timer());
      }
    }

    /** The handler of one connection runs, and the others stay as they are. */
    method HandleFor(c: Connect, entry: Ready, now: int, ghost h: Option<Events.Handler>)
      requires Valid() && OnTime(now)
      requires c.event in owner && owner[c.event] == c && c.state != Session.Disconnected
      requires entry.fd == c.event.eventFd && entry.fd in ctrl.eventPool && ctrl.eventPool[entry.fd] == c.event
      requires h == Events.Chosen(entry.revents)
      modifies repr, ctrl`eventPool, ctrl.multi
      ensures Valid() && OnTime(now)
      ensures Handled(old(LedgerNow()), entry, h, c.state == Session.Disconnected, now, LedgerNow())
    {
      hide CalledOn, Connections, PoolIsOpen, Books, Onward, Progress, OneStep, Connect.Told, Handled, LedgerNow,
           Carried, Connect.Valid,
           Connect.Timer, Connect.OnTime, TaskLoop.Loop.Valid, TaskLoop.Loop.Pending, TaskLoop.Loop.Executed;
      LedgerSound();
      Known(c);
      ApartFromOthers(c);
      RunHandler(c, entry.revents, now);
      CallKeepsConnections(c);
      CallKeepsPool(c);
      BooksAfterHandler(c, now, if h.Some? then [h.value] else []);
      CalledIsOnward(c);
      StillOnTime(c, now);
      CarriedStays();
      HandledBy(c, entry, h, now);
    }

    /** handlerEventWrap: the handler of a descriptor runs if it is in the pool, and then on an open
        connection; it takes no descriptor out but its own, when it closes. */
    method HandlerEventWrap(fd: int, revents: Interest.EventType, now: int)
      returns (ran: Option<Events.Handler>, ghost closed: bool)
      requires Valid() && OnTime(now)
      modifies repr, ctrl`eventPool, ctrl.multi
      ensures Valid() && OnTime(now)
      ensures Handled(old(LedgerNow()), Ready(fd, revents), ran, closed, now, LedgerNow())
    {
      hide Progress, OneStep, Connect.Told, Connect.Valid, Connect.Timer, Books, Carried, Interest.ApplyChanges,
           Events.Multiplex.Holds,
           TaskLoop.Loop.Valid, TaskLoop.Loop.Pending, TaskLoop.Loop.Executed;
      LedgerSound();
      ran, closed := None, false;
      if fd != -1 && fd in ctrl.eventPool {
        var c := owner[ctrl.eventPool[fd]];
        LeadsBack(ctrl.eventPool[fd]);
        ran := Events.Chosen(revents);
        HandleFor(c, Ready(fd, revents), now, ran);
        closed := c.state == Session.Disconnected;
      }
    }

    lemma BatchBegins(batch: seq<Ready>, clock: int)
      requires Represented() && Connections() && PoolIsOpen() && loop.Valid()
      ensures Dispatched(LedgerNow(), batch, [], [], [], clock, LedgerNow())
    {
      hide Progress, Connect.Valid, TaskLoop.Loop.Valid, TaskLoop.Loop.Pending, TaskLoop.Loop.Executed;
      LedgerSound();
      AllIdle(clock);
      NothingDispatched(LedgerNow(), batch, clock);
    }

    /** The batch a wait returns, with whatever happens elsewhere meanwhile: no handler runs for a
        connection that an earlier entry closed, nor for a new one that has been given its descriptor. */
    method Dispatch(batch: seq<Ready>, now: int)
      returns (ran: seq<Option<Events.Handler>>, ghost closed: seq<bool>, ghost posted: seq<Task>)
      requires Valid() && OnTime(now) && loop.mutex.Free?
      modifies this`owner, this`repr, loop, repr, ctrl`eventPool, ctrl.multi
      ensures Valid() && OnTime(now) && loop.mutex.Free? && fresh(repr - old(repr)) && |ran| == |batch|
      ensures Dispatched(old(LedgerNow()), batch, ran, closed, posted, now, LedgerNow())
    {
      hide Connections, PoolIsOpen, Books, Carried, OnTime, LedgerNow, Handled, Dispatched, Posted,
           TaskLoop.Loop.Valid, TaskLoop.Loop.Pending;
      ghost var start := LedgerNow();
      BatchBegins(batch, now);
      ran, closed, posted := [], [], [];
      var i := 0;
      while i < |batch|
        invariant 0 <= i <= |batch| && |ran| == i
        invariant Valid() && OnTime(now) && loop.mutex.Free? && fresh(repr - old(repr))
        invariant Dispatched(start, batch, ran, closed, posted, now, LedgerNow())
      {
        ghost var before := LedgerNow();
        ghost var more := Meanwhile(now);
        DispatchedPosted(start, batch, ran, closed, posted, now, before, more, LedgerNow());
        posted := posted + more;
        ghost var between := LedgerNow();
        var h;
        ghost var cl;
        h, cl := HandlerEventWrap(batch[i].fd, batch[i].revents, now);
        DispatchedMore(start, batch, ran, closed, posted, now, between, h, cl, LedgerNow());
        ran, closed := ran + [h], closed + [cl];
        i := i + 1;
      }
    }

    // ---------- The tasks of one pass ----------

    method Open(c: Connect)
      requires Represented() && Mine(c.event, c) && c.event in owner && owner[c.event] == c && !c.handled
      requires forall e :: e in owner && e != c.event ==> Apart(c, owner[e])
      modifies c`state, c`handled, c`steps, c`past, c`openedUnguarded, c.event, ctrl`eventPool, ctrl.multi
      ensures CalledOn(c) && c.steps == old(c.steps) + [Session.Step.Connect] && c.handled && c.Live()
      ensures c.past == old(c.past) + [old(c.SoFar())] && c.SoFar() == old(c.SoFar())
      ensures ctrl.eventPool == old(ctrl.eventPool)[c.event.eventFd := c.event]
    {
      hide CalledOn, Session.Run, Session.Legal, Interest.ApplyChanges, IdleTimer.Run, IdleTimer.Legal;
      c.ConnectedHandle();
      CalledOnIs(c);
    }

    method CloseOrWrite(c: Connect, task: Task) returns (ghost step: Session.Step)
      requires Represented() && Mine(c.event, c) && c.event in owner && owner[c.event] == c && c.handled
      requires forall e :: e in owner && e != c.event ==> Apart(c, owner[e])
      requires !task.ConnectTask?
      modifies c`state, c`teardown, c`steps, c`past, c.outBuffer, c.socket, c.event, ctrl`eventPool, ctrl.multi
      ensures CalledOn(c) && c.steps == old(c.steps) + [step] && c.past == old(c.past) + [old(c.SoFar())]
      ensures TaskDone(task, step, old(c.SoFar()), c.SoFar())
      ensures c.Live() <==> old(c.Live()) && !step.Close?
      ensures ctrl.eventPool == if step.Close? && old(c.Live()) then old(ctrl.eventPool) - {c.event.eventFd}
                                else old(ctrl.eventPool)
    {
      hide CalledOn, Session.Run, Session.Legal, Interest.ApplyChanges, IdleTimer.Run, IdleTimer.Legal;
      step := c.RunTask(task);
      CalledOnIs(c);
    }

    /** One queued task of one connection. */
    method Perform(c: Connect, task: Task) returns (ghost step: Session.Step)
      requires Represented() && Mine(c.event, c) && c.event in owner && owner[c.event] == c
      requires forall e :: e in owner && e != c.event ==> Apart(c, owner[e])
      requires task.conn == c && (task.ConnectTask? <==> !c.handled)
      modifies c`state, c`handled, c`teardown, c`steps, c`past, c`openedUnguarded, c.outBuffer, c.socket, c.event,
               ctrl`eventPool, ctrl.multi
      ensures CalledOn(c) && c.steps == old(c.steps) + [step] && c.past == old(c.past) + [old(c.SoFar())] && c.handled
      ensures TaskDone(task, step, old(c.SoFar()), c.SoFar())
      ensures c.Live() <==> old(c.Live()) && !step.Close?
      ensures ctrl.eventPool == if task.ConnectTask? then old(ctrl.eventPool)[c.event.eventFd := c.event]
                                else if step.Close? && old(c.Live()) then old(ctrl.eventPool) - {c.event.eventFd}
                                else old(ctrl.eventPool)
    {
      hide CalledOn, Apart, Connect.Valid;
      if task.ConnectTask? {
        Open(c);
        step := Session.Step.Connect;
      } else {
        step := CloseOrWrite(c, task);
      }
    }

    /** What the first pending task, run by its connection c, has made of c's account. */
    twostate lemma OwnAccountAfterTask(c: Connect, new task: Task, new rest: seq<Task>)
      requires CalledOn(c) && Represented() && old(loop.Valid()) && loop.Valid()
      requires old(Accounts(c, loop.Pending())) && old(loop.Pending()) == [task] + rest && task.conn == c
      requires c.queued == old(c.queued) && c.ticks == old(c.ticks)
      requires |c.steps| == |old(c.steps)| + 1 && old(c.steps) <= c.steps
      requires task.CloseTask? ==> c.state == Session.Disconnected
      requires c.state != Session.Disconnected ==>
                 var last := c.steps[|old(c.steps)|];
                 if task.WriteTask? then last.Submit? && last.data == task.buffer else !last.Submit?
      ensures Accounts(c, rest)
    {
      hide Connect.Valid, Events.EventCtrl.OthersKept, TaskLoop.Loop.Valid, TaskLoop.Loop.Pending,
           DataFor, IdleTimer.Run;
      DataForFirst(c, task, rest);
      assert c.steps[..|c.steps| - 1] == old(c.steps);
      assert c.handled;
      if c.Live() {
        var data := if task.WriteTask? then [task.buffer] else [];
        assert Session.SubmitData(c.steps) == old(Session.SubmitData(c.steps)) + data;
        assert old(Session.SubmitData(c.steps)) + (data + DataFor(c, rest))
               == old(Session.SubmitData(c.steps)) + data + DataFor(c, rest);
      }
    }

    twostate lemma OtherAccountsAfterTask(c: Connect, new task: Task, new rest: seq<Task>)
      requires CalledOn(c) && Represented() && old(loop.Valid())
      requires old(Connections()) && old(Books(loop.Pending()))
      requires old(loop.Pending()) == [task] + rest && task.conn == c
      ensures forall e :: e in owner && e != c.event ==> Accounts(owner[e], rest)
    {
      hide Connect.Valid, Connect.Timer, Session.SubmitData, DataFor, Tasks, PoolIsOpen,
           Events.EventCtrl.OthersKept, TaskLoop.Loop.Valid, TaskLoop.Loop.Pending;
      forall e | e in owner && e != c.event ensures Accounts(owner[e], rest) {
        assert old(Mine(e, owner[e])) && owner[e] in owner[e].Own() && owner[e] != c;
        assert old(Accounts(owner[e], loop.Pending()));
        DataForFirst(owner[e], task, rest);
      }
    }

    twostate lemma TasksAfterTask(c: Connect, new task: Task, new rest: seq<Task>)
      requires CalledOn(c) && Represented() && old(loop.Valid())
      requires old(Connections()) && old(Tasks(loop.Pending()))
      requires old(loop.Pending()) == [task] + rest && task.conn == c
      ensures Tasks(rest)
    {
      hide Connect.Valid, Events.EventCtrl.OthersKept, TaskLoop.Loop.Valid, TaskLoop.Loop.Pending;
      forall i | 0 <= i < |rest|
        ensures rest[i].conn.event in owner && owner[rest[i].conn.event] == rest[i].conn
        ensures rest[i].ConnectTask? <==> !owner[rest[i].conn.event].handled
      {
        assert rest[i] == old(loop.Pending())[i + 1] && task == old(loop.Pending())[0];
        var e := rest[i].conn.event;
        if e != c.event {
          assert owner[e] in owner[e].Own();
        }
      }
      hide CalledOn;
      forall i, j | 0 <= i < j < |rest| && rest[i].ConnectTask? && rest[j].ConnectTask?
        ensures rest[i].conn != rest[j].conn
      {
        assert rest[i] == old(loop.Pending())[i + 1] && rest[j] == old(loop.Pending())[j + 1];
      }
    }

    /** What has become of the connections once the first pending task has been run: its own has made the
        step of the task, and no other has made any. */
    twostate predicate RanTask(new task: Task)
      requires old(Represented()) && Represented()
      reads this, repr, ctrl
    {
      var c, e := task.conn, task.conn.event;
      && owner == old(owner) && e in owner && owner[e] == c
      && old(c.steps) < c.steps && |c.steps| == |old(c.steps)| + 1 && c.past == old(c.past) + [old(c.SoFar())]
      && var step := c.steps[|old(c.steps)|];
      && TaskDone(task, step, old(c.SoFar()), c.SoFar()) && c.handled && c.queued == old(c.queued)
      && (task.ConnectTask? <==> !old(c.handled))
      && (c.Live() <==> old(c.Live()) && !step.Close?)
      && ctrl.eventPool == (if task.ConnectTask? then old(ctrl.eventPool)[e.eventFd := e]
                            else if step.Close? && old(c.Live()) then old(ctrl.eventPool) - {e.eventFd}
                            else old(ctrl.eventPool))
      && forall g :: g in owner && g != e ==>
           && owner[g].handled == old(owner[g].handled) && owner[g].Live() == old(owner[g].Live())
           && owner[g].Told() == old(owner[g].Told()) && owner[g].queued == old(owner[g].queued)
    }

    /** The first pending task is run, by its connection. */
    method PerformFirst(task: Task, ghost rest: seq<Task>, now: int)
      requires Valid() && OnTime(now) && loop.Pending() == [task] + rest
      modifies repr, ctrl`eventPool, ctrl.multi
      ensures Represented() && Connections() && PoolIsOpen() && loop.Valid() && Books(rest) && OnTime(now)
      ensures Carried(loop.Executed() + [task]) && RanTask(task)
    {
      hide CalledOn, Connections, PoolIsOpen, Tasks, Onward, Carried, Accounts, Connect.Valid, Connect.Timer,
           Connect.SoFar, TaskDone, Connect.OnTime, Session.SubmitData, DataFor, TaskLoop.Loop.Valid,
           TaskLoop.Loop.Pending, TaskLoop.Loop.Executed;
      FirstTask(task, rest);
      var c := task.conn;
      Known(c);
      ApartFromOthers(c);
      ghost var before := c.SoFar();
      ghost var step := Perform(c, task);
      KindOfStep(task, step, before, c.SoFar());
      CallKeepsConnections(c);
      CallKeepsPool(c);
      OwnAccountAfterTask(c, task, rest);
      OtherAccountsAfterTask(c, task, rest);
      TasksAfterTask(c, task, rest);
      CalledIsOnward(c);
      StillOnTime(c, now);
      CarriedStays();
      CarriedMore(loop.Executed(), task);
    }

    lemma FirstTask(task: Task, rest: seq<Task>)
      requires Represented() && Tasks([task] + rest)
      ensures task.conn.event in owner && owner[task.conn.event] == task.conn
      ensures task.ConnectTask? <==> !task.conn.handled
    {
      assert ([task] + rest)[0] == task;
    }

    lemma CarriedMore(executed: seq<Task>, task: Task)
      requires Represented() && Carried(executed)
      requires task.conn.event in owner && owner[task.conn.event] == task.conn && task.conn.handled
      requires task.CloseTask? ==> task.conn.state == Session.Disconnected
      ensures Carried(executed + [task])
    {
    }

    twostate lemma SetsAfterTask(new task: Task)
      requires old(Represented()) && Represented() && old(loop.Valid()) && loop.Valid() && RanTask(task)
      ensures var a, b, e := old(LedgerNow()), LedgerNow(), task.conn.event;
              && b.owner == a.owner && b.queued == a.queued
              && b.admitted == (if task.ConnectTask? then a.admitted + {e} else a.admitted)
              && b.gone == (if task.conn.steps[|old(task.conn.steps)|].Close? then a.gone + {e} else a.gone)
    {
      hide Connect.Live, Connect.Told, Connect.SoFar, TaskDone, TaskLoop.Loop.Valid, TaskLoop.Loop.Pending,
           TaskLoop.Loop.Executed;
      var a, b := old(LedgerNow()), LedgerNow();
      assert b.queued == a.queued;
    }

    twostate lemma PoolAfterTask(new task: Task)
      requires old(Represented()) && Represented() && old(loop.Valid()) && loop.Valid() && RanTask(task)
      ensures var a, b, e := old(LedgerNow()), LedgerNow(), task.conn.event;
              && e in a.owner && a.owner[e] == task.conn
              && b.pool == (if task.ConnectTask? then a.pool[e.eventFd := e]
                            else if task.conn.steps[|old(task.conn.steps)|].Close? && e !in a.gone
                            then a.pool - {e.eventFd} else a.pool)
    {
      hide Connect.Live, Connect.Told, TaskDone, TaskLoop.Loop.Valid, TaskLoop.Loop.Pending, TaskLoop.Loop.Executed;
    }

    /** What the ledger tells of the connection of the task, and of the others. */
    twostate lemma StoriesAfterTask(new task: Task)
      requires old(Represented()) && Represented() && old(loop.Valid()) && loop.Valid() && RanTask(task)
      ensures var a, b, e := old(LedgerNow()), LedgerNow(), task.conn.event;
              && e in a.stories && e in b.stories && a.stories[e].steps == old(task.conn.steps)
              && |b.stories[e].steps| == |a.stories[e].steps| + 1
              && var step := b.stories[e].steps[|a.stories[e].steps|];
              && step == task.conn.steps[|old(task.conn.steps)|]
              && b.stories[e]
                 == Story(a.stories[e].steps + [step], a.stories[e].past + [a.stories[e].now], b.stories[e].now)
              && TaskDone(task, step, a.stories[e].now, b.stories[e].now)
              && forall g :: g in a.owner && g != e ==> g in b.stories && b.stories[g] == a.stories[g]
    {
      hide Connect.Live, Connect.Told, Connect.SoFar, TaskDone, TaskLoop.Loop.Valid, TaskLoop.Loop.Pending,
           TaskLoop.Loop.Executed;
      ToldBefore(task.conn);
      ToldSteps(task.conn);
      var c := task.conn;
      assert c.steps == old(c.steps) + [c.steps[|old(c.steps)|]];
    }

    twostate lemma ToldBefore(c: Connect)
      ensures old(c.Told()) == Story(old(c.steps), old(c.past), old(c.SoFar()))
    {
    }

    /** The ledger after a task of the snapshot. */
    twostate lemma TaskRunIs()
      requires old(Represented()) && Represented() && old(loop.Valid()) && loop.Valid()
      requires Sound(old(LedgerNow())) && Sound(LedgerNow())
      requires old(loop.pc).Running? && old(loop.pc).next < |old(loop.snapshot)|
      requires var task := old(loop.snapshot)[old(loop.pc).next];
               && loop.pc == EventLoop.Running(old(loop.pc).next + 1) && loop.snapshot == old(loop.snapshot)
               && loop.running == old(loop.running) && loop.functions == old(loop.functions)
               && loop.Executed() == old(loop.Executed()) + [task]
               && old(loop.Pending()) == [task] + loop.Pending()
               && RanTask(task)
      ensures TaskRun(old(LedgerNow()), LedgerNow())
    {
      hide Sound, TaskDone, RanTask, LedgerNow, Connect.Live, Connect.Told, TaskLoop.Loop.Valid, TaskLoop.Loop.Pending,
           TaskLoop.Loop.Executed;
      var task := old(loop.snapshot)[old(loop.pc).next];
      SetsAfterTask(task);
      PoolAfterTask(task);
      StoriesAfterTask(task);
      LoopAfterTask();
    }

    /** The place of the loop, in the ledger and here. */
    twostate lemma LoopAfterTask()
      requires old(Represented()) && Represented() && old(loop.Valid()) && loop.Valid()
      ensures var a, b := old(LedgerNow()), LedgerNow();
              && a.pc == old(loop.pc) && a.snapshot == old(loop.snapshot) && a.running == old(loop.running)
              && a.executed == old(loop.Executed()) && a.functions == old(loop.functions)
              && a.pending == old(loop.Pending())
              && b.pc == loop.pc && b.snapshot == loop.snapshot && b.running == loop.running
              && b.executed == loop.Executed() && b.functions == loop.functions && b.pending == loop.Pending()
    {
      hide TaskLoop.Loop.Valid, TaskLoop.Loop.Pending, TaskLoop.Loop.Executed, Connect.Told, Connect.Live;
    }

    /** The next task of the snapshot is run. */
    method RunNextTask(now: int)
      requires Valid() && OnTime(now) && loop.mutex.Free? && loop.pc.Running? && loop.pc.next < |loop.snapshot|
      modifies loop, repr, ctrl`eventPool, ctrl.multi
      ensures Valid() && OnTime(now) && loop.mutex.Free?
      ensures TaskRun(old(LedgerNow()), LedgerNow())
      ensures loop.pc == EventLoop.Running(old(loop.pc).next + 1) && loop.snapshot == old(loop.snapshot)
    {
      hide Connections, PoolIsOpen, Books, Carried, LedgerNow, TaskRun, RanTask, OnTime, EventLoop.Run, EventLoop.Legal,
           TaskLoop.Loop.Valid, TaskLoop.Loop.Executed, TaskLoop.Loop.Pending;
      LedgerSound();
      loop.FirstPending();
      var task := loop.snapshot[loop.pc.next];
      PerformFirst(task, loop.snapshot[loop.pc.next + 1..] + loop.functions, now);
      var _ := loop.NextTask();
      LedgerSound();
      TaskRunIs();
    }

    /** The snapshot is run, task by task, with whatever happens elsewhere meanwhile. */
    method RunSnapshot(now: int) returns (ghost posted: seq<Task>)
      requires Valid() && OnTime(now) && loop.mutex.Free?
      requires loop.pc == EventLoop.Running(0) && loop.functions == [] && loop.Pending() == loop.snapshot
      modifies this`owner, this`repr, loop, repr, ctrl`eventPool, ctrl.multi
      ensures Valid() && OnTime(now) && loop.mutex.Free? && fresh(repr - old(repr))
      ensures loop.pc == EventLoop.Running(|loop.snapshot|) && loop.snapshot == old(loop.snapshot)
      ensures Passing(old(LedgerNow()), posted, LedgerNow())
    {
      hide Connections, PoolIsOpen, Books, Carried, OnTime, TaskRun, Passing, Posted, LedgerNow,
           TaskLoop.Loop.Valid, TaskLoop.Loop.Pending;
      ghost var start := LedgerNow();
      posted := [];
      LedgerSound();
      LoopInLedger();
      Rounds.PassBegins(start);
      while loop.pc.next < |loop.snapshot|
        invariant Valid() && OnTime(now) && loop.mutex.Free? && fresh(repr - old(repr))
        invariant loop.pc.Running? && loop.pc.next <= |loop.snapshot| && loop.snapshot == old(loop.snapshot)
        invariant Passing(start, posted, LedgerNow())
        decreases |loop.snapshot| - loop.pc.next
      {
        ghost var before := LedgerNow();
        LoopInLedger();
        ghost var more := Meanwhile(now);
        PassingPosted(start, posted, before, more, LedgerNow());
        PostedKeepsPlace(before, LedgerNow(), more);
        LoopInLedger();
        posted := posted + more;
        ghost var between := LedgerNow();
        RunNextTask(now);
        PassingTask(start, posted, between, LedgerNow());
      }
    }

    lemma LoopInLedger()
      requires Represented() && loop.Valid()
      ensures var l := LedgerNow();
              && l.pc == loop.pc && l.snapshot == loop.snapshot && l.running == loop.running
              && l.executed == loop.Executed() && l.functions == loop.functions && l.pending == loop.Pending()
    {
      hide TaskLoop.Loop.Valid, TaskLoop.Loop.Pending, TaskLoop.Loop.Executed;
    }

    // ---------- A round of the loop ----------

    /** The loop has moved on by itself. */
    twostate lemma LoopMoved()
      requires old(Represented()) && Represented() && old(loop.Valid()) && loop.Valid()
      requires owner == old(owner) && repr == old(repr) && unchanged(repr) && ctrl.eventPool == old(ctrl.eventPool)
      requires loop.running == old(loop.running) && loop.Executed() == old(loop.Executed())
      requires loop.Pending() == old(loop.Pending())
      ensures LedgerNow() == old(LedgerNow()).(pc := loop.pc, snapshot := loop.snapshot, functions := loop.functions)
    {
      hide TaskLoop.Loop.Valid, TaskLoop.Loop.Pending, TaskLoop.Loop.Executed, Connect.Live;
      forall e | e in owner
        ensures owner[e].handled == old(owner[e].handled) && owner[e].Live() == old(owner[e].Live())
                && owner[e].Told() == old(owner[e].Told()) && owner[e].queued == old(owner[e].queued)
      {
        OwnParts(owner[e]);
      }
      var a, b := old(LedgerNow()), LedgerNow();
      assert b.queued == a.queued && b.stories == a.stories;
      assert b.admitted == a.admitted && b.gone == a.gone;
    }

    method WaitReturns(ghost now: int)
      requires Valid() && OnTime(now) && loop.mutex.Free? && loop.pc == EventLoop.Waiting
      modifies loop
      ensures Valid() && OnTime(now) && loop.mutex.Free? && loop.pc.Dispatching?
      ensures LedgerNow() == old(LedgerNow()).(pc := loop.pc)
    {
      hide Connections, PoolIsOpen, Books, Carried, OnTime, LedgerNow, TaskLoop.Loop.Valid, TaskLoop.Loop.Executed,
           TaskLoop.Loop.Pending;
      LoopInLedger();
      var _ := loop.WaitReturns();
      LoopMoved();
    }

    method ReadWake(ghost now: int)
      requires Valid() && OnTime(now) && loop.mutex.Free? && loop.pc.Dispatching?
      modifies loop
      ensures Valid() && OnTime(now) && loop.mutex.Free? && loop.pc == EventLoop.BeforeSwap
      ensures LedgerNow() == old(LedgerNow()).(pc := loop.pc)
    {
      hide Connections, PoolIsOpen, Books, Carried, OnTime, LedgerNow, TaskLoop.Loop.Valid, TaskLoop.Loop.Executed,
           TaskLoop.Loop.Pending;
      LoopInLedger();
      loop.ReadWake();
      LoopMoved();
    }

    method TakeFunctions(ghost now: int)
      requires Valid() && OnTime(now) && loop.mutex.Free? && loop.pc == EventLoop.BeforeSwap
      modifies loop
      ensures Valid() && OnTime(now) && loop.mutex.Free? && loop.pc == EventLoop.Running(0)
      ensures loop.functions == [] && loop.snapshot == old(loop.functions) && loop.Pending() == loop.snapshot
      ensures LedgerNow() == old(LedgerNow()).(pc := loop.pc, snapshot := old(loop.functions), functions := [])
    {
      hide Connections, PoolIsOpen, Books, Carried, OnTime, LedgerNow, TaskLoop.Loop.Valid, TaskLoop.Loop.Executed,
           TaskLoop.Loop.Pending;
      LoopInLedger();
      loop.TakeFunctions();
      LoopMoved();
    }

    method EndPass(ghost now: int) returns (exit: bool)
      requires Valid() && OnTime(now) && loop.mutex.Free? && loop.pc == EventLoop.Running(|loop.snapshot|)
      modifies loop
      ensures Valid() && OnTime(now) && loop.mutex.Free?
      ensures exit == !loop.running && loop.pc == if exit then EventLoop.Exited else EventLoop.Waiting
      ensures LedgerNow() == old(LedgerNow()).(pc := loop.pc)
    {
      hide Connections, PoolIsOpen, Books, Carried, OnTime, LedgerNow, TaskLoop.Loop.Valid, TaskLoop.Loop.Executed,
           TaskLoop.Loop.Pending;
      LoopInLedger();
      exit := loop.EndPass();
      LoopMoved();
    }

    /** waitAndRunHandle, up to the point where the queue is taken. */
    method WaitAndRunHandle(batch: seq<Ready>, now: int)
      returns (ran: seq<Option<Events.Handler>>, ghost closed: seq<bool>, ghost posted: seq<Task>)
      requires Valid() && OnTime(now) && loop.mutex.Free? && loop.pc == EventLoop.Waiting
      modifies this`owner, this`repr, loop, repr, ctrl`eventPool, ctrl.multi
      ensures Valid() && OnTime(now) && loop.mutex.Free? && fresh(repr - old(repr)) && |ran| == |batch|
      ensures loop.pc == EventLoop.BeforeSwap
      ensures Dispatched(old(LedgerNow()).(pc := EventLoop.BeforeSwap), batch, ran, closed, posted, now, LedgerNow())
    {
      hide Connections, PoolIsOpen, Books, Carried, OnTime, Dispatched, LedgerNow, TaskLoop.Loop.Valid,
           TaskLoop.Loop.Pending;
      WaitReturns(now);
      ghost var start := LedgerNow();
      LoopInLedger();
      ran, closed, posted := Dispatch(batch, now);
      LoopInLedger();
      DispatchedElsewhere(start, batch, ran, closed, posted, now, LedgerNow(), EventLoop.BeforeSwap);
      ReadWake(now);
    }

    /** Nothing but to open can be queued for a connection that has not been opened. */
    lemma UnopenedIsToOpen()
      requires Valid()
      ensures OnlyToOpen(LedgerNow())
    {
      hide Connections, PoolIsOpen, Carried, Mine, OnlyToOpen, TaskLoop.Loop.Valid, TaskLoop.Loop.Pending,
           TaskLoop.Loop.Executed;
      var l := LedgerNow();
      forall i | 0 <= i < |l.functions|
        ensures l.functions[i].ConnectTask? <==> l.functions[i].conn.event !in l.admitted
      {
        loop.QueuedIsPending(i);
      }
      forall e | e in l.owner ensures l.owner[e].event == e {
        LeadsBack(e);
      }
      OnlyToOpenIs(l);
    }

    ghost predicate OpenNow(e: Events.Event)
      reads this, if e in owner then {owner[e]} else {}
    {
      e in owner && owner[e].handled && owner[e].state != Session.Disconnected
    }

    lemma OpenInLedger(e: Events.Event)
      requires Represented() && loop.Valid()
      requires e in LedgerNow().owner && e in LedgerNow().admitted && e !in LedgerNow().gone
      ensures OpenNow(e)
    {
      hide TaskLoop.Loop.Valid, TaskLoop.Loop.Pending, TaskLoop.Loop.Executed;
    }

    /** runAllFunctionInLoop: exactly what was queued is carried out, in order, and what is posted meanwhile is
        left for the next round. */
    method RunAllFunctionInLoop(now: int) returns (ghost posted: seq<Task>)
      requires Valid() && OnTime(now) && loop.mutex.Free? && loop.pc == EventLoop.BeforeSwap
      modifies this`owner, this`repr, loop, repr, ctrl`eventPool, ctrl.multi
      ensures Valid() && OnTime(now) && loop.mutex.Free? && fresh(repr - old(repr))
      ensures loop.pc == EventLoop.Running(|loop.snapshot|)
      ensures Passed(old(LedgerNow()), posted, LedgerNow())
      ensures forall e :: e in ToOpen(old(LedgerNow())) ==> OpenNow(e)
    {
      hide Connections, PoolIsOpen, Books, Carried, OnTime, Passing, Passed, LedgerNow, ToOpen, OnlyToOpen, OpenNow,
           TaskLoop.Loop.Valid, TaskLoop.Loop.Pending;
      ghost var start := LedgerNow();
      LedgerSound();
      UnopenedIsToOpen();
      LoopInLedger();
      TakeFunctions(now);
      ghost var taken := LedgerNow();
      posted := RunSnapshot(now);
      LoopInLedger();
      PassedIs(start, taken, posted, LedgerNow());
      PassOpens(start, posted, LedgerNow());
      forall e | e in ToOpen(start) ensures OpenNow(e) {
        OpenInLedger(e);
      }
    }

    /** An account that is in order, after a round: what had been accepted before the swap is handed over. */
    lemma RoundHandsOver(e: Events.Event, start: Ledger, early: seq<Task>, middle: Ledger, late: seq<Task>)
      requires Valid() && e in owner && owner[e].state != Session.Disconnected
      requires Grown(start, middle, early) && Passed(middle, late, LedgerNow())
      ensures Session.SubmitData(owner[e].steps) == At(start.queued, e) + DataFor(owner[e], early)
    {
      hide Connections, PoolIsOpen, Carried, Tasks, Grown, CarriedOut, Session.SubmitData, DataFor, TaskLoop.Loop.Valid,
           TaskLoop.Loop.Pending, TaskLoop.Loop.Executed;
      var c := owner[e];
      GrownTwice(start, middle, LedgerNow(), early, late);
      assert Accounts(c, loop.Pending());
      AcceptedIs(start, LedgerNow(), early + late, e);
      DataForAppend(c, early, late);
      SameBefore(Session.SubmitData(c.steps), At(start.queued, e) + DataFor(c, early), DataFor(c, late));
    }

    /** The body of Run's loop. Everything queued when it began, and while the handlers ran, has been carried
        out when it ends, in order; every connection still open has been handed exactly the data accepted up
        to the swap. The round is the last one exactly if Stop has been called by its end. */
    method RunOnce(batch: seq<Ready>, now: int)
      returns (exit: bool, ran: seq<Option<Events.Handler>>, ghost closed: seq<bool>, ghost early: seq<Task>,
               ghost middle: Ledger, ghost late: seq<Task>)
      requires Valid() && OnTime(now) && loop.mutex.Free? && loop.pc == EventLoop.Waiting
      modifies this`owner, this`repr, loop, repr, ctrl`eventPool, ctrl.multi
      ensures Valid() && OnTime(now) && loop.mutex.Free? && fresh(repr - old(repr)) && |ran| == |batch|
      ensures exit == !loop.running && loop.pc == if exit then EventLoop.Exited else EventLoop.Waiting
      ensures Dispatched(old(LedgerNow()).(pc := EventLoop.BeforeSwap), batch, ran, closed, early, now, middle)
      ensures Passed(middle, late, LedgerNow())
      ensures loop.Executed() == old(loop.Executed()) + (old(loop.functions) + early) && loop.functions == late
      ensures Carried(old(loop.functions) + early)
      ensures forall e :: e in ToOpen(middle) ==> OpenNow(e)
      ensures forall e :: e in owner && owner[e].state != Session.Disconnected ==>
                Session.SubmitData(owner[e].steps) == At(old(LedgerNow()).queued, e) + DataFor(owner[e], early)
      ensures forall e :: e in owner ==> ActiveAt(old(LedgerNow()), batch, ran, now, LedgerNow(), e)
    {
      hide Connections, PoolIsOpen, Books, Carried, OnTime, Dispatched, Passed, LedgerNow, TaskLoop.Loop.Valid,
           TaskLoop.Loop.Pending, TaskLoop.Loop.Executed;
      ghost var start := LedgerNow();
      LoopInLedger();
      ran, closed, early := WaitAndRunHandle(batch, now);
      middle := LedgerNow();
      late := RunAllFunctionInLoop(now);
      ghost var passed := LedgerNow();
      exit := EndPass(now);
      LoopInLedger();
      PassedElsewhere(middle, late, passed, loop.pc);
      RoundIs(start.(pc := EventLoop.BeforeSwap), batch, ran, closed, early, now, middle, late, LedgerNow());
      CarriedPart(start.executed, start.functions + early);
      OwnersInLedger();
      ActiveThroughRound(start, EventLoop.BeforeSwap, batch, ran, closed, early, now, middle, late, LedgerNow());
      hide ActiveAt;
      forall e | e in owner && owner[e].state != Session.Disconnected
        ensures Session.SubmitData(owner[e].steps) == At(start.queued, e) + DataFor(owner[e], early)
      {
        RoundHandsOver(e, start.(pc := EventLoop.BeforeSwap), early, middle, late);
      }
    }

    lemma CarriedPart(before: seq<Task>, tasks: seq<Task>)
      requires Represented() && Carried(before + tasks)
      ensures Carried(tasks)
    {
      assert forall i :: 0 <= i < |tasks| ==> tasks[i] == (before + tasks)[|before| + i];
    }

    // ---------- Stopping ----------

    /** Those of the connections that are open have a close queued. */
    ghost predicate Asked(es: set<Events.Event>)
      requires Represented()
      reads this, repr, loop
    {
      forall e :: e in es && e in owner && owner[e].state != Session.Disconnected ==>
        CloseTask(owner[e]) in loop.functions
    }

    /** Closes, of open connections only. */
    ghost predicate ClosesOpen(tasks: seq<Task>)
      requires Represented()
      reads this, repr
    {
      forall i :: 0 <= i < |tasks| ==>
        && tasks[i].CloseTask? && tasks[i].conn.event in owner && owner[tasks[i].conn.event] == tasks[i].conn
        && owner[tasks[i].conn.event].state != Session.Disconnected
    }

    method CloseNext(e: Events.Event, ghost asked: set<Events.Event>, ghost now: int) returns (ghost posted: seq<Task>)
      requires Valid() && OnTime(now) && loop.mutex.Free? && e in owner && Asked(asked)
      modifies loop
      ensures Valid() && OnTime(now) && loop.mutex.Free? && loop.running == old(loop.running)
      ensures Asked(asked + {e}) && ClosesOpen(posted) && loop.functions == old(loop.functions) + posted
      ensures Posted(old(LedgerNow()), LedgerNow(), posted)
    {
      hide Connections, PoolIsOpen, Books, Carried, Posted, LedgerNow, OnTime, TaskLoop.Loop.Valid,
           TaskLoop.Loop.Pending, TaskLoop.Loop.Executed;
      LeadsBack(e);
      ghost var before := loop.functions;
      posted := AskToClose(owner[e]);
      assert posted != [] ==> posted[0] in before + posted;
    }

    /** Every open connection is asked to close, and no other. */
    method CloseAll(ghost now: int) returns (ghost posted: seq<Task>)
      requires Valid() && OnTime(now) && loop.mutex.Free?
      modifies loop
      ensures Valid() && OnTime(now) && loop.mutex.Free? && loop.running == old(loop.running)
      ensures Asked(owner.Keys) && ClosesOpen(posted) && Posted(old(LedgerNow()), LedgerNow(), posted)
    {
      hide Connections, PoolIsOpen, Books, Carried, Asked, ClosesOpen, Posted, LedgerNow, OnTime, Connect.OnTime,
           TaskLoop.Loop.Valid, TaskLoop.Loop.Pending, TaskLoop.Loop.Executed;
      ghost var all := owner.Keys;
      ghost var start := LedgerNow();
      var es := owner.Keys;
      posted := [];
      NobodyAsked(all - es);
      while es != {}
        invariant Valid() && OnTime(now) && loop.mutex.Free? && loop.running == old(loop.running)
        invariant es <= all && Asked(all - es) && ClosesOpen(posted) && Posted(start, LedgerNow(), posted)
        decreases es
      {
        var e :| e in es;
        ghost var before := LedgerNow();
        ghost var more := CloseNext(e, all - es, now);
        PostedTwice(start, before, LedgerNow(), posted, more);
        MoreClosesOpen(posted, more);
        posted := posted + more;
        assert all - (es - {e}) == all - es + {e};
        es := es - {e};
      }
      assert all - es == owner.Keys;
    }

    lemma MoreClosesOpen(a: seq<Task>, b: seq<Task>)
      requires Represented() && ClosesOpen(a) && ClosesOpen(b)
      ensures ClosesOpen(a + b)
    {
    }

    lemma NobodyAsked(es: set<Events.Event>)
      requires Valid() && es == {}
      ensures Asked(es) && ClosesOpen([]) && Posted(LedgerNow(), LedgerNow(), [])
    {
      hide Connections, PoolIsOpen, Books, Carried, Posted, LedgerNow, TaskLoop.Loop.Valid, TaskLoop.Loop.Pending,
           TaskLoop.Loop.Executed;
      NothingPosted();
    }

    /** Server.Stop, as far as this loop goes: every open connection is asked to close, and then the flag is
        cleared; it goes on to wait for the loop. A connection whose opening is still queued refuses. */
    method Stop(ghost now: int) returns (ok: bool, ghost posted: seq<Task>, ghost before: seq<EventLoop.Step<Task>>)
      requires Valid() && OnTime(now) && loop.mutex.Free?
      modifies loop
      ensures Valid() && OnTime(now) && loop.mutex.Free? && !loop.running && ok == old(loop.running)
      ensures Asked(owner.Keys) && ClosesOpen(posted) && Posted(old(LedgerNow()), LedgerNow(), posted)
      ensures ok ==> loop.steps == before + [EventLoop.StopSet] && EventLoop.Legal(loop.platform, before)
                     && EventLoop.Run(loop.platform, before).running
                     && EventLoop.Run(loop.platform, before).functions == loop.functions
    {
      hide Connections, PoolIsOpen, Books, Carried, ClosesOpen, Posted, LedgerNow, OnTime, EventLoop.Run,
           EventLoop.Legal, TaskLoop.Loop.Valid, TaskLoop.Loop.Pending, TaskLoop.Loop.Executed;
      ghost var start := LedgerNow();
      posted := CloseAll(now);
      ok := loop.running;
      before := loop.steps + [EventLoop.StopCheck];
      if ok {
        CheckedStill();
      }
      ghost var between := LedgerNow();
      AskToStop();
      PostedTwice(start, between, LedgerNow(), posted, []);
      assert posted + [] == posted;
    }

    lemma CheckedStill()
      requires loop.Valid() && loop.running
      ensures var before := loop.steps + [EventLoop.StopCheck];
              && EventLoop.Legal(loop.platform, before)
              && EventLoop.Run(loop.platform, before).running
              && EventLoop.Run(loop.platform, before).functions == loop.functions
    {
      EventLoop.RunSnoc(loop.platform, loop.steps, EventLoop.StopCheck);
    }

    /** What a Stop carries out: when the loop has returned, a task that was queued or run when the flag was
        cleared has been run if and only if it had been taken out of the queue by then or the loop had yet to
        take the queue in its round; and a close that has been run has closed. */
    lemma StopCarriesOutExactly(before: seq<EventLoop.Step<Task>>, more: seq<EventLoop.Step<Task>>, j: nat)
      requires Valid() && loop.pc == EventLoop.Exited && loop.steps == before + [EventLoop.StopSet] + more
      requires EventLoop.Legal(loop.platform, before) && EventLoop.Run(loop.platform, before).running
      requires j < |EventLoop.Run(loop.platform, before).appended|
      ensures var s := EventLoop.Run(loop.platform, before);
              var task := s.appended[j];
              && (j < |loop.Executed()| <==> j < |EventLoop.Taken(s)| || !EventLoop.QueueTaken(s))
              && (j < |loop.Executed()| ==>
                    loop.Executed()[j] == task && task.conn.handled
                    && (task.CloseTask? ==> task.conn.state == Session.Disconnected))
    {
      hide Connections, PoolIsOpen, Books;
      EventLoop.StopRunsTaskExactly(loop.platform, before, more, j);
    }

    /** Which connections a Stop closes: all that were asked to close, if the loop had yet to take its queue
        when the flag was cleared; and if it had taken it, every close still queued then is never run. */
    lemma StopClosesExactly(before: seq<EventLoop.Step<Task>>, more: seq<EventLoop.Step<Task>>, c: Connect)
      requires Valid() && loop.pc == EventLoop.Exited && loop.steps == before + [EventLoop.StopSet] + more
      requires EventLoop.Legal(loop.platform, before) && EventLoop.Run(loop.platform, before).running
      requires CloseTask(c) in EventLoop.Run(loop.platform, before).functions
      ensures var s := EventLoop.Run(loop.platform, before);
              if EventLoop.QueueTaken(s) then loop.Executed() == EventLoop.Taken(s) && s.functions <= loop.functions
              else CloseTask(c) in loop.Executed() && c.state == Session.Disconnected
    {
      hide Connections, PoolIsOpen, Books, EventLoop.Run, EventLoop.Legal;
      EventLoop.StopLeavesQueued(loop.platform, before, more);
      var s := EventLoop.Run(loop.platform, before);
      if !EventLoop.QueueTaken(s) {
        var k :| 0 <= k < |s.functions| && s.functions[k] == CloseTask(c);
        EventLoop.Invariant(loop.platform, before);
        assert s.appended == EventLoop.Taken(s) + s.functions;
        assert s.appended[|EventLoop.Taken(s)| + k] == CloseTask(c);
        StopCarriesOutExactly(before, more, |EventLoop.Taken(s)| + k);
      }
    }

    /** A connection that has not been opened has no close queued. */
    lemma UnopenedIsNotAsked(e: Events.Event)
      requires Valid() && e in owner && !owner[e].handled
      ensures CloseTask(owner[e]) !in loop.Pending()
    {
      hide Connections, PoolIsOpen, Carried, TaskLoop.Loop.Valid, TaskLoop.Loop.Pending, TaskLoop.Loop.Executed;
      LeadsBack(e);
    }

    /** Which connections a Stop lets open: one whose opening was queued when the flag was cleared is opened,
        exactly if the loop had yet to take its queue. */
    lemma StopOpensExactly(before: seq<EventLoop.Step<Task>>, more: seq<EventLoop.Step<Task>>, c: Connect)
      requires Valid() && loop.pc == EventLoop.Exited && loop.steps == before + [EventLoop.StopSet] + more
      requires EventLoop.Legal(loop.platform, before) && EventLoop.Run(loop.platform, before).running
      requires ConnectTask(c) in EventLoop.Run(loop.platform, before).functions
      ensures c.handled <==> !EventLoop.QueueTaken(EventLoop.Run(loop.platform, before))
    {
      hide Connections, PoolIsOpen, EventLoop.Run, EventLoop.Legal, TaskLoop.Loop.Pending;
      EventLoop.StopLeavesQueued(loop.platform, before, more);
      var s := EventLoop.Run(loop.platform, before);
      var k :| 0 <= k < |s.functions| && s.functions[k] == ConnectTask(c);
      if EventLoop.QueueTaken(s) {
        assert loop.functions[k] == ConnectTask(c);
        loop.QueuedIsPending(k);
      } else {
        EventLoop.Invariant(loop.platform, before);
        assert s.appended[|EventLoop.Taken(s)| + k] == ConnectTask(c);
        StopCarriesOutExactly(before, more, |EventLoop.Taken(s)| + k);
      }
    }

    /** Which connections are open when the loop has returned: those that have been opened, of which no close
        has run; so if one had a close queued when the flag was cleared, the loop had taken its queue by
        then, and if one had its opening queued, the loop had not. */
    lemma OpenAtReturn(before: seq<EventLoop.Step<Task>>, more: seq<EventLoop.Step<Task>>, e: Events.Event)
      requires Valid() && loop.pc == EventLoop.Exited && loop.steps == before + [EventLoop.StopSet] + more
      requires EventLoop.Legal(loop.platform, before) && EventLoop.Run(loop.platform, before).running
      requires e in owner && owner[e].state != Session.Disconnected
      ensures var s := EventLoop.Run(loop.platform, before);
              && CloseTask(owner[e]) !in loop.Executed()
              && (CloseTask(owner[e]) in s.functions ==> EventLoop.QueueTaken(s))
              && (ConnectTask(owner[e]) in s.functions ==> !EventLoop.QueueTaken(s))
    {
      hide PoolIsOpen, Books, EventLoop.Run, EventLoop.Legal, TaskLoop.Loop.Valid, TaskLoop.Loop.Executed;
      var s := EventLoop.Run(loop.platform, before);
      LeadsBack(e);
      if CloseTask(owner[e]) in s.functions && !EventLoop.QueueTaken(s) {
        StopClosesExactly(before, more, owner[e]);
      }
      if ConnectTask(owner[e]) in s.functions {
        StopOpensExactly(before, more, owner[e]);
      }
    }

    lemma OwnersInLedger()
      requires Represented() && loop.Valid()
      ensures LedgerNow().owner == owner && forall e :: e in owner ==> (e in LedgerNow().admitted <==> owner[e].handled)
    {
      hide TaskLoop.Loop.Valid, TaskLoop.Loop.Pending, TaskLoop.Loop.Executed;
    }

    /** Stop before the loop has taken its queue: a connection whose opening is queued then is open when the
        loop has returned, whatever happens meanwhile. */
    method StopAndReturn(c: Connect, now: int)
      requires Valid() && OnTime(now) && loop.mutex.Free? && loop.pc == EventLoop.BeforeSwap
      requires c.event in ToOpen(LedgerNow()) && c.event in owner && owner[c.event] == c
      modifies this`owner, this`repr, loop, repr, ctrl`eventPool, ctrl.multi
      ensures Valid() && loop.pc == EventLoop.Exited && c.event in owner && owner[c.event] == c
      ensures c.state != Session.Disconnected
    {
      hide Connections, PoolIsOpen, Books, Carried, Posted, Passed, LedgerNow, ToOpen, ClosesOpen, Asked, OnTime,
           Handed, EventLoop.Run, EventLoop.Legal, TaskLoop.Loop.Valid, TaskLoop.Loop.Pending,
           TaskLoop.Loop.Executed;
      ghost var a := LedgerNow();
      LoopInLedger();
      OwnersInLedger();
      var ok;
      ghost var posted, before;
      ok, posted, before := Stop(now);
      ghost var b := LedgerNow();
      LoopInLedger();
      ToOpenPosted(a, b, posted);
      posted := RunAllFunctionInLoop(now);
      LoopInLedger();
      OwnersInLedger();
      PassedKeeps(b, posted, LedgerNow());
      var exit := EndPass(now);
      LoopInLedger();
    }

    /** Such as a new one. */
    method OutlivesStop(fd: int, now: int) returns (c: Connect)
      requires Valid() && OnTime(now) && Handed(fd)
      requires loop.mutex.Free? && loop.pc == EventLoop.Waiting && loop.running
      modifies this`owner, this`repr, loop, repr, ctrl`eventPool, ctrl.multi
      ensures Valid() && loop.pc == EventLoop.Exited && c.event in owner && owner[c.event] == c
      ensures c.state != Session.Disconnected
    {
      hide Connections, PoolIsOpen, Books, Carried, Posted, Passed, LedgerNow, ToOpen, OpenNow, ClosesOpen, Asked,
           OnTime, Handed, EventLoop.Run, EventLoop.Legal, TaskLoop.Loop.Valid, TaskLoop.Loop.Pending,
           TaskLoop.Loop.Executed;
      ghost var start := LedgerNow();
      LoopInLedger();
      OwnersInLedger();
      ghost var posted;
      c, posted := NewConnected(fd, now);
      ghost var a := LedgerNow();
      OwnersInLedger();
      NewIsToOpen(start, a, c);
      PostedKeepsPlace(start, a, posted);
      LoopInLedger();
      WaitReturns(now);
      ToOpenElsewhere(a, loop.pc);
      ReadWake(now);
      ToOpenElsewhere(a, loop.pc);
      StopAndReturn(c, now);
    }

    // ---------- What holds of every connection of the loop at any time ----------

    /** A descriptor leads to an event exactly while the connection of that event is open. */
    lemma PoolIsTheOpenOnes(e: Events.Event)
      requires Valid() && e in owner
      ensures e.eventFd in ctrl.eventPool && ctrl.eventPool[e.eventFd] == e <==> owner[e].state != Session.Disconnected
    {
      assert Mine(e, owner[e]);
    }

    /** End to end through the loop: what an open connection has sent and holds back is an interleaving, in
        whole pieces, of the replies to the frames of the stream received, decoded in one go, with data
        passed to WriteInSelfLoop; that data, and then what is still queued, is all that was accepted, in
        order. */
    lemma EndToEndThroughLoop(e: Events.Event) returns (pieces: seq<Session.Piece>)
      requires Valid() && e in owner && owner[e].state != Session.Disconnected && Framing.ChunkSafe(owner[e].app.codec)
      ensures var c := owner[e];
              && c.socket.accepted + c.outBuffer.contents == Session.Joined(pieces)
              && Codec.Usable(c.app.codec)
              && Session.RepliesIn(pieces)
                 == Session.Responses(c.app, Framing.DecodeAll(c.app.codec, c.socket.received).frames)
              && Session.SubmittedIn(pieces) + DataFor(c, loop.Pending()) == c.queued
    {
      var c := owner[e];
      assert Mine(e, c) && Accounts(c, loop.Pending());
      pieces := Session.EndToEndInterleaved(c.app, c.steps);
    }

    /** Idle connections get closed: an open connection with an idle limit has a timer pending, or the close
        it asked for is queued, exactly if its timer had not gone off before the connection was opened. */
    lemma GuardedThroughLoop(e: Events.Event)
      requires Valid() && e in owner && owner[e].state != Session.Disconnected && owner[e].idleTime > 0
      ensures var c := owner[e];
              c.deadline.Some? || (c.Timer().requested.Some? && CloseTask(c) in loop.Pending())
              <==> !c.openedUnguarded
      ensures var c := owner[e];
              c.deadline.Some? ==> c.deadline.value <= c.SoFar().lastActivity + c.idleTime
    {
      hide EventLoop.Run, EventLoop.Legal, Session.Run, Session.Legal;
      var c := owner[e];
      assert Mine(e, c) && Accounts(c, loop.Pending());
      c.GuardedExactlyHere();
      IdleTimer.Invariant(c.idleTime, c.slack, c.start, c.ticks);
    }
  }
}
