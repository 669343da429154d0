/** The objects behind interest registration and dispatch: the two multiplexers, the registered
    events and the pool that maps a descriptor to its event. */
module Events {
  import opened Prelude
  import opened Interest

  /** The multiplexer is built either from net/multiplex/kqueue.go or from net/multiplex/epoll.go. */
  datatype Platform = Kqueue | Epoll

  class Multiplex {
    const platform: Platform
    var knotes: Knotes       // kqueue: the registrations held by the kernel
    var changes: seq<Change> // kqueue: the changes it has not been told yet
    var masks: Masks         // epoll: the masks held by the kernel

    constructor (platform: Platform)
      ensures this.platform == platform && knotes == {} && changes == [] && masks == map[]
    {
      this.platform := platform;
      knotes, changes, masks := {}, [], map[];
    }

    /** The kernel, once told of the pending changes, reports the filter. */
    predicate Holds(fd: int, f: Filter)
      reads this
    {
      match platform
      case Kqueue => (fd, f) in ApplyChanges(knotes, changes)
      case Epoll => fd in masks && MaskWants(masks[fd], f)
    }

    /** The kernel accepts modifications for the descriptor. */
    predicate Knows(fd: int)
      reads this
    {
      platform == Epoll ==> fd in masks
    }

    /** What the kernel has of all descriptors but one. */
    ghost function Elsewhere(fd: int): (iset<(int, Filter)>, iset<int>)
      reads this
    {
      (iset r: (int, Filter) | r.0 != fd && Holds(r.0, r.1), iset g: int | g != fd && Knows(g))
    }

    /** Other descriptors keep what they had. */
    twostate predicate OthersHeld(fd: int)
      reads this
    {
      Elsewhere(fd) == old(Elsewhere(fd))
    }

    twostate lemma OnlyHere(fd: int)
      requires forall g, f :: g != fd ==> (Holds(g, f) <==> old(Holds(g, f)))
      requires forall g :: g != fd ==> (Knows(g) <==> old(Knows(g)))
      ensures OthersHeld(fd)
    {
      assert Elsewhere(fd).0 == old(Elsewhere(fd)).0;
      assert Elsewhere(fd).1 == old(Elsewhere(fd)).1;
    }

    method AddEvent(fd: int, eventState: EventType, oldEventState: EventType)
      requires forall f :: !Holds(fd, f)
      modifies this
      ensures Knows(fd)
      ensures forall f :: Holds(fd, f) <==> Wants(eventState, f)
      ensures OthersHeld(fd)
    {
      ghost var k := ApplyChanges(knotes, changes);
      if platform == Kqueue {
        assert forall f :: (fd, f) !in k by {
          assert forall f :: (fd, f) in k <==> Holds(fd, f);
        }
        QueueDiff(fd, EVENT_NONE, eventState);
        assert forall f :: !Wants(EVENT_NONE, f);
      } else {
        masks := masks[fd := GetEpollEventsFromIOEvent(eventState)];
        MaskMeans(eventState);
      }
      OnlyHere(fd);
    }

    /** The diff starts from what is held, so the new mask is what is held afterwards. */
    method ModifyEvent(fd: int, eventState: EventType, oldEventState: EventType)
      requires Knows(fd)
      requires forall f :: Holds(fd, f) <==> Wants(oldEventState, f)
      modifies this
      ensures Knows(fd)
      ensures forall f :: Holds(fd, f) <==> Wants(eventState, f)
      ensures OthersHeld(fd)
    {
      ghost var k := ApplyChanges(knotes, changes);
      if platform == Kqueue {
        assert forall f :: (fd, f) in k <==> Wants(oldEventState, f) by {
          assert forall f :: (fd, f) in k <==> Holds(fd, f);
        }
        QueueDiff(fd, oldEventState, eventState);
      } else {
        masks := EpollModify(masks, fd, eventState);
        MaskMeans(eventState);
      }
      OnlyHere(fd);
    }

    /** Removing forgets the filters of the previous mask; epoll forgets the descriptor. Whatever else
        kqueue still held stays held. */
    method RemoveEvent(fd: int, oldEventState: EventType)
      modifies this
      ensures forall f :: Holds(fd, f) <==> platform == Kqueue && old(Holds(fd, f)) && !Wants(oldEventState, f)
      ensures OthersHeld(fd)
    {
      ghost var k := ApplyChanges(knotes, changes);
      if platform == Kqueue {
        assert forall f :: (fd, f) in k <==> Holds(fd, f);
        QueueDiff(fd, oldEventState, EVENT_NONE);
        assert forall f :: !Wants(EVENT_NONE, f);
      } else {
        masks := masks - {fd};
      }
      OnlyHere(fd);
    }

    /** Append the diff of two masks to the change list. */
    method QueueDiff(fd: int, was: EventType, now: EventType)
      requires platform == Kqueue
      modifies this`changes
      ensures changes == old(changes) + KEvents(was, now, fd)
      ensures forall g, f :: Holds(g, f)
                             <==> if g == fd && Wants(was, f) != Wants(now, f) then Wants(now, f)
                                  else (g, f) in old(ApplyChanges(knotes, changes))
    {
      ghost var k := ApplyChanges(knotes, changes);
      ApplyAppend(knotes, changes, KEvents(was, now, fd));
      changes := changes + KEvents(was, now, fd);
      forall g, f
        ensures Holds(g, f) <==> if g == fd && Wants(was, f) != Wants(now, f) then Wants(now, f) else (g, f) in k {
        DiffMeans(k, was, now, fd, g, f);
      }
    }

    /** The Kevent call of WaitEvent. It may fail after taking some of the changes, and then the list
        is kept; what is held in the end is the same. */
    method Flush() returns (ok: bool)
      modifies this
      ensures changes == if ok then [] else old(changes)
      ensures forall fd, f :: Holds(fd, f) <==> old(Holds(fd, f))
      ensures masks == old(masks)
    {
      if * {
        knotes := ApplyChanges(knotes, changes);
        changes := [];
        ok := true;
      } else {
        var taken :| 0 <= taken <= |changes|;
        RetryIsHarmless(knotes, changes, taken);
        knotes := ApplyChanges(knotes, changes[..taken]);
        ok := false;
      }
    }
  }

  // ---------- Events and the pool ----------

  datatype Handler = OnClose | OnError | OnWrite | OnRead

  /** The one handler HandleEvent picks. */
  function Chosen(revents: EventType): Option<Handler> {
    if revents & EVENT_CLOSE != 0 then Some(OnClose)
    else if revents & EVENT_ERR != 0 then Some(OnError)
    else if revents & EVENT_WRITE != 0 then Some(OnWrite)
    else if revents & EVENT_READ != 0 then Some(OnRead)
    else None
  }

  lemma ReadingMask(e: EventType, on: bool)
    ensures var m := if on then e | EVENT_READ else e & !EVENT_READ;
            && (m & EVENT_READ != EVENT_NONE) == on
            && (m & EVENT_WRITE != EVENT_NONE) == (e & EVENT_WRITE != EVENT_NONE)
            && (m & EVENT_ERR != 0) == (e & EVENT_ERR != 0)
  {
  }

  lemma WritingMask(e: EventType, on: bool)
    ensures var m := if on then e | EVENT_WRITE else e & !EVENT_WRITE;
            && (m & EVENT_WRITE != EVENT_NONE) == on
            && (m & EVENT_READ != EVENT_NONE) == (e & EVENT_READ != EVENT_NONE)
            && (m & EVENT_ERR != 0) == (e & EVENT_ERR != 0)
  {
  }

  lemma ErrorMask(e: EventType, on: bool)
    ensures var m := if on then e | EVENT_ERR else e & !EVENT_ERR;
            && (m & EVENT_ERR != 0) == on
            && (m & EVENT_WRITE != EVENT_NONE) == (e & EVENT_WRITE != EVENT_NONE)
            && (m & EVENT_READ != EVENT_NONE) == (e & EVENT_READ != EVENT_NONE)
  {
  }

  class Event {
    const eventFd: int
    const ctrl: EventCtrl
    var events: EventType
    var oldEvents: EventType

    constructor (ctrl: EventCtrl, eventFd: int)
      ensures this.ctrl == ctrl && this.eventFd == eventFd
      ensures events == EVENT_NONE && oldEvents == EVENT_NONE
    {
      this.ctrl, this.eventFd := ctrl, eventFd;
      events, oldEvents := EVENT_NONE, EVENT_NONE;
    }

    predicate IsReading()
      reads this
    {
      events & EVENT_READ != EVENT_NONE
    }

    predicate IsWriting()
      reads this
    {
      events & EVENT_WRITE != EVENT_NONE
    }

    /** In the pool, and the kernel holds exactly the interest of the current mask. */
    ghost predicate Registered()
      reads this, ctrl, ctrl.multi
    {
      && eventFd in ctrl.eventPool && ctrl.eventPool[eventFd] == this
      && ctrl.multi.Knows(eventFd)
      && forall f :: ctrl.multi.Holds(eventFd, f) <==> Wants(events, f)
    }

    /** Nothing left in the pool or in the kernel for this descriptor. */
    ghost predicate Gone()
      reads this, ctrl, ctrl.multi
    {
      && eventFd !in ctrl.eventPool
      && forall f :: !ctrl.multi.Holds(eventFd, f)
    }

    method Register()
      requires Gone()
      modifies ctrl`eventPool, ctrl.multi
      ensures Registered()
      ensures ctrl.eventPool == old(ctrl.eventPool)[eventFd := this]
      ensures ctrl.OthersKept(eventFd)
    {
      ctrl.eventPool := ctrl.eventPool[eventFd := this];
      ctrl.multi.AddEvent(eventFd, events, oldEvents);
    }

    /** The kernel is left with the filters of the current mask that the previous mask lacks. */
    method UnRegister()
      requires Registered()
      modifies ctrl`eventPool, ctrl.multi
      ensures ctrl.eventPool == old(ctrl.eventPool) - {eventFd}
      ensures forall f :: ctrl.multi.Holds(eventFd, f)
                          <==> ctrl.multi.platform == Kqueue && Wants(events, f) && !Wants(oldEvents, f)
      ensures events == EVENT_NONE ==> Gone()
      ensures ctrl.OthersKept(eventFd)
    {
      ctrl.eventPool := ctrl.eventPool - {eventFd};
      ctrl.multi.RemoveEvent(eventFd, oldEvents);
      assert forall f :: !Wants(EVENT_NONE, f);
    }

    method Update(ghost op: Op, mask: EventType)
      requires Registered()
      requires mask == NewMask(events, op)
      modifies this, ctrl.multi
      ensures Registered() && events == mask && oldEvents == old(events)
      ensures ctrl.OthersKept(eventFd)
    {
      oldEvents := events;
      events := mask;
      ctrl.multi.ModifyEvent(eventFd, events, oldEvents);
    }

    method EnableReading(isEnable: bool)
      requires Registered()
      modifies this, ctrl.multi
      ensures Registered() && oldEvents == old(events)
      ensures IsReading() == isEnable && IsWriting() == old(IsWriting())
      ensures WantsErrors(events) == WantsErrors(old(events))
      ensures ctrl.OthersKept(eventFd)
    {
      hide Registered, EventCtrl.OthersKept, Wants;
      ReadingMask(events, isEnable);
      Update(SetReading(isEnable), if isEnable then events | EVENT_READ else events & !EVENT_READ);
    }

    method EnableWriting(isEnable: bool)
      requires Registered()
      modifies this, ctrl.multi
      ensures Registered() && oldEvents == old(events)
      ensures IsWriting() == isEnable && IsReading() == old(IsReading())
      ensures WantsErrors(events) == WantsErrors(old(events))
      ensures ctrl.OthersKept(eventFd)
    {
      hide Registered, EventCtrl.OthersKept, Wants;
      WritingMask(events, isEnable);
      Update(SetWriting(isEnable), if isEnable then events | EVENT_WRITE else events & !EVENT_WRITE);
    }

    method EnableErrorEvent(isEnable: bool)
      requires Registered()
      modifies this, ctrl.multi
      ensures Registered() && oldEvents == old(events)
      ensures WantsErrors(events) == isEnable
      ensures IsReading() == old(IsReading()) && IsWriting() == old(IsWriting())
      ensures ctrl.OthersKept(eventFd)
    {
      hide Registered, EventCtrl.OthersKept, Wants;
      ErrorMask(events, isEnable);
      Update(SetError(isEnable), if isEnable then events | EVENT_ERR else events & !EVENT_ERR);
    }

    method DisableAll()
      requires Registered()
      modifies this, ctrl.multi
      ensures Registered() && events == EVENT_NONE && oldEvents == old(events)
      ensures ctrl.OthersKept(eventFd)
    {
      Update(Op.DisableAll, EVENT_NONE);
    }
  }

  /** DisableAll and then UnRegister, the order in which the closing code calls them. */
  method Retire(event: Event)
    requires event.Registered()
    modifies event, event.ctrl`eventPool, event.ctrl.multi
    ensures event.Gone() && event.ctrl.eventPool == old(event.ctrl.eventPool) - {event.eventFd}
    ensures event.ctrl.OthersKept(event.eventFd)
  {
    event.DisableAll();
    event.UnRegister();
  }

  class EventCtrl {
    var eventPool: map<int, Event>
    const multi: Multiplex

    constructor (multi: Multiplex)
      ensures this.multi == multi && eventPool == map[]
    {
      this.multi := multi;
      eventPool := map[];
    }

    /** No descriptor but this one is affected. */
    twostate predicate OthersKept(fd: int)
      reads this, multi
    {
      eventPool - {fd} == old(eventPool) - {fd} && multi.OthersHeld(fd)
    }
  }

  // ---------- From the kernel's report to the handler ----------

  const POLLHUP: bv32 := 0x10
  const EPOLLRDHUP: bv32 := 0x2000

  /** The translation in the WaitEvent of epoll. */
  function EpollReady(e: bv32): EventType {
    (if e & POLLHUP != 0 && e & EPOLLIN == 0 then EVENT_CLOSE else 0)
    | (if e & EPOLLERR != 0 then EVENT_ERR else 0)
    | (if e & (EPOLLIN | EPOLLPRI | EPOLLRDHUP) != 0 then EVENT_READ else 0)
    | (if e & EPOLLOUT != 0 then EVENT_WRITE else 0)
  }

  /** The translation in the WaitEvent of kqueue; broken: EV_ERROR or EV_EOF is set. */
  function KqueueReady(broken: bool, filter: Filter): EventType {
    (if broken then EVENT_ERR else 0) | (if filter == ReadFilter then EVENT_READ else EVENT_WRITE)
  }

  function Bits(close: bool, err: bool, read: bool, write: bool): EventType {
    (if close then EVENT_CLOSE else 0) | (if err then EVENT_ERR else 0)
    | (if read then EVENT_READ else 0) | (if write then EVENT_WRITE else 0)
  }

  lemma ChosenOfBits(close: bool, err: bool, read: bool, write: bool)
    ensures Chosen(Bits(close, err, read, write))
            == if close then Some(OnClose) else if err then Some(OnError)
               else if write then Some(OnWrite) else if read then Some(OnRead) else None
  {
  }

  /** On both platforms output goes first: the read handler runs only when there is nothing to write
      and nothing wrong. A hang-up with input pending is read, not closed, on epoll; kqueue turns every
      end of file into an error. */
  lemma WhoRuns(e: bv32, broken: bool, filter: Filter)
    ensures Chosen(EpollReady(e))
            == if e & POLLHUP != 0 && e & EPOLLIN == 0 then Some(OnClose)
               else if e & EPOLLERR != 0 then Some(OnError)
               else if e & EPOLLOUT != 0 then Some(OnWrite)
               else if e & (EPOLLIN | EPOLLPRI | EPOLLRDHUP) != 0 then Some(OnRead)
               else None
    ensures Chosen(KqueueReady(broken, filter))
            == if broken then Some(OnError) else if filter == WriteFilter then Some(OnWrite) else Some(OnRead)
  {
    ChosenOfBits(e & POLLHUP != 0 && e & EPOLLIN == 0, e & EPOLLERR != 0,
                 e & (EPOLLIN | EPOLLPRI | EPOLLRDHUP) != 0, e & EPOLLOUT != 0);
    ChosenOfBits(false, broken, filter == ReadFilter, filter == WriteFilter);
  }
}
