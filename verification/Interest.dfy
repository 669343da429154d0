/** Interest registration: the event masks of net/event_loop/event.go and the two ways of handing
    them to the kernel, as functions and as a machine that drives both at once. */
module Interest {
  type EventType = bv32

  const EVENT_NONE: EventType := 0
  const EVENT_READ: EventType := 0x1
  const EVENT_WRITE: EventType := 0x2
  const EVENT_ERR: EventType := 0x80
  const EVENT_CLOSE: EventType := 0x100

  datatype Filter = ReadFilter | WriteFilter

  /** The mask asks for the filter. */
  predicate Wants(events: EventType, f: Filter) {
    match f
    case ReadFilter => events & EVENT_READ != 0
    case WriteFilter => events & EVENT_WRITE != 0
  }

  // ---------- kqueue: a diff of two masks, queued until the next wait ----------

  /** One entry of the change list: EV_ADD or EV_DELETE of a filter on a descriptor. */
  datatype Change = Change(fd: int, filter: Filter, add: bool)

  /** The registrations held by the kernel queue. */
  type Knotes = set<(int, Filter)>

  /** The change, if any, that takes a filter from one setting to another. */
  function FilterDiff(was: bool, now: bool, fd: int, f: Filter): seq<Change> {
    if was == now then [] else [Change(fd, f, now)]
  }

  function KEvents(was: EventType, now: EventType, fd: int): seq<Change> {
    FilterDiff(Wants(was, ReadFilter), Wants(now, ReadFilter), fd, ReadFilter)
    + FilterDiff(Wants(was, WriteFilter), Wants(now, WriteFilter), fd, WriteFilter)
  }

  /** The kernel takes one change; deleting what is not there changes nothing. */
  function ApplyChange(k: Knotes, c: Change): Knotes {
    if c.add then k + {(c.fd, c.filter)} else k - {(c.fd, c.filter)}
  }

  function ApplyChanges(k: Knotes, cs: seq<Change>): Knotes {
    if cs == [] then k else ApplyChange(ApplyChanges(k, cs[..|cs| - 1]), cs[|cs| - 1])
  }

  lemma {:induction false} ApplyAppend(k: Knotes, a: seq<Change>, b: seq<Change>)
    ensures ApplyChanges(k, a + b) == ApplyChanges(ApplyChanges(k, a), b)
  {
    if b == [] {
      assert a + b == a;
    } else {
      assert (a + b)[..|a + b| - 1] == a + b[..|b| - 1];
      ApplyAppend(k, a, b[..|b| - 1]);
    }
  }

  /** The fate of one registration: the last change that names it, or what the kernel held. */
  function Decided(held: bool, fd: int, f: Filter, cs: seq<Change>): bool {
    if cs == [] then held
    else
      var c := cs[|cs| - 1];
      if c.fd == fd && c.filter == f then c.add else Decided(held, fd, f, cs[..|cs| - 1])
  }

  lemma {:induction false} LastChangeDecides(k: Knotes, cs: seq<Change>, fd: int, f: Filter)
    ensures (fd, f) in ApplyChanges(k, cs) <==> Decided((fd, f) in k, fd, f, cs)
  {
    if cs != [] {
      LastChangeDecides(k, cs[..|cs| - 1], fd, f);
    }
  }

  lemma {:induction false} DecidedTwice(held: bool, fd: int, f: Filter, cs: seq<Change>, n: nat)
    requires n <= |cs|
    ensures Decided(Decided(held, fd, f, cs[..n]), fd, f, cs) == Decided(held, fd, f, cs)
    decreases |cs|
  {
    if cs != [] {
      var init := cs[..|cs| - 1];
      if n < |cs| {
        assert init[..n] == cs[..n];
        DecidedTwice(held, fd, f, init, n);
      } else {
        assert cs[..n] == cs;
        assert init[..|init|] == init;
        DecidedTwice(held, fd, f, init, |init|);
      }
    }
  }

  /** A failed wait keeps its change list, so changes the kernel already took are handed over again;
      the second time makes no difference. */
  lemma RetryIsHarmless(k: Knotes, cs: seq<Change>, n: nat)
    requires n <= |cs|
    ensures ApplyChanges(ApplyChanges(k, cs[..n]), cs) == ApplyChanges(k, cs)
  {
    var once, again := ApplyChanges(k, cs), ApplyChanges(ApplyChanges(k, cs[..n]), cs);
    forall fd, f ensures (fd, f) in again <==> (fd, f) in once {
      LastChangeDecides(k, cs, fd, f);
      LastChangeDecides(k, cs[..n], fd, f);
      LastChangeDecides(ApplyChanges(k, cs[..n]), cs, fd, f);
      DecidedTwice((fd, f) in k, fd, f, cs, n);
    }
    forall r ensures r in again <==> r in once {
      assert r == (r.0, r.1);
    }
  }

  /** What a diff does to the queue: on its own descriptor a filter follows the new mask where the
      masks differ and is left alone where they agree; other descriptors are left alone. */
  lemma DiffMeans(k: Knotes, was: EventType, now: EventType, fd: int, g: int, f: Filter)
    ensures (g, f) in ApplyChanges(k, KEvents(was, now, fd))
            <==> if g == fd && Wants(was, f) != Wants(now, f) then Wants(now, f) else (g, f) in k
  {
    TwoDiffs(k, Wants(was, ReadFilter), Wants(now, ReadFilter), Wants(was, WriteFilter), Wants(now, WriteFilter),
             fd, g, f);
  }

  lemma TwoDiffs(k: Knotes, wasR: bool, nowR: bool, wasW: bool, nowW: bool, fd: int, g: int, f: Filter)
    ensures var was, now := if f == ReadFilter then wasR else wasW, if f == ReadFilter then nowR else nowW;
            (g, f) in ApplyChanges(k, FilterDiff(wasR, nowR, fd, ReadFilter) + FilterDiff(wasW, nowW, fd, WriteFilter))
            <==> if g == fd && was != now then now else (g, f) in k
  {
    var r, w := FilterDiff(wasR, nowR, fd, ReadFilter), FilterDiff(wasW, nowW, fd, WriteFilter);
    ApplyAppend(k, r, w);
    OneDiff(k, wasR, nowR, fd, ReadFilter);
    OneDiff(ApplyChanges(k, r), wasW, nowW, fd, WriteFilter);
  }

  lemma OneDiff(k: Knotes, was: bool, now: bool, fd: int, f: Filter)
    ensures ApplyChanges(k, FilterDiff(was, now, fd, f))
            == if was == now then k else if now then k + {(fd, f)} else k - {(fd, f)}
  {
    var d := FilterDiff(was, now, fd, f);
    if d != [] {
      assert d[..0] == [];
    }
  }

  // ---------- epoll: the whole mask, at once ----------

  const EPOLLIN: bv32 := 0x1
  const EPOLLPRI: bv32 := 0x2
  const EPOLLOUT: bv32 := 0x4
  const EPOLLERR: bv32 := 0x8

  /** The masks held by the kernel. */
  type Masks = map<int, bv32>

  function GetEpollEventsFromIOEvent(e: EventType): bv32 {
    (if e & EVENT_ERR != 0 then EPOLLERR else 0)
    | (if e & EVENT_READ != 0 then EPOLLIN | EPOLLPRI else 0)
    | (if e & EVENT_WRITE != 0 then EPOLLOUT else 0)
  }

  /** The mask has the kernel report the filter. */
  predicate MaskWants(mask: bv32, f: Filter) {
    if f == ReadFilter then mask & EPOLLIN != 0 else mask & EPOLLOUT != 0
  }

  /** The encoding keeps exactly the three bits it knows. */
  lemma MaskMeans(e: EventType)
    ensures forall f :: MaskWants(GetEpollEventsFromIOEvent(e), f) <==> Wants(e, f)
    ensures GetEpollEventsFromIOEvent(e) & EPOLLERR != 0 <==> e & EVENT_ERR != 0
    ensures GetEpollEventsFromIOEvent(e) & EPOLLPRI != 0 <==> Wants(e, ReadFilter)
  {
    var r: bv32 := if e & EVENT_READ != 0 then EPOLLIN | EPOLLPRI else 0;
    var w: bv32 := if e & EVENT_WRITE != 0 then EPOLLOUT else 0;
    var x: bv32 := if e & EVENT_ERR != 0 then EPOLLERR else 0;
    assert r == 0 || r == 3;
    assert w == 0 || w == 4;
    assert x == 0 || x == 8;
  }

  /** EPOLL_CTL_MOD on a descriptor that was never added fails and changes nothing. */
  function EpollModify(m: Masks, fd: int, e: EventType): Masks {
    if fd in m then m[fd := GetEpollEventsFromIOEvent(e)] else m
  }

  // ---------- The event's own masks ----------

  datatype Op = SetReading(on: bool) | SetWriting(on: bool) | SetError(on: bool) | DisableAll

  function SetBit(e: EventType, bit: EventType, on: bool): EventType {
    if on then e | bit else e & !bit
  }

  function NewMask(e: EventType, op: Op): EventType {
    match op
    case SetReading(on) => SetBit(e, EVENT_READ, on)
    case SetWriting(on) => SetBit(e, EVENT_WRITE, on)
    case SetError(on) => SetBit(e, EVENT_ERR, on)
    case DisableAll => EVENT_NONE
  }

  /** What a call makes of one filter's bit: each moves its own bit and no other. */
  function NewBit(op: Op, f: Filter, before: bool): bool {
    match op
    case SetReading(on) => if f == ReadFilter then on else before
    case SetWriting(on) => if f == WriteFilter then on else before
    case SetError(_) => before
    case DisableAll => false
  }

  lemma ReadingMeans(e: EventType, on: bool)
    ensures Wants(NewMask(e, SetReading(on)), ReadFilter) == on
    ensures Wants(NewMask(e, SetReading(on)), WriteFilter) == Wants(e, WriteFilter)
    ensures WantsErrors(NewMask(e, SetReading(on))) == WantsErrors(e)
  {
    assert NewMask(e, SetReading(on)) & EVENT_ERR == e & EVENT_ERR;
    assert NewMask(e, SetReading(on)) & EVENT_WRITE == e & EVENT_WRITE;
  }

  lemma WritingMeans(e: EventType, on: bool)
    ensures Wants(NewMask(e, SetWriting(on)), WriteFilter) == on
    ensures Wants(NewMask(e, SetWriting(on)), ReadFilter) == Wants(e, ReadFilter)
    ensures WantsErrors(NewMask(e, SetWriting(on))) == WantsErrors(e)
  {
    assert NewMask(e, SetWriting(on)) & EVENT_ERR == e & EVENT_ERR;
    assert NewMask(e, SetWriting(on)) & EVENT_READ == e & EVENT_READ;
  }

  /** The mask asks for errors, which the kernel reports in any case. */
  predicate WantsErrors(events: EventType) {
    events & EVENT_ERR != 0
  }

  lemma ErrorMeans(e: EventType, on: bool)
    ensures Wants(NewMask(e, SetError(on)), ReadFilter) == Wants(e, ReadFilter)
    ensures Wants(NewMask(e, SetError(on)), WriteFilter) == Wants(e, WriteFilter)
    ensures WantsErrors(NewMask(e, SetError(on))) == on
  {
    assert NewMask(e, SetError(on)) & EVENT_READ == e & EVENT_READ;
    assert NewMask(e, SetError(on)) & EVENT_WRITE == e & EVENT_WRITE;
  }

  lemma NothingWanted(f: Filter)
    ensures !Wants(EVENT_NONE, f)
  {
  }

  /** Each call moves its own bit and no other. */
  lemma OpMeans(e: EventType, op: Op, f: Filter)
    ensures Wants(NewMask(e, op), f) == NewBit(op, f, Wants(e, f))
    ensures WantsErrors(NewMask(e, op))
            == match op
               case SetError(on) => on
               case DisableAll => false
               case _ => WantsErrors(e)
  {
    match op
    case SetReading(on) => ReadingMeans(e, on);
    case SetWriting(on) => WritingMeans(e, on);
    case SetError(on) => ErrorMeans(e, on);
    case DisableAll => NothingWanted(f);
  }

  // ---------- Both backends side by side ----------

  /** A registered event: its current and its previous mask. */
  datatype Registered = Registered(events: EventType, oldEvents: EventType)

  datatype World = World(
    pool: map<int, Registered>,
    knotes: Knotes,          // kqueue: what the kernel holds
    changes: seq<Change>,    // kqueue: what it has not been told yet
    masks: Masks)            // epoll

  datatype Action =
    | Register(fd: int)
    | Update(fd: int, op: Op)
    | UnRegister(fd: int)
    | Flush              // Kevent took the whole list: success or EINTR
    | FailedFlush(n: nat) // Kevent failed after n changes; the list is kept

  predicate Allowed(w: World, a: Action) {
    match a
    case Register(fd) => fd !in w.pool
    case Update(fd, _) => fd in w.pool
    case UnRegister(fd) => fd in w.pool
    case Flush => true
    case FailedFlush(n) => n <= |w.changes|
  }

  /** The new mask goes to the event, the change list and the epoll instance. */
  function SetMask(w: World, fd: int, mask: EventType): World
    requires fd in w.pool
  {
    w.(pool := w.pool[fd := Registered(mask, w.pool[fd].events)],
       changes := w.changes + KEvents(w.pool[fd].events, mask, fd),
       masks := EpollModify(w.masks, fd, mask))
  }

  function Do(w: World, a: Action): World
    requires Allowed(w, a)
  {
    match a
    case Register(fd) =>
      w.(pool := w.pool[fd := Registered(EVENT_NONE, EVENT_NONE)],
         changes := w.changes + KEvents(EVENT_NONE, EVENT_NONE, fd),
         masks := w.masks[fd := GetEpollEventsFromIOEvent(EVENT_NONE)])
    case Update(fd, op) =>
      SetMask(w, fd, NewMask(w.pool[fd].events, op))
    case UnRegister(fd) =>
      w.(pool := w.pool - {fd},
         changes := w.changes + KEvents(w.pool[fd].oldEvents, EVENT_NONE, fd),
         masks := w.masks - {fd})
    case Flush => w.(knotes := ApplyChanges(w.knotes, w.changes), changes := [])
    case FailedFlush(n) => w.(knotes := ApplyChanges(w.knotes, w.changes[..n]))
  }

  function Empty(): World {
    World(map[], {}, [], map[])
  }

  predicate History(actions: seq<Action>)
    decreases |actions|, 0
  {
    actions == []
    || (History(actions[..|actions| - 1])
        && Allowed(After(actions[..|actions| - 1]), actions[|actions| - 1]))
  }

  function After(actions: seq<Action>): World
    requires History(actions)
    decreases |actions|, 1
  {
    if actions == [] then Empty()
    else Do(After(actions[..|actions| - 1]), actions[|actions| - 1])
  }

  /** What the application asked for. */
  predicate Asked(w: World, fd: int, f: Filter) {
    fd in w.pool && Wants(w.pool[fd].events, f)
  }

  /** What kqueue will report once it has the pending changes. */
  predicate KqueueHolds(w: World, fd: int, f: Filter) {
    (fd, f) in ApplyChanges(w.knotes, w.changes)
  }

  /** What epoll reports. */
  predicate EpollHolds(w: World, fd: int, f: Filter) {
    fd in w.masks && MaskWants(w.masks[fd], f)
  }

  /** All three sides give the same answer for one filter of one descriptor. */
  predicate AgreeOn(w: World, fd: int, f: Filter) {
    KqueueHolds(w, fd, f) == Asked(w, fd, f) == EpollHolds(w, fd, f)
  }

  ghost predicate Agree(w: World) {
    && w.masks.Keys == w.pool.Keys
    && forall fd, f :: AgreeOn(w, fd, f)
  }

  /** Queueing one more diff that starts from the mask kqueue already holds. */
  lemma Queued(w: World, fd: int, was: EventType, now: EventType, g: int, f: Filter)
    requires g == fd ==> (KqueueHolds(w, fd, f) <==> Wants(was, f)) || (!KqueueHolds(w, fd, f) && !Wants(now, f))
    ensures (g, f) in ApplyChanges(w.knotes, w.changes + KEvents(was, now, fd))
            <==> if g == fd then Wants(now, f) else KqueueHolds(w, g, f)
  {
    ApplyAppend(w.knotes, w.changes, KEvents(was, now, fd));
    DiffMeans(ApplyChanges(w.knotes, w.changes), was, now, fd, g, f);
  }

  lemma RegisterAgrees(w: World, fd: int, g: int, f: Filter)
    requires fd !in w.pool && AgreeOn(w, g, f)
    ensures AgreeOn(Do(w, Register(fd)), g, f)
  {
    NothingWanted(f);
    Queued(w, fd, EVENT_NONE, EVENT_NONE, g, f);
    MaskMeans(EVENT_NONE);
  }

  lemma KqueueFollows(w: World, fd: int, mask: EventType, g: int, f: Filter)
    requires fd in w.pool && KqueueHolds(w, g, f) == Asked(w, g, f)
    ensures KqueueHolds(SetMask(w, fd, mask), g, f) == Asked(SetMask(w, fd, mask), g, f)
  {
    Queued(w, fd, w.pool[fd].events, mask, g, f);
  }

  lemma EpollFollows(w: World, fd: int, mask: EventType, g: int, f: Filter)
    requires fd in w.pool && fd in w.masks && EpollHolds(w, g, f) == Asked(w, g, f)
    ensures EpollHolds(SetMask(w, fd, mask), g, f) == Asked(SetMask(w, fd, mask), g, f)
  {
    MaskMeans(mask);
    assert MaskWants(GetEpollEventsFromIOEvent(mask), f) == Wants(mask, f);
  }

  /** UnRegister deletes what the previous mask asked for: that covers the current mask. */
  predicate Covered(r: Registered) {
    && (Wants(r.events, ReadFilter) ==> Wants(r.oldEvents, ReadFilter))
    && (Wants(r.events, WriteFilter) ==> Wants(r.oldEvents, WriteFilter))
  }

  /** The action leaves nothing behind. */
  predicate Clean(w: World, a: Action)
    requires Allowed(w, a)
  {
    a.UnRegister? ==> Covered(w.pool[a.fd])
  }

  /** What UnRegister leaves of one filter. */
  lemma UnRegisterMeans(w: World, fd: int, g: int, f: Filter)
    requires fd in w.pool && AgreeOn(w, g, f)
    ensures var w' := Do(w, UnRegister(fd));
            && EpollHolds(w', g, f) == Asked(w', g, f)
            && (g != fd ==> KqueueHolds(w', g, f) == Asked(w', g, f))
            && (g == fd ==> !Asked(w', g, f)
                            && (KqueueHolds(w', g, f)
                                <==> Wants(w.pool[fd].events, f) && !Wants(w.pool[fd].oldEvents, f)))
  {
    var r := w.pool[fd];
    NothingWanted(f);
    ApplyAppend(w.knotes, w.changes, KEvents(r.oldEvents, EVENT_NONE, fd));
    DiffMeans(ApplyChanges(w.knotes, w.changes), r.oldEvents, EVENT_NONE, fd, g, f);
  }

  lemma AgreeStep(w: World, a: Action)
    requires Agree(w) && Allowed(w, a) && Clean(w, a)
    ensures Agree(Do(w, a))
  {
    forall g, f ensures AgreeOn(Do(w, a), g, f) {
      match a
      case Register(fd) => RegisterAgrees(w, fd, g, f);
      case Update(fd, op) =>
        assert AgreeOn(w, g, f);
        KqueueFollows(w, fd, NewMask(w.pool[fd].events, op), g, f);
        EpollFollows(w, fd, NewMask(w.pool[fd].events, op), g, f);
      case UnRegister(fd) => UnRegisterMeans(w, fd, g, f);
      case Flush => assert AgreeOn(w, g, f);
      case FailedFlush(n) =>
        RetryIsHarmless(w.knotes, w.changes, n);
        assert AgreeOn(w, g, f);
    }
  }

  /** An UnRegister that is not clean breaks the agreement there and then. */
  lemma DirtyStep(w: World, fd: int)
    requires Agree(w) && fd in w.pool && !Covered(w.pool[fd])
    ensures !Agree(Do(w, UnRegister(fd)))
  {
    var f := if Wants(w.pool[fd].events, ReadFilter) && !Wants(w.pool[fd].oldEvents, ReadFilter) then ReadFilter
             else WriteFilter;
    assert AgreeOn(w, fd, f);
    UnRegisterMeans(w, fd, fd, f);
    assert !AgreeOn(Do(w, UnRegister(fd)), fd, f);
  }

  predicate CleanHistory(actions: seq<Action>)
    requires History(actions)
  {
    actions == []
    || (CleanHistory(actions[..|actions| - 1])
        && Clean(After(actions[..|actions| - 1]), actions[|actions| - 1]))
  }

  /** After any history of registrations, updates, clean unregistrations and waits, failed ones
      included, both kernels hold exactly the interest the events ask for. */
  lemma {:induction false} BackendsAgree(actions: seq<Action>)
    requires History(actions) && CleanHistory(actions)
    ensures Agree(After(actions))
  {
    if actions != [] {
      BackendsAgree(actions[..|actions| - 1]);
      AgreeStep(After(actions[..|actions| - 1]), actions[|actions| - 1]);
    }
  }

  /** The two sides have agreed all the time. */
  ghost predicate AlwaysAgreed(actions: seq<Action>)
    requires History(actions)
  {
    Agree(After(actions)) && (actions != [] ==> AlwaysAgreed(actions[..|actions| - 1]))
  }

  /** Over all histories, with UnRegister called whenever the source accepts it: the backends agree at
      every moment if and only if each UnRegister found its current mask covered by the previous one. */
  lemma {:induction false} BackendsAgreeExactly(actions: seq<Action>)
    requires History(actions)
    ensures AlwaysAgreed(actions) <==> CleanHistory(actions)
  {
    if actions == [] {
      BackendsAgree(actions);
    } else {
      var before, a := actions[..|actions| - 1], actions[|actions| - 1];
      BackendsAgreeExactly(before);
      if CleanHistory(before) {
        BackendsAgree(before);
        if Clean(After(before), a) {
          AgreeStep(After(before), a);
        } else {
          DirtyStep(After(before), a.fd);
        }
      }
    }
  }

  /** The effect of one more call on the answer. */
  predicate NextAsk(before: bool, a: Action, fd: int, f: Filter) {
    match a
    case Register(g) => g != fd && before
    case UnRegister(g) => g != fd && before
    case Update(g, op) => if g == fd then NewBit(op, f, before) else before
    case _ => before
  }

  /** Told from the calls alone: the last call that concerns this filter of this descriptor. */
  predicate LastAsk(actions: seq<Action>, fd: int, f: Filter) {
    actions != [] && NextAsk(LastAsk(actions[..|actions| - 1], fd, f), actions[|actions| - 1], fd, f)
  }

  lemma AskedStep(w: World, a: Action, fd: int, f: Filter)
    requires Allowed(w, a)
    ensures Asked(Do(w, a), fd, f) <==> NextAsk(Asked(w, fd, f), a, fd, f)
  {
    match a
    case Register(_) => NothingWanted(f);
    case Update(g, op) => OpMeans(w.pool[g].events, op, f);
    case _ =>
  }

  lemma {:induction false} AskedIsLastAsk(actions: seq<Action>, fd: int, f: Filter)
    requires History(actions)
    ensures Asked(After(actions), fd, f) <==> LastAsk(actions, fd, f)
  {
    if actions != [] {
      var before, a := actions[..|actions| - 1], actions[|actions| - 1];
      AskedIsLastAsk(before, fd, f);
      AskedStep(After(before), a, fd, f);
    }
  }

  /** Either kernel, once told, reports a filter exactly when the last call about it enabled it. */
  lemma KernelsFollowTheCalls(actions: seq<Action>, fd: int, f: Filter)
    requires History(actions) && CleanHistory(actions)
    ensures KqueueHolds(After(actions), fd, f) <==> LastAsk(actions, fd, f)
    ensures EpollHolds(After(actions), fd, f) <==> LastAsk(actions, fd, f)
  {
    BackendsAgree(actions);
    AskedIsLastAsk(actions, fd, f);
    assert AgreeOn(After(actions), fd, f);
  }

  /** Without DisableAll before it, UnRegister leaves kqueue with the filters that only the current mask
      has, and with none exactly when there are no such filters. */
  lemma UnRegisterLeaves(w: World, fd: int)
    requires Agree(w) && fd in w.pool
    ensures var r, w' := w.pool[fd], Do(w, UnRegister(fd));
            && (forall f :: KqueueHolds(w', fd, f) <==> Wants(r.events, f) && !Wants(r.oldEvents, f))
            && ((forall f :: !KqueueHolds(w', fd, f)) <==> Covered(r))
  {
    forall f ensures KqueueHolds(Do(w, UnRegister(fd)), fd, f)
                     <==> Wants(w.pool[fd].events, f) && !Wants(w.pool[fd].oldEvents, f) {
      assert AgreeOn(w, fd, f);
      UnRegisterMeans(w, fd, fd, f);
    }
  }

  /** DisableAll and then UnRegister, the order of the closing code, is always clean. */
  lemma DisabledIsClean(w: World, fd: int)
    requires fd in w.pool
    ensures Clean(Do(w, Update(fd, DisableAll)), UnRegister(fd))
  {
    NothingWanted(ReadFilter);
    NothingWanted(WriteFilter);
  }

  lemma Then(actions: seq<Action>, a: Action) returns (longer: seq<Action>)
    requires History(actions) && Allowed(After(actions), a)
    ensures longer == actions + [a] && History(longer) && After(longer) == Do(After(actions), a)
    ensures CleanHistory(longer) <==> CleanHistory(actions) && Clean(After(actions), a)
  {
    longer := actions + [a];
    assert longer[..|longer| - 1] == actions;
  }

  lemma RegisteredThenReading() returns (actions: seq<Action>)
    ensures actions == [Register(7), Update(7, SetReading(true))]
    ensures History(actions) && CleanHistory(actions)
    ensures 7 in After(actions).pool
    ensures After(actions).pool[7] == Registered(NewMask(EVENT_NONE, SetReading(true)), EVENT_NONE)
  {
    actions := Then([], Register(7));
    actions := Then(actions, Update(7, SetReading(true)));
  }

  /** A history that is not clean: unregistered right after reading was enabled, descriptor 7 keeps its
      read filter in kqueue. */
  lemma UnRegisterWitness() returns (actions: seq<Action>)
    ensures actions == [Register(7), Update(7, SetReading(true)), UnRegister(7)]
    ensures History(actions) && !CleanHistory(actions)
    ensures KqueueHolds(After(actions), 7, ReadFilter) && !EpollHolds(After(actions), 7, ReadFilter)
  {
    var reading := RegisteredThenReading();
    BackendsAgree(reading);
    assert AgreeOn(After(reading), 7, ReadFilter);
    ReadingMeans(EVENT_NONE, true);
    NothingWanted(ReadFilter);
    UnRegisterMeans(After(reading), 7, 7, ReadFilter);
    actions := Then(reading, UnRegister(7));
  }
}
