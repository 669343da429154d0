/** Whose bytes reach whom. Connections share what the kernel and the ring pool hand out again: a write that
    runs after its connection has closed goes to the number its descriptor had and to the ring it had, whoever
    has them by then. */
module Descriptors {
  import opened Prelude

  // ---------- The machine ----------

  /** Connections are told apart by the order in which they were accepted. */
  datatype Conn = Conn(fd: int, ring: nat, loop: nat, open: bool)

  /** Data that a connection has yet to pass to write. */
  datatype Write = Write(writer: nat, data: Bytes)

  /** A byte, and the connection that wrote it. */
  datatype Item = Item(writer: nat, byte: Byte)

  datatype Delivered = Delivered(item: Item, reader: nat)

  /** What the goroutine of a loop has yet to write: the replies that the read handler it is in still has to
      write, as many as busy says, and then what is queued. */
  datatype Loop = Loop(todo: seq<Write>, busy: nat)

  datatype World = World(
    conns: seq<Conn>,
    table: map<int, nat>,   // the kernel's: who has the number
    rings: seq<seq<Item>>,  // output waiting in each ring
    spare: set<nat>,        // the rings in the pool
    loops: seq<Loop>,
    asked: seq<Write>,      // calls of WriteInSelfLoop between the look at the state and the append
    wire: seq<Delivered>)   // history

  /** What the kernel says to a write; to put it off is to take nothing. */
  datatype Answer = Wrote(n: nat) | Failed

  /** A connection counts as open from its acceptance, before its loop has opened it, and may flush and be closed
      whenever its loop is in no read handler: the code has some of these runs only. */
  datatype Step =
    | Accept(fd: int, ring: nat, loop: nat)  // a number that nobody has; a ring of the pool, or a new one
    | Check(id: nat, data: Bytes)            // WriteInSelfLoop finds the connection open
    | Append(i: nat)                         // and has its loop queue the write
    | Serve(id: nat, replies: seq<Bytes>)    // a read handler begins
    | Next(loop: nat, answer: Answer)        // its next reply is written, or the first queued write runs
    | Flush(id: nat, n: nat)                 // writeEvent, the kernel takes n bytes
    | Close(id: nat)                         // closeEvent, but for a failed write

  function Initial(loops: nat): World {
    World([], map[], [], {}, seq(loops, _ => Loop([], 0)), [], [])
  }

  predicate Open(w: World, id: nat) {
    id < |w.conns| && w.conns[id].open && w.conns[id].ring < |w.rings| && w.conns[id].loop < |w.loops|
  }

  /** The connection is open and its loop is in no read handler. */
  predicate Idle(w: World, id: nat) {
    Open(w, id) && w.loops[w.conns[id].loop].busy == 0
  }

  /** The kernel writes only to a number that somebody has, and is not asked while output is waiting. */
  predicate Possible(w: World, write: Write, answer: Answer) {
    && write.writer < |w.conns| && w.conns[write.writer].ring < |w.rings|
    && (w.rings[w.conns[write.writer].ring] == [] && answer.Wrote? ==>
          w.conns[write.writer].fd in w.table && answer.n <= |write.data|)
  }

  predicate Enabled(w: World, step: Step) {
    match step
    case Accept(fd, ring, loop) => 
      fd !in w.table && loop < |w.loops| && (ring == |w.rings| || (ring < |w.rings| && ring in w.spare))
    case Check(id, _) => Open(w, id)
    case Append(i) =>
      i < |w.asked| && w.asked[i].writer < |w.conns| && w.conns[w.asked[i].writer].loop < |w.loops|
    case Serve(id, _) => Idle(w, id) && w.rings[w.conns[id].ring] == []
    case Next(loop, answer) =>
      loop < |w.loops| && w.loops[loop].todo != [] && Possible(w, w.loops[loop].todo[0], answer)
    case Flush(id, n) => Idle(w, id) && n <= |w.rings[w.conns[id].ring]| && w.conns[id].fd in w.table
    case Close(id) => Idle(w, id)
  }

  function Items(write: Write): seq<Item> {
    seq(|write.data|, i requires 0 <= i < |write.data| => Item(write.writer, write.data[i]))
  }

  function SentTo(reader: nat, items: seq<Item>): seq<Delivered> {
    seq(|items|, i requires 0 <= i < |items| => Delivered(items[i], reader))
  }

  /** closeEvent: the number goes back to the kernel and the ring, with what is in it, to the pool. */
  function Shut(w: World, id: nat): World
    requires id < |w.conns|
  {
    var c := w.conns[id];
    if !c.open then w
    else w.(conns := w.conns[id := c.(open := false)], table := w.table - {c.fd}, spare := w.spare + {c.ring})
  }

  /** write, which does not look at the state: behind what waits in the ring, or to the kernel and what it does
      not take into the ring. */
  function Written(w: World, write: Write, answer: Answer): World
    requires Possible(w, write, answer)
  {
    var c := w.conns[write.writer];
    var items := Items(write);
    if w.rings[c.ring] != [] then w.(rings := w.rings[c.ring := w.rings[c.ring] + items])
    else
      match answer
      case Wrote(n) =>
        w.(rings := w.rings[c.ring := items[n..]], wire := w.wire + SentTo(w.table[c.fd], items[..n]))
      case Failed => Shut(w, write.writer)
  }

  function Behind(loop: Loop, write: Write): Loop {
    loop.(todo := loop.todo + [write])
  }

  function Ahead(id: nat, replies: seq<Bytes>, loop: Loop): Loop {
    Loop(seq(|replies|, i requires 0 <= i < |replies| => Write(id, replies[i])) + loop.todo, |replies|)
  }

  function Without(loop: Loop, n: nat): Loop
    requires n <= |loop.todo|
  {
    Loop(loop.todo[n..], if n <= loop.busy then loop.busy - n else 0)
  }

  function Apply(w: World, step: Step): World
    requires Enabled(w, step)
  {
    match step
    case Accept(fd, ring, loop) => // New empties the ring
      w.(conns := w.conns + [Conn(fd, ring, loop, true)], table := w.table[fd := |w.conns|],
         rings := if ring == |w.rings| then w.rings + [[]] else w.rings[ring := []],
         spare := w.spare - {ring})
    case Check(id, data) => w.(asked := w.asked + [Write(id, data)])
    case Append(i) =>
      var l := w.conns[w.asked[i].writer].loop;
      w.(asked := w.asked[..i] + w.asked[i + 1..], loops := w.loops[l := Behind(w.loops[l], w.asked[i])])
    case Serve(id, replies) =>
      var l := w.conns[id].loop;
      w.(loops := w.loops[l := Ahead(id, replies, w.loops[l])])
    case Next(l, answer) =>
      Written(w.(loops := w.loops[l := Without(w.loops[l], 1)]), w.loops[l].todo[0], answer)
    case Flush(id, n) =>
      var c := w.conns[id];
      var ring := w.rings[c.ring];
      w.(rings := w.rings[c.ring := ring[n..]], wire := w.wire + SentTo(w.table[c.fd], ring[..n]))
    case Close(id) => Shut(w, id)
  }

  predicate Legal(w: World, steps: seq<Step>)
    decreases |steps|, 0
  {
    steps == []
    || (Legal(w, steps[..|steps| - 1]) && Enabled(After(w, steps[..|steps| - 1]), steps[|steps| - 1]))
  }

  function After(w: World, steps: seq<Step>): World
    requires Legal(w, steps)
    decreases |steps|, 1
  {
    if steps == [] then w else Apply(After(w, steps[..|steps| - 1]), steps[|steps| - 1])
  }

  lemma Then(w: World, steps: seq<Step>, step: Step) returns (longer: seq<Step>)
    requires Legal(w, steps) && Enabled(After(w, steps), step)
    ensures longer == steps + [step] && Legal(w, longer) && After(w, longer) == Apply(After(w, steps), step)
  {
    longer := steps + [step];
    assert longer[..|longer| - 1] == steps;
  }

  lemma StartsAt(w: World)
    ensures Legal(w, []) && After(w, []) == w
  {
  }

  // ---------- What every step keeps ----------

  /** The numbers in the kernel's table are those of the open connections, each its own. */
  predicate TableSound(w: World) {
    && (forall id :: 0 <= id < |w.conns| && w.conns[id].open ==>
          w.conns[id].fd in w.table && w.table[w.conns[id].fd] == id)
    && (forall fd :: fd in w.table ==>
          w.table[fd] < |w.conns| && w.conns[w.table[fd]].open && w.conns[w.table[fd]].fd == fd)
  }

  /** The ring has one owner that is open. */
  predicate Owned(w: World, ring: nat) {
    exists id :: 0 <= id < |w.conns| && w.conns[id].open && w.conns[id].ring == ring
  }

  /** Each ring is in the pool or has one owner that is open. */
  predicate RingsSound(w: World) {
    && (forall id :: 0 <= id < |w.conns| ==> w.conns[id].ring < |w.rings| && w.conns[id].loop < |w.loops|)
    && (forall ring :: ring in w.spare ==> ring < |w.rings|)
    && (forall ring :: 0 <= ring < |w.rings| ==> ring in w.spare || Owned(w, ring))
    && (forall id :: 0 <= id < |w.conns| && w.conns[id].open ==> w.conns[id].ring !in w.spare)
    && (forall a, b :: 0 <= a < b < |w.conns| && w.conns[a].open && w.conns[b].open ==>
          w.conns[a].ring != w.conns[b].ring)
  }

  predicate Known(writes: seq<Write>, n: nat) {
    forall i :: 0 <= i < |writes| ==> writes[i].writer < n
  }

  predicate KnownItems(items: seq<Item>, n: nat) {
    forall i :: 0 <= i < |items| ==> items[i].writer < n
  }

  /** Nothing comes from a connection that has not been accepted. */
  predicate WritersSound(w: World) {
    && Known(w.asked, |w.conns|)
    && (forall l :: 0 <= l < |w.loops| ==> Known(w.loops[l].todo, |w.conns|) && w.loops[l].busy <= |w.loops[l].todo|)
    && (forall ring :: 0 <= ring < |w.rings| ==> KnownItems(w.rings[ring], |w.conns|))
    && (forall i :: 0 <= i < |w.wire| ==> w.wire[i].item.writer < |w.conns|)
  }

  predicate Sound(w: World) {
    TableSound(w) && RingsSound(w) && WritersSound(w)
  }

  lemma TableStep(w: World, step: Step)
    requires TableSound(w) && Enabled(w, step)
    ensures TableSound(Apply(w, step))
  {
  }

  lemma RingsAccepted(w: World, step: Step)
    requires RingsSound(w) && Enabled(w, step) && step.Accept?
    ensures RingsSound(Apply(w, step))
  {
    var v := Apply(w, step);
    forall ring | 0 <= ring < |v.rings| ensures ring in v.spare || Owned(v, ring) {
      if ring < |w.rings| && ring !in w.spare {
        var id :| 0 <= id < |w.conns| && w.conns[id].open && w.conns[id].ring == ring;
        assert v.conns[id] == w.conns[id];
      } else if ring == step.ring {
        assert v.conns[|w.conns|].ring == ring;
      }
    }
  }

  lemma RingsShut(w: World, id: nat)
    requires RingsSound(w) && id < |w.conns|
    ensures RingsSound(Shut(w, id))
  {
    var v := Shut(w, id);
    forall ring | 0 <= ring < |v.rings| ensures ring in v.spare || Owned(v, ring) {
      if ring !in v.spare {
        var k :| 0 <= k < |w.conns| && w.conns[k].open && w.conns[k].ring == ring;
        assert v.conns[k] == w.conns[k];
      }
    }
  }

  /** What waits in the rings plays no part. */
  lemma RingsSame(w: World, v: World)
    requires RingsSound(w) && v.conns == w.conns && v.spare == w.spare
    requires |v.rings| == |w.rings| && |v.loops| == |w.loops|
    ensures RingsSound(v)
  {
    forall ring | 0 <= ring < |v.rings| ensures ring in v.spare || Owned(v, ring) {
      if ring !in w.spare {
        var id :| 0 <= id < |w.conns| && w.conns[id].open && w.conns[id].ring == ring;
        assert v.conns[id].ring == ring;
      }
    }
  }

  lemma RingsStep(w: World, step: Step)
    requires RingsSound(w) && Enabled(w, step)
    ensures RingsSound(Apply(w, step))
  {
    hide RingsSound;
    match step
    case Accept(_, _, _) => RingsAccepted(w, step);
    case Close(id) => RingsShut(w, id);
    case Next(l, answer) =>
      var u := w.(loops := w.loops[l := Without(w.loops[l], 1)]);
      var write := w.loops[l].todo[0];
      RingsSame(w, u);
      if w.rings[w.conns[write.writer].ring] == [] && answer.Failed? {
        RingsShut(u, write.writer);
      } else {
        RingsSame(u, Written(u, write, answer));
      }
    case _ => RingsSame(w, Apply(w, step));
  }

  lemma WritersWritten(w: World, write: Write, answer: Answer)
    requires WritersSound(w) && Possible(w, write, answer)
    ensures WritersSound(Written(w, write, answer))
  {
    hide Known;
  }

  lemma WritersStep(w: World, step: Step)
    requires WritersSound(w) && Enabled(w, step)
    ensures WritersSound(Apply(w, step))
  {
    match step
    case Next(l, answer) =>
      WritersWritten(w.(loops := w.loops[l := Without(w.loops[l], 1)]), w.loops[l].todo[0], answer);
    case _ =>
  }

  lemma SoundStep(w: World, step: Step)
    requires Sound(w) && Enabled(w, step)
    ensures Sound(Apply(w, step))
  {
    TableStep(w, step);
    RingsStep(w, step);
    WritersStep(w, step);
  }

  lemma {:induction false} StaysSound(w: World, steps: seq<Step>)
    requires Sound(w) && Legal(w, steps)
    ensures Sound(After(w, steps))
  {
    if steps != [] {
      var before, step := steps[..|steps| - 1], steps[|steps| - 1];
      StaysSound(w, before);
      SoundStep(After(w, before), step);
    }
  }

  // ---------- Whose bytes reach whom ----------

  /** What one connection wrote has reached its own peer only. */
  predicate Faithful(w: World, id: nat) {
    forall i :: 0 <= i < |w.wire| && w.wire[i].item.writer == id ==> w.wire[i].reader == id
  }

  /** One of the writes is of the connection and has data. */
  predicate Owes(writes: seq<Write>, id: nat) {
    exists i :: 0 <= i < |writes| && writes[i].writer == id && writes[i].data != []
  }

  /** The connection has data that is not with write yet: in the read handler it is in, in the queue, or in a
      call of WriteInSelfLoop. */
  predicate Owing(w: World, id: nat) {
    Owes(w.asked, id) || exists l :: 0 <= l < |w.loops| && Owes(w.loops[l].todo, id)
  }

  predicate Holds(items: seq<Item>, id: nat) {
    exists i :: 0 <= i < |items| && items[i].writer == id
  }

  predicate HeldBy(w: World, id: nat, g: nat) {
    g != id && Open(w, g) && Holds(w.rings[w.conns[g].ring], id)
  }

  /** What it wrote waits in the ring of another connection. */
  predicate Stranded(w: World, id: nat) {
    exists g :: 0 <= g < |w.conns| && HeldBy(w, id, g)
  }

  /** Its bytes have been going to its own peer; once it is closed there are no more. */
  predicate Settled(w: World, id: nat) {
    && Faithful(w, id) && !Stranded(w, id)
    && (id < |w.conns| && !w.conns[id].open ==> !Owing(w, id))
  }

  predicate Closing(w: World, v: World, id: nat) {
    Open(w, id) && !Open(v, id)
  }

  /** A closed connection gets nothing new to write. */
  lemma StaysSilent(w: World, step: Step, id: nat)
    requires Enabled(w, step) && id < |w.conns| && !w.conns[id].open && !Owing(w, id)
    ensures id < |Apply(w, step).conns| && !Apply(w, step).conns[id].open && !Owing(Apply(w, step), id)
  {
    var v := Apply(w, step);
    if step.Append? {
      assert !Owes([w.asked[step.i]], id) by {
        assert w.asked[step.i].writer == id ==> w.asked[step.i].data == [];
      }
    }
    forall l | 0 <= l < |v.loops| ensures !Owes(v.loops[l].todo, id) {
      assert !Owes(w.loops[l].todo, id);
    }
  }

  /** The first write of a loop, of the connection that makes it. */
  lemma NextIsOwed(w: World, l: nat, id: nat)
    requires l < |w.loops| && w.loops[l].todo != [] && !Owing(w, id)
    ensures w.loops[l].todo[0].writer == id ==> w.loops[l].todo[0].data == []
  {
    assert !Owes(w.loops[l].todo, id);
  }

  /** It is enough that whoever holds a byte of id held one before. */
  lemma NotStranded(w: World, v: World, id: nat)
    requires !Stranded(w, id)
    requires forall g :: 0 <= g < |v.conns| && HeldBy(v, id, g) ==> g < |w.conns| && HeldBy(w, id, g)
    ensures !Stranded(v, id)
  {
  }

  lemma FaithfulWritten(w: World, write: Write, answer: Answer, id: nat)
    requires Sound(w) && Possible(w, write, answer) && Faithful(w, id) && !Stranded(w, id)
    requires write.writer == id ==> w.conns[id].open || write.data == []
    ensures var v := Written(w, write, answer); Faithful(v, id) && !Stranded(v, id)
  {
    var v := Written(w, write, answer);
    forall g | 0 <= g < |v.conns| ensures !HeldBy(v, id, g) {
      assert !HeldBy(w, id, g);
    }
  }

  lemma FaithfulFlush(w: World, g: nat, n: nat, id: nat)
    requires Sound(w) && Enabled(w, Flush(g, n)) && Faithful(w, id) && !Stranded(w, id)
    ensures var v := Apply(w, Flush(g, n)); Faithful(v, id) && !Stranded(v, id)
  {
    assert !HeldBy(w, id, g);
    NotStranded(w, Apply(w, Flush(g, n)), id);
  }

  lemma FaithfulAccepted(w: World, step: Step, id: nat)
    requires Sound(w) && Enabled(w, step) && step.Accept? && Faithful(w, id) && !Stranded(w, id)
    ensures Faithful(Apply(w, step), id) && !Stranded(Apply(w, step), id)
  {
    NotStranded(w, Apply(w, step), id);
  }

  lemma FaithfulShut(w: World, g: nat, id: nat)
    requires g < |w.conns| && Faithful(w, id) && !Stranded(w, id)
    ensures Faithful(Shut(w, g), id) && !Stranded(Shut(w, g), id)
  {
    NotStranded(w, Shut(w, g), id);
  }

  /** The loops play no part. */
  lemma FaithfulSame(w: World, v: World, id: nat)
    requires Faithful(w, id) && !Stranded(w, id)
    requires v.conns == w.conns && v.rings == w.rings && v.wire == w.wire && |v.loops| == |w.loops|
    ensures Faithful(v, id) && !Stranded(v, id)
  {
    NotStranded(w, v, id);
  }

  lemma FaithfulStep(w: World, step: Step, id: nat)
    requires Sound(w) && Enabled(w, step) && Faithful(w, id) && !Stranded(w, id)
    requires id < |w.conns| && !w.conns[id].open ==> !Owing(w, id)
    ensures Faithful(Apply(w, step), id) && !Stranded(Apply(w, step), id)
  {
    hide Faithful, Stranded, Owing;
    match step
    case Accept(_, _, _) => FaithfulAccepted(w, step, id);
    case Flush(g, n) => FaithfulFlush(w, g, n, id);
    case Close(g) =>
      FaithfulShut(w, g, id);
    case Next(l, answer) =>
      if id < |w.conns| && !w.conns[id].open {
        NextIsOwed(w, l, id);
      }
      var u := w.(loops := w.loops[l := Without(w.loops[l], 1)]);
      FaithfulSame(w, u, id);
      FaithfulWritten(u, w.loops[l].todo[0], answer, id);
    case _ => FaithfulSame(w, Apply(w, step), id);
  }

  lemma SettledStep(w: World, step: Step, id: nat)
    requires Sound(w) && Enabled(w, step) && Settled(w, id)
    requires Closing(w, Apply(w, step), id) ==> !Owing(Apply(w, step), id)
    ensures Settled(Apply(w, step), id)
  {
    hide Owing, Faithful, Stranded;
    FaithfulStep(w, step, id);
    if id < |w.conns| && !w.conns[id].open {
      StaysSilent(w, step, id);
    }
  }

  // ---------- Runs ----------

  predicate Closed(w: World, id: nat) {
    id < |w.conns| && !w.conns[id].open
  }

  /** When the connection was closed it had nothing left to write. */
  predicate ClosedQuietly(w: World, steps: seq<Step>, id: nat)
    requires Legal(w, steps)
  {
    steps == []
    || (var before := steps[..|steps| - 1];
        && ClosedQuietly(w, before, id)
        && (Closing(After(w, before), After(w, steps), id) ==> !Owing(After(w, steps), id)))
  }

  lemma {:induction false} QuietlyClosedIsSettled(w: World, steps: seq<Step>, id: nat)
    requires Sound(w) && Settled(w, id) && Legal(w, steps) && ClosedQuietly(w, steps, id)
    ensures Settled(After(w, steps), id)
  {
    hide Settled, Sound, Owing, Closing;
    if steps != [] {
      var before := steps[..|steps| - 1];
      QuietlyClosedIsSettled(w, before, id);
      StaysSound(w, before);
      SettledStep(After(w, before), steps[|steps| - 1], id);
    }
  }

  lemma ClosedStep(w: World, step: Step, id: nat)
    requires Enabled(w, step)
    ensures Closed(w, id) ==> Closed(Apply(w, step), id)
    ensures Closing(w, Apply(w, step), id) ==> Closed(Apply(w, step), id)
  {
  }

  /** A connection that is not closed has never been. */
  lemma {:induction false} OpenIsQuiet(w: World, steps: seq<Step>, id: nat)
    requires Legal(w, steps) && !Closed(After(w, steps), id)
    ensures ClosedQuietly(w, steps, id)
  {
    hide Closing, Closed;
    if steps != [] {
      var before := steps[..|steps| - 1];
      ClosedStep(After(w, before), steps[|steps| - 1], id);
      OpenIsQuiet(w, before, id);
    }
  }

  /** Nor is one that was closed closed again. */
  lemma {:induction false} ClosedIsQuiet(w: World, steps: seq<Step>, id: nat)
    requires Closed(w, id) && Legal(w, steps)
    ensures Closed(After(w, steps), id) && ClosedQuietly(w, steps, id)
  {
    if steps != [] {
      var before := steps[..|steps| - 1];
      ClosedIsQuiet(w, before, id);
      ClosedStep(After(w, before), steps[|steps| - 1], id);
    }
  }

  lemma InitialIsSound(loops: nat, id: nat)
    ensures Sound(Initial(loops)) && Settled(Initial(loops), id)
  {
  }

  /** Over every run: the bytes of a connection that had nothing left to write when it was closed, or is not
      closed, reach its own peer only, whatever the others do. */
  lemma QuietlyClosedIsFaithful(loops: nat, steps: seq<Step>, id: nat)
    requires Legal(Initial(loops), steps)
    requires ClosedQuietly(Initial(loops), steps, id) || !Closed(After(Initial(loops), steps), id)
    ensures Faithful(After(Initial(loops), steps), id) && !Stranded(After(Initial(loops), steps), id)
  {
    InitialIsSound(loops, id);
    if !Closed(After(Initial(loops), steps), id) {
      OpenIsQuiet(Initial(loops), steps, id);
    }
    QuietlyClosedIsSettled(Initial(loops), steps, id);
  }

  // ---------- How a byte goes astray ----------

  /** The next k writes of a loop have run, and the kernel has taken nothing of them. */
  predicate Passed(u: World, v: World, l: nat, k: nat) {
    && l < |u.loops| && k <= |u.loops[l].todo|
    && v.conns == u.conns && v.table == u.table && v.spare == u.spare && v.asked == u.asked
    && v.loops == u.loops[l := Without(u.loops[l], k)]
    && |v.rings| == |u.rings| && (forall r :: 0 <= r < |u.rings| ==> u.rings[r] <= v.rings[r])
  }

  /** The steps need nothing of a connection that is open, only new ones and time. */
  predicate Unprompted(steps: seq<Step>) {
    forall i :: 0 <= i < |steps| ==> steps[i].Accept? || steps[i].Append? || steps[i].Next?
  }

  lemma PassOne(w: World, steps: seq<Step>, l: nat) returns (longer: seq<Step>)
    requires Sound(w) && Legal(w, steps) && l < |After(w, steps).loops| && After(w, steps).loops[l].todo != []
    ensures Legal(w, longer) && Passed(After(w, steps), After(w, longer), l, 1)
    ensures |longer| == |steps| + 1 && steps <= longer && longer[|steps|].Next?
  {
    StaysSound(w, steps);
    var u := After(w, steps);
    var c := u.conns[u.loops[l].todo[0].writer];
    longer := Then(w, steps, Next(l, if u.rings[c.ring] == [] && c.fd in u.table then Wrote(0) else Failed));
  }

  lemma PassedTwice(u: World, v: World, x: World, l: nat, k: nat)
    requires Passed(u, v, l, k) && v.loops[l].todo != [] && Passed(v, x, l, 1)
    ensures Passed(u, x, l, k + 1)
  {
    assert u.loops[l].todo[k..][1..] == u.loops[l].todo[k + 1..];
    forall r | 0 <= r < |u.rings| ensures u.rings[r] <= x.rings[r] {
      assert u.rings[r] <= v.rings[r] <= x.rings[r];
    }
  }

  lemma {:induction false} PassOver(w: World, steps: seq<Step>, l: nat, k: nat) returns (longer: seq<Step>)
    requires Sound(w) && Legal(w, steps) && l < |After(w, steps).loops| && k <= |After(w, steps).loops[l].todo|
    ensures Legal(w, longer) && Passed(After(w, steps), After(w, longer), l, k)
    ensures Unprompted(steps) ==> Unprompted(longer)
    decreases k
  {
    hide Apply, Enabled, Legal, Sound;
    if k == 0 {
      longer := steps;
    } else {
      var before := PassOver(w, steps, l, k - 1);
      longer := PassOne(w, before, l);
      PassedTwice(After(w, steps), After(w, before), After(w, longer), l, k - 1);
    }
  }

  /** A closed connection whose number and ring are free, and that has a write to come as the i-th of a loop. */
  predicate StillToCome(w: World, id: nat, l: nat, i: nat) {
    && Closed(w, id) && w.conns[id].fd !in w.table && w.conns[id].ring < |w.rings| && w.conns[id].ring in w.spare
    && l < |w.loops| && i < |w.loops[l].todo|
    && w.loops[l].todo[i].writer == id && w.loops[l].todo[i].data != []
  }

  /** When it is next, a new connection is given the number and the ring, and gets the data. */
  lemma NextIsSent(w: World, steps: seq<Step>, id: nat, l: nat) returns (longer: seq<Step>)
    requires Legal(w, steps) && StillToCome(After(w, steps), id, l, 0)
    ensures Legal(w, longer) && !Faithful(After(w, longer), id) && |longer| == |steps| + 2
    ensures steps <= longer && longer[|steps|].Accept? && longer[|steps| + 1].Next?
  {
    hide Legal, After;
    var u := After(w, steps);
    var c, write := u.conns[id], u.loops[l].todo[0];
    longer := Then(w, steps, Accept(c.fd, c.ring, l));
    longer := Then(w, longer, Next(l, Wrote(|write.data|)));
    assert After(w, longer).wire[|u.wire|] == Delivered(Item(id, write.data[0]), |u.conns|);
  }

  lemma OwedIsSent(w: World, steps: seq<Step>, id: nat, l: nat, i: nat) returns (longer: seq<Step>)
    requires Sound(w) && Legal(w, steps) && Unprompted(steps) && StillToCome(After(w, steps), id, l, i)
    ensures Legal(w, longer) && Unprompted(longer) && !Faithful(After(w, longer), id)
  {
    hide Legal, After;
    longer := PassOver(w, steps, l, i);
    longer := NextIsSent(w, longer, id, l);
  }

  /** Whatever a connection has left to write when it is closed can go to another. */
  lemma Misdelivered(w: World, id: nat) returns (steps: seq<Step>)
    requires Sound(w) && Closed(w, id) && w.conns[id].fd !in w.table && w.conns[id].ring in w.spare && Owing(w, id)
    ensures Legal(w, steps) && Unprompted(steps) && !Faithful(After(w, steps), id)
  {
    StartsAt(w);
    hide Legal, After;
    if i :| 0 <= i < |w.asked| && w.asked[i].writer == id && w.asked[i].data != [] {
      var l := w.conns[id].loop;
      steps := Then(w, [], Append(i));
      assert After(w, steps).loops[l].todo[|w.loops[l].todo|] == w.asked[i];
      steps := OwedIsSent(w, steps, id, l, |w.loops[l].todo|);
    } else {
      var l :| 0 <= l < |w.loops| && Owes(w.loops[l].todo, id);
      var i :| 0 <= i < |w.loops[l].todo| && w.loops[l].todo[i].writer == id && w.loops[l].todo[i].data != [];
      steps := OwedIsSent(w, [], id, l, i);
    }
  }

  // ---------- Exactly when bytes stay with their connection ----------

  /** What a close leaves behind. */
  lemma ClosingFrees(w: World, step: Step, id: nat)
    requires Sound(w) && Enabled(w, step) && Closing(w, Apply(w, step), id)
    ensures var v := Apply(w, step); Closed(v, id) && v.conns[id].fd !in v.table && v.conns[id].ring in v.spare
  {
  }

  /** At a close, in any run: whatever comes, the bytes of the connection reach its own peer only, exactly if it
      has nothing left to write then. */
  lemma CloseIsSafeExactly(loops: nat, steps: seq<Step>, step: Step, id: nat)
    requires Legal(Initial(loops), steps) && Enabled(After(Initial(loops), steps), step)
    requires Closing(After(Initial(loops), steps), Apply(After(Initial(loops), steps), step), id)
    ensures var closed := Apply(After(Initial(loops), steps), step);
            !Owing(closed, id) <==> forall more | Legal(closed, more) :: Faithful(After(closed, more), id)
    ensures var closed := Apply(After(Initial(loops), steps), step);
            Owing(closed, id) ==>
              exists more | Legal(closed, more) :: Unprompted(more) && !Faithful(After(closed, more), id)
  {
    var w := After(Initial(loops), steps);
    var closed := Apply(w, step);
    InitialIsSound(loops, id);
    QuietlyClosedIsFaithful(loops, steps, id);
    StaysSound(Initial(loops), steps);
    SoundStep(w, step);
    FaithfulStep(w, step, id);
    ClosingFrees(w, step, id);
    hide Legal, After, Sound, Faithful, Stranded, Owing;
    if !Owing(closed, id) {
      forall more | Legal(closed, more) ensures Faithful(After(closed, more), id) {
        ClosedIsQuiet(closed, more, id);
        QuietlyClosedIsSettled(closed, more, id);
      }
    } else {
      var more := Misdelivered(closed, id);
    }
  }

  // ---------- Four ways in which it happens ----------

  /** One loop and one connection. */
  function First(loop: Loop, asked: seq<Write>): World {
    World([Conn(5, 0, 0, true)], map[5 := 0], [[]], {}, [loop], asked, [])
  }

  /** It has closed. */
  function Gone(loop: Loop, asked: seq<Write>): World {
    World([Conn(5, 0, 0, false)], map[], [[]], {0}, [loop], asked, [])
  }

  /** A second one has been given its ring. */
  function Heir(ring: seq<Item>, loop: Loop): World {
    World([Conn(5, 0, 0, false), Conn(6, 0, 0, true)], map[6 := 1], [ring], {}, [loop], [], [])
  }

  /** One more step of a run. */
  lemma Taken(steps: seq<Step>, u: World, step: Step, v: World) returns (longer: seq<Step>)
    requires Legal(Initial(1), steps) && After(Initial(1), steps) == u && Enabled(u, step) && Apply(u, step) == v
    ensures longer == steps + [step] && Legal(Initial(1), longer) && After(Initial(1), longer) == v
  {
    longer := Then(Initial(1), steps, step);
  }

  lemma FirstAccepted() returns (steps: seq<Step>)
    ensures steps == [Accept(5, 0, 0)] && Legal(Initial(1), steps)
    ensures After(Initial(1), steps) == First(Loop([], 0), [])
  {
    steps := Taken([], Initial(1), Accept(5, 0, 0), First(Loop([], 0), []));
  }

  lemma FirstAsked() returns (steps: seq<Step>)
    ensures steps == [Accept(5, 0, 0), Check(0, [1])] && Legal(Initial(1), steps)
    ensures After(Initial(1), steps) == First(Loop([], 0), [Write(0, [1])])
  {
    hide Legal, After;
    steps := FirstAccepted();
    steps := Taken(steps, First(Loop([], 0), []), Check(0, [1]), First(Loop([], 0), [Write(0, [1])]));
  }

  lemma FirstQueued() returns (steps: seq<Step>)
    ensures steps == [Accept(5, 0, 0), Check(0, [1]), Append(0)] && Legal(Initial(1), steps)
    ensures After(Initial(1), steps) == First(Loop([Write(0, [1])], 0), [])
  {
    hide Legal, After;
    assert Behind(Loop([], 0), Write(0, [1])) == Loop([Write(0, [1])], 0);
    steps := FirstAsked();
    steps := Taken(steps, First(Loop([], 0), [Write(0, [1])]), Append(0), First(Loop([Write(0, [1])], 0), []));
  }

  lemma FirstGone() returns (steps: seq<Step>)
    ensures steps == [Accept(5, 0, 0), Check(0, [1]), Append(0), Close(0)] && Legal(Initial(1), steps)
    ensures After(Initial(1), steps) == Gone(Loop([Write(0, [1])], 0), [])
  {
    hide Legal, After;
    steps := FirstQueued();
    steps := Taken(steps, First(Loop([Write(0, [1])], 0), []), Close(0), Gone(Loop([Write(0, [1])], 0), []));
  }

  /** A new connection gets the number, and then the write runs. */
  lemma NumberReused(steps: seq<Step>, byte: Byte, busy: nat) returns (longer: seq<Step>)
    requires Legal(Initial(1), steps)
    requires After(Initial(1), steps) == Gone(Loop([Write(0, [byte])], busy), [])
    ensures longer == steps + [Accept(5, 1, 0)] + [Next(0, Wrote(1))] && Legal(Initial(1), longer)
    ensures After(Initial(1), longer).wire == [Delivered(Item(0, byte), 1)]
  {
    hide Legal, After;
    longer := Then(Initial(1), steps, Accept(5, 1, 0));
    var u := After(Initial(1), longer);
    assert u.table[5] == 1 && u.rings[0] == [] && u.loops[0].todo[0] == Write(0, [byte]);
    longer := Then(Initial(1), longer, Next(0, Wrote(1)));
  }

  /** A write queued before the close runs after it. */
  lemma QueuedWriteWitness() returns (steps: seq<Step>)
    ensures steps == [Accept(5, 0, 0), Check(0, [1]), Append(0), Close(0), Accept(5, 1, 0), Next(0, Wrote(1))]
    ensures Legal(Initial(1), steps) && After(Initial(1), steps).wire == [Delivered(Item(0, 1), 1)]
  {
    hide Legal, After;
    steps := FirstGone();
    steps := NumberReused(steps, 1, 0);
  }

  /** The close falls between the look at the state and the append. */
  lemma LateAppendWitness() returns (steps: seq<Step>)
    ensures steps == [Accept(5, 0, 0), Check(0, [1]), Close(0), Append(0), Accept(5, 1, 0), Next(0, Wrote(1))]
    ensures Legal(Initial(1), steps) && After(Initial(1), steps).wire == [Delivered(Item(0, 1), 1)]
  {
    hide Legal, After;
    var idle, write := Loop([], 0), Write(0, [1]);
    assert Behind(idle, write) == Loop([write], 0);
    steps := FirstAsked();
    steps := Taken(steps, First(idle, [write]), Close(0), Gone(idle, [write]));
    steps := Taken(steps, Gone(idle, [write]), Append(0), Gone(Loop([write], 0), []));
    steps := NumberReused(steps, 1, 0);
  }

  /** A read handler goes on writing replies after the write of one has failed and closed the connection;
      nothing is ever queued. */
  lemma SecondReplyWitness() returns (steps: seq<Step>)
    ensures steps == [Accept(5, 0, 0), Serve(0, [[1], [2]]), Next(0, Failed), Accept(5, 1, 0), Next(0, Wrote(1))]
    ensures Legal(Initial(1), steps) && After(Initial(1), steps).wire == [Delivered(Item(0, 2), 1)]
  {
    hide Legal, After;
    var replies := Loop([Write(0, [1]), Write(0, [2])], 2);
    assert Ahead(0, [[1], [2]], Loop([], 0)) == replies && Without(replies, 1) == Loop([Write(0, [2])], 1);
    steps := FirstAccepted();
    steps := Taken(steps, First(Loop([], 0), []), Serve(0, [[1], [2]]), First(replies, []));
    steps := Taken(steps, First(replies, []), Next(0, Failed), Gone(Loop([Write(0, [2])], 1), []));
    steps := NumberReused(steps, 2, 1);
  }

  lemma RingTaken() returns (steps: seq<Step>)
    ensures steps == [Accept(5, 0, 0), Check(0, [1]), Append(0), Close(0), Accept(6, 0, 0), Serve(1, [[2]])]
    ensures Legal(Initial(1), steps)
    ensures After(Initial(1), steps) == Heir([], Loop([Write(1, [2]), Write(0, [1])], 1))
  {
    hide Legal, After;
    var queued := Loop([Write(0, [1])], 0);
    assert Ahead(1, [[2]], queued) == Loop([Write(1, [2]), Write(0, [1])], 1);
    steps := FirstGone();
    steps := Taken(steps, Gone(queued, []), Accept(6, 0, 0), Heir([], queued));
    steps := Taken(steps, Heir([], queued), Serve(1, [[2]]), Heir([], Loop([Write(1, [2]), Write(0, [1])], 1)));
  }

  /** The reply of the new connection waits in the ring. */
  lemma RingReused() returns (steps: seq<Step>)
    ensures steps == [Accept(5, 0, 0), Check(0, [1]), Append(0), Close(0), Accept(6, 0, 0), Serve(1, [[2]]),
                      Next(0, Wrote(0))]
    ensures Legal(Initial(1), steps)
    ensures After(Initial(1), steps) == Heir([Item(1, 2)], Loop([Write(0, [1])], 0))
  {
    hide Legal, After;
    var a, b := Write(1, [2]), Write(0, [1]);
    assert Without(Loop([a, b], 1), 1) == Loop([b], 0) && Items(a)[0..] == [Item(1, 2)];
    steps := RingTaken();
    steps := Taken(steps, Heir([], Loop([a, b], 1)), Next(0, Wrote(0)), Heir([Item(1, 2)], Loop([b], 0)));
  }

  /** The number is never used again, but the ring is: the queued write goes behind what the new connection has
      waiting in it. */
  lemma SharedRingWitness() returns (steps: seq<Step>)
    ensures steps == [Accept(5, 0, 0), Check(0, [1]), Append(0), Close(0), Accept(6, 0, 0), Serve(1, [[2]]),
                      Next(0, Wrote(0)), Next(0, Wrote(0)), Flush(1, 2)]
    ensures Legal(Initial(1), steps)
    ensures After(Initial(1), steps).wire == [Delivered(Item(1, 2), 1), Delivered(Item(0, 1), 1)]
  {
    hide Legal, After;
    var b := Write(0, [1]);
    assert Without(Loop([b], 0), 1) == Loop([], 0) && [Item(1, 2)] + Items(b) == [Item(1, 2), Item(0, 1)];
    steps := RingReused();
    steps := Taken(steps, Heir([Item(1, 2)], Loop([b], 0)), Next(0, Wrote(0)),
                   Heir([Item(1, 2), Item(0, 1)], Loop([], 0)));
    steps := Then(Initial(1), steps, Flush(1, 2));
  }
}
