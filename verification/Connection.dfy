/** The connection object of net/connect/connect.go. Its abstract value always is what some run of the
    machine in Session leads to, so every property of the machine's runs holds of the object. */
module Connection {
  import opened Prelude
  import opened Codec
  import opened Framing
  import opened Session
  import EventLoop
  import Events
  import Interest
  import IdleTimer
  import LengthFieldPipeline
  import Replies
  import RingBuffer
  import Socket
  import TaskLoop

  /** The closures passed to RunInLoop: newConnected passes the first, a connection the others. */
  datatype Task =
    | ConnectTask(conn: Connect)
    | CloseTask(conn: Connect)
    | WriteTask(conn: Connect, buffer: Bytes)

  /** The cursor LengthFieldBasedFrameCodec.Decode reads through. */
  class InnerBuffer {
    var bytes: Bytes

    constructor (bytes: Bytes)
      ensures this.bytes == bytes
    {
      this.bytes := bytes;
    }

    method ReadN(n: int) returns (buf: Option<Bytes>)
      modifies this
      ensures buf.Some? <==> 0 < n <= |old(bytes)|
      ensures buf.Some? ==> |buf.value| == n && buf.value + bytes == old(bytes)
      ensures buf.None? ==> bytes == old(bytes)
    {
      if n <= 0 || n > |bytes| {
        return None;
      }
      buf := Some(bytes[..n]);
      bytes := bytes[n..];
    }
  }

  /** The builtin copy, for a destination with room. */
  method Copy(dst: array<Byte>, at: nat, src: Bytes)
    requires at + |src| <= dst.Length
    modifies dst
    ensures dst[..] == old(dst[..at]) + src + old(dst[at + |src|..])
  {
    for i := 0 to |src|
      invariant dst[..] == old(dst[..at]) + src[..i] + old(dst[at + i..])
    {
      dst[at + i] := src[i];
    }
  }

  /** The kernel's failures and refusals up to some moment. */
  datatype Tally = Tally(failures: nat, refusals: nat)

  /** What a connection has had from the kernel up to some moment: the output waiting, the output taken, every
      answer to a read, the writes that failed or were not taken whole, and the time of the last activity. */
  datatype Traffic = Traffic(
    out: Bytes,
    accepted: Bytes,
    answers: seq<Socket.ReadResult>,
    failures: nat,
    refusals: nat,
    lastActivity: int)

  /** The steps made, with the traffic before each of them, and the traffic now. */
  datatype Story = Story(steps: seq<Step>, past: seq<Traffic>, now: Traffic)

  predicate Blank(t: Traffic) {
    t.out == [] && t.accepted == [] && t.answers == [] && t.failures == 0 && t.refusals == 0
  }

  predicate NothingSent(s: Traffic, t: Traffic) {
    t.out == s.out && t.accepted == s.accepted && t.failures == s.failures && t.refusals == s.refusals
  }

  /** The step that a write event makes of the output waiting: it closes exactly when a write failed, and leaves
      output waiting, or does nothing, only when the kernel put it off; no byte is lost. */
  predicate Flushed(step: Step, s: Traffic, t: Traffic) {
    && t.answers == s.answers && t.accepted + t.out == s.accepted + s.out
    && t.failures >= s.failures && t.refusals >= s.refusals && (step.Close? <==> t.failures > s.failures)
    && match step
       case Flush(n) => n <= |s.out| && t.out == s.out[n..] && (n == |s.out| || t.refusals > s.refusals)
       case Idle => t.out == s.out && t.refusals > s.refusals
       case Close => true
       case _ => false
  }

  /** The step that a read event makes: it reads exactly once, and only with no output waiting; the answer
      decides the step, unless a write then fails; and responses are left waiting only when the kernel put
      some off. */
  predicate ReadBy(step: Step, s: Traffic, t: Traffic) {
    if s.out != [] then step.PauseReading? && NothingSent(s, t) && t.answers == s.answers
    else
      && |t.answers| == |s.answers| + 1 && s.answers <= t.answers
      && t.failures >= s.failures && t.refusals >= s.refusals
      && match t.answers[|s.answers|]
         case ReadAgain => step.Idle? && NothingSent(s, t)
         case Eof => step.Close? && NothingSent(s, t)
         case ReadFailed => step.Close? && NothingSent(s, t)
         case Data(chunk) =>
           && (step == Step.Close || (step.ReadData? && step.chunk == chunk))
           && (step == Step.Close <==> t.failures > s.failures)
           && (step.ReadData? && t.out != [] ==> t.refusals > s.refusals)
  }

  lemma FlushedPart(step: Step, moved: nat, s: Traffic, t: Traffic)
    requires moved <= |s.out| && t.out == s.out[moved..] && t.accepted == s.accepted + s.out[..moved]
    requires t.answers == s.answers && t.refusals >= s.refusals && t.failures >= s.failures
    requires step == Flush(moved) || (step.Idle? && moved == 0) || step.Close?
    requires step.Close? <==> t.failures > s.failures
    requires step.Idle? || (step.Flush? && t.out != []) ==> t.refusals > s.refusals
    ensures Flushed(step, s, t)
  {
    assert (s.accepted + s.out[..moved]) + s.out[moved..] == s.accepted + s.out;
  }

  lemma FlushedAtAnyTime(step: Step, s: Traffic, before: Traffic, t: Traffic)
    requires Flushed(step, s, t) && before == s.(lastActivity := before.lastActivity)
    ensures Flushed(step, before, t)
  {
  }

  lemma ReadAtAnyTime(step: Step, s: Traffic, before: Traffic, t: Traffic)
    requires ReadBy(step, s, t) && before == s.(lastActivity := before.lastActivity)
    ensures ReadBy(step, before, t)
  {
  }

  /** The step that a handler makes, at time clock: reading and writing count as activity, with an idle limit. */
  predicate HandlerDone(h: Events.Handler, timed: bool, clock: int, step: Step, s: Traffic, t: Traffic) {
    match h
    case OnRead => ReadBy(step, s, t) && t.lastActivity == if timed then clock else s.lastActivity
    case OnWrite => Flushed(step, s, t) && t.lastActivity == if timed then clock else s.lastActivity
    case OnClose => step.Close? && t == s
    case OnError => step.Close? && t == s
  }

  /** What one write has done: it failed, or its data is taken or waits behind what waited; the kernel is asked
      only if nothing waited, and leaves data waiting only by putting it off. */
  predicate Sends(data: Bytes, failed: bool, s: Traffic, t: Traffic) {
    && t.answers == s.answers && t.refusals >= s.refusals
    && t.failures == s.failures + (if failed then 1 else 0)
    && (failed ==> t.out == s.out == [] && t.accepted == s.accepted)
    && (!failed ==> t.accepted + t.out == s.accepted + s.out + data)
    && (s.out != [] ==> !failed && t.accepted == s.accepted && t.refusals == s.refusals)
    && (s.out == [] && t.out != [] ==> t.refusals > s.refusals)
  }

  lemma SentPart(data: Bytes, n: nat, s: Traffic, t: Traffic)
    requires s.out == [] && n <= |data| && t.refusals >= s.refusals && (n < |data| ==> t.refusals > s.refusals)
    requires t == s.(accepted := s.accepted + data[..n], out := data[n..], refusals := t.refusals)
    ensures Sends(data, false, s, t)
  {
    assert (s.accepted + data[..n]) + data[n..] == s.accepted + [] + data;
  }

  lemma SendFailed(data: Bytes, s: Traffic, t: Traffic)
    requires s.out == [] && t == s.(failures := s.failures + 1)
    ensures Sends(data, true, s, t)
  {
  }

  /** The step that a task makes. A write closes exactly when it fails. */
  predicate TaskDone(task: Task, step: Step, s: Traffic, t: Traffic) {
    match task
    case ConnectTask(_) => step.Connect? && t == s
    case CloseTask(_) => step.Close? && t == s
    case WriteTask(_, data) =>
      && t.lastActivity == s.lastActivity && Sends(data, step.Close?, s, t)
      && (step.Close? || (step.Submit? && step.data == data))
  }

  /** How many bytes ReadN and ShiftN mean by n. */
  function Clamp(total: nat, n: int): nat {
    if total < n || n <= 0 then total else n
  }

  /** A frame, if there is one, ahead of a parse. */
  function Ahead(inHand: Option<Bytes>, toCome: Parse): Parse {
    if inHand.None? then toCome else Parse([inHand.value] + toCome.frames, toCome.rest)
  }

  function Following(done: seq<Bytes>, p: Parse): Parse {
    Parse(done + p.frames, p.rest)
  }

  lemma DoneSnoc(app: App, done: seq<Bytes>, frame: Bytes, toCome: Parse)
    requires Usable(app.codec)
    ensures Following(done, Ahead(Some(frame), toCome)) == Following(done + [frame], toCome)
    ensures Responses(app, done + [frame]) == Responses(app, done) + Response(app, frame)
  {
    ResponsesAppend(app, done, [frame]);
    assert [frame][1..] == [];
    assert done + ([frame] + toCome.frames) == (done + [frame]) + toCome.frames;
  }

  /** The frame, the error and the bytes left are those of d. */
  predicate Yields(d: Decoded, s: Bytes, frame: Option<Bytes>, err: Option<Error>, left: Bytes) {
    match d
    case Frame(f, k) => k <= |s| && frame == Some(f) && err == None && left == s[k..]
    case NoFrame(e) => frame == None && err == e && left == s
  }

  lemma FrameTaken(codec: Codec, s: Bytes, frame: Option<Bytes>, err: Option<Error>, left: Bytes)
    requires Usable(codec)
    requires Yields(DecodeOne(codec, s), s, frame, err, left)
    ensures DecodeAll(codec, s) == Ahead(frame, DecodeAll(codec, left))
    ensures frame.Some? ==> |left| < |s|
    ensures frame.None? ==> left == s && DecodeAll(codec, s) == Parse([], s)
  {
    if frame.Some? {
      OneStep(codec, s);
    }
  }

  class Connect {
    const app: App
    const loop: TaskLoop.Loop<Task>
    const event: Events.Event
    const socket: Socket.Socket
    const inBuffer: RingBuffer.RingBuffer
    const outBuffer: RingBuffer.RingBuffer
    const idleTime: int
    var activeTime: int
    var deadline: Option<int> // when the timer pending in the timing wheel is due
    var state: ConnectState
    var temporaryBuf: Bytes
    var byteBuffer: Option<Bytes>
    ghost var handled: bool
    ghost var teardown: Teardown
    ghost var steps: seq<Step>
    ghost var past: seq<Traffic> // the traffic before each of the steps
    ghost var queued: seq<Bytes> // what WriteInSelfLoop has accepted, in order
    ghost const start: int       // when the connection was made
    ghost const slack: nat       // how late its timer may go off
    ghost var ticks: seq<IdleTimer.Step>
    ghost var openedUnguarded: bool // no timer was pending when it was opened

    // ---------- The abstract value ----------

    /** Once disconnected, the buffers belong to the pool and the descriptor to the kernel. */
    ghost function View(): Conn
      reads this`state, this`handled, this`teardown, inBuffer, outBuffer, socket, event
    {
      if state == Disconnected then
        Conn(Disconnected, [], [], [], false, false, handled, teardown)
      else
        Conn(state, inBuffer.contents, outBuffer.contents, socket.accepted,
             event.IsReading(), event.IsWriting(), handled, teardown)
    }

    ghost function SoFar(): Traffic
      reads this`ticks, outBuffer, socket
    {
      Traffic(outBuffer.contents, socket.accepted, socket.readAnswers, socket.failures, socket.refusals,
              Timer().lastActivity)
    }

    ghost function Told(): Story
      reads this`steps, this`past, this`ticks, outBuffer, socket
    {
      Story(steps, past, SoFar())
    }

    /** It began with no traffic, and makes no step before it is opened. */
    ghost predicate Begun()
      reads this`steps, this`past, this`ticks, this`handled, outBuffer, socket
    {
      |past| == |steps| && if handled then past != [] && Blank(past[0]) else past == [] && Blank(SoFar())
    }

    /** How the parts are connected. */
    ghost predicate Wired()
      reads this`state, this`handled, inBuffer, outBuffer, socket, event, event.ctrl, event.ctrl.multi
    {
      && Usable(app.codec)
      && inBuffer != outBuffer
      && (state != Disconnected ==> handled && socket.open && event.Registered())
      && (state != Disconnected ==> (state == Disconnecting <==> !socket.sendOpen))
      && (handled && state == Disconnected ==> !socket.open)
      && (!handled ==> socket.open && socket.sendOpen && event.Gone()
                       && event.events == Interest.EVENT_NONE && event.oldEvents == Interest.EVENT_NONE)
    }

    /** The idle timer of the connection: armed when it is made, if there is an idle limit. */
    ghost function Timer(): IdleTimer.Timer
      reads this`ticks
    {
      IdleTimer.Run(idleTime, start, ticks)
    }

    /** The recorded activity is that of a run of the idle timer; it can only have been lost before the
        connection was opened. */
    ghost predicate Timed()
      reads this
    {
      if idleTime > 0 then
        && IdleTimer.Legal(idleTime, slack, start, ticks)
        && activeTime == Timer().activeTime && deadline == Timer().armed
        && (state != Disconnected ==> (Timer().refused.Some? <==> openedUnguarded))
        && (!handled ==> Timer().requested == None)
      else deadline == None
    }

    /** The clock has not gone back, and a timer that is due has gone off. */
    ghost predicate OnTime(now: int)
      reads this`ticks
    {
      idleTime > 0 ==> IdleTimer.Enabled(slack, Timer(), IdleTimer.Pass(now))
    }

    /** The clock may have moved; the timer itself is as it was. */
    twostate predicate SameTimer()
      reads this
    {
      deadline == old(deadline) &&
      (idleTime > 0 ==>
        && Timer().requested == old(Timer()).requested
        && Timer().refused == old(Timer()).refused)
    }

    /** The objects that belong to this connection alone. */
    ghost function Own(): set<object> {
      {this, inBuffer, outBuffer, socket, event}
    }

    /** Its descriptor is its own: it has not been closed. */
    ghost predicate Live()
      reads this
    {
      handled ==> state != Disconnected
    }

    /** What a call leaves alone: the places in the pool and the interest of all other descriptors.
        Nothing enters the pool; a call that closes takes its own descriptor out; a call on a closed
        connection touches none of it. */
    twostate predicate KeepsOthers()
      reads this, event, event.ctrl, event.ctrl.multi
    {
      && event.ctrl.OthersKept(event.eventFd)
      && (event.ctrl.eventPool
          == if old(state) != Disconnected && state == Disconnected then old(event.ctrl.eventPool) - {event.eventFd}
             else old(event.ctrl.eventPool))
      && (old(state) != Disconnected && state == Disconnected ==> event.Gone())
      && (old(state) == Disconnected ==> state == Disconnected && unchanged(event, event.ctrl, event.ctrl.multi))
    }

    /** The connection is where the steps made so far have led. */
    ghost predicate Tracks()
      reads this`state, this`handled, this`teardown, this`steps, inBuffer, outBuffer, socket, event
    {
      && Usable(app.codec) && Legal(app, steps)
      && View() == Run(app, steps)
      && (state != Disconnected || !handled ==> socket.received == Flatten(Chunks(steps)))
      && (!handled ==> inBuffer.contents == [] && outBuffer.contents == [] && socket.accepted == [])
    }

    ghost predicate Valid()
      reads this, inBuffer, outBuffer, socket, event, event.ctrl, event.ctrl.multi
    {
      Wired() && Timed() && Tracks() && Begun()
    }

    constructor (app: App, loop: TaskLoop.Loop<Task>, event: Events.Event, idleTime: int, now: int, ghost slack: nat)
      requires Usable(app.codec)
      requires event.Gone() && event.events == Interest.EVENT_NONE && event.oldEvents == Interest.EVENT_NONE
      ensures Valid() && steps == [] && past == [] && queued == [] && !handled && state == Disconnected && OnTime(now)
      ensures deadline == if idleTime > 0 then Some(now + idleTime) else None
      ensures start == now && this.slack == slack && ticks == [] && SoFar() == Traffic([], [], [], 0, 0, now)
      ensures this.app == app && this.loop == loop && this.event == event && this.idleTime == idleTime
      ensures fresh(inBuffer) && fresh(outBuffer) && fresh(socket)
    {
      this.app, this.loop, this.event, this.idleTime := app, loop, event, idleTime;
      start, this.slack, ticks, queued, openedUnguarded := now, slack, [], [], false;
      socket := new Socket.Socket();
      inBuffer := new RingBuffer.RingBuffer();
      outBuffer := new RingBuffer.RingBuffer();
      activeTime := if idleTime > 0 then IdleTimer.UnixSeconds(now) else 0;
      deadline := if idleTime > 0 then Some(now + idleTime) else None;
      state, temporaryBuf, byteBuffer := Disconnected, [], None;
      handled, teardown, steps, past := false, Teardown(0, 0, 0, 0), [], [];
      new;
      assert event.Gone() by {
        forall f ensures !event.ctrl.multi.Holds(event.eventFd, f) {
          assert !old(event.ctrl.multi.Holds(event.eventFd, f));
        }
      }
    }

    // ---------- The buffer API: two segments read as one ----------

    /** The undecoded bytes, during a decode loop. */
    ghost function Undecoded(): Bytes
      reads this, inBuffer
    {
      inBuffer.contents + temporaryBuf
    }

    method Read() returns (buf: Bytes)
      modifies this`byteBuffer
      ensures buf == Undecoded()
    {
      if inBuffer.IsEmpty() {
        return temporaryBuf;
      }
      var first, end := inBuffer.PeekAll();
      byteBuffer := Some(if |first| == 0 then end else first + end);
      byteBuffer := Some(byteBuffer.value + temporaryBuf);
      buf := byteBuffer.value;
    }

    method ResetBuffer()
      modifies this`temporaryBuf, this`byteBuffer, inBuffer
      ensures Undecoded() == []
    {
      temporaryBuf := [];
      inBuffer.Reset();
      byteBuffer := None;
    }

    method ReadN(n: int) returns (size: nat, buf: Bytes)
      modifies this`byteBuffer
      ensures size == Clamp(|Undecoded()|, n) && buf == Undecoded()[..size]
    {
      var inBufferLen, tempBufferLen := inBuffer.Size(), |temporaryBuf|;
      size := if inBufferLen + tempBufferLen < n || n <= 0 then inBufferLen + tempBufferLen else n;
      if inBuffer.IsEmpty() {
        buf := temporaryBuf[..size];
        return;
      }
      var head, tail := inBuffer.Peek(size);
      byteBuffer := Some(head + tail);
      if inBufferLen >= size {
        buf := byteBuffer.value;
        return;
      }
      var restSize := size - inBufferLen;
      byteBuffer := Some(byteBuffer.value + temporaryBuf[..restSize]);
      buf := byteBuffer.value;
    }

    method ShiftN(n: int) returns (size: nat)
      modifies this`temporaryBuf, this`byteBuffer, inBuffer
      ensures size == Clamp(|old(Undecoded())|, n)
      ensures Undecoded() == old(Undecoded())[size..]
    {
      var inBufferLen, tempBufferLen := inBuffer.Size(), |temporaryBuf|;
      if inBufferLen + tempBufferLen < n || n <= 0 {
        ResetBuffer();
        size := inBufferLen + tempBufferLen;
        return;
      }
      size := n;
      if inBuffer.IsEmpty() {
        temporaryBuf := temporaryBuf[n..];
        return;
      }
      byteBuffer := None;
      if inBufferLen >= n {
        inBuffer.Retrieve(n);
        return;
      }
      inBuffer.Reset();
      var restSize := n - inBufferLen;
      temporaryBuf := temporaryBuf[restSize..];
    }

    function BufferLength(): nat
      reads this, inBuffer
      ensures BufferLength() == |Undecoded()|
    {
      inBuffer.Size() + |temporaryBuf|
    }

    // ---------- Decode, through the buffer API ----------

    /** One Decode call: it takes the frame the codec finds in the undecoded bytes, and exactly the
        bytes of that frame; without a frame the bytes stay. */
    method Decode() returns (frame: Option<Bytes>, err: Option<Error>)
      requires Usable(app.codec)
      modifies this`temporaryBuf, this`byteBuffer, inBuffer
      ensures Yields(DecodeOne(app.codec, old(Undecoded())), old(Undecoded()), frame, err, Undecoded())
    {
      match app.codec
      case BuiltIn =>
        var buf := Read();
        ResetBuffer();
        frame, err := if |buf| == 0 then None else Some(buf), None;
      case LineBased =>
        frame, err := DecodeUpTo(CRLF_BYTE, CRLFNotFound);
      case DelimiterBased(d) =>
        frame, err := DecodeUpTo(d, DelimiterNotFound);
      case FixedLength(n) =>
        var size, buf := ReadN(n);
        if size == 0 {
          return None, Some(UnexpectedEOF);
        }
        ghost var s := Undecoded();
        var _ := ShiftN(size);
        frame, err := Some(buf), None;
        assert size == |s| ==> buf == s;
      case LengthField(_, dc) =>
        frame, err := DecodeWithLength(dc);
    }

    method DecodeUpTo(d: Byte, missing: Error) returns (frame: Option<Bytes>, err: Option<Error>)
      modifies this`temporaryBuf, this`byteBuffer, inBuffer
      ensures Yields(DecodeDelimited(old(Undecoded()), d, missing), old(Undecoded()), frame, err, Undecoded())
    {
      var buf := Read();
      var idx := IndexByte(buf, d);
      if idx == -1 {
        return None, Some(missing);
      }
      var _ := ShiftN(idx + 1);
      frame, err := Some(buf[..idx]), None;
    }

    method DecodeWithLength(dc: DecoderConfig) returns (frame: Option<Bytes>, err: Option<Error>)
      requires Strippable(dc)
      modifies this`temporaryBuf, this`byteBuffer, inBuffer
      ensures Yields(DecodeLengthField(dc, old(Undecoded())), old(Undecoded()), frame, err, Undecoded())
    {
      var s := Read();
      var unit := ReadUnit(dc, s);
      if unit.Err? {
        return None, Some(unit.error);
      }
      var fullMessage := unit.value;
      var _ := ShiftN(|fullMessage|);
      frame, err := Some(fullMessage[dc.initialBytesToStrip..]), None;
      assert fullMessage[dc.initialBytesToStrip..] == s[dc.initialBytesToStrip..|fullMessage|];
    }

    // ---------- Output ----------

    /** Everything closeEvent gives up, given up at most once. */
    method CloseEvent()
      requires Wired()
      modifies this`state, this`teardown, socket`open,
               event, event.ctrl`eventPool, event.ctrl.multi
      ensures Wired() && View() == Torn(old(View())) && state == Disconnected
      ensures KeepsOthers()
    {
      if state != Disconnected {
        state := Disconnected;
        Events.Retire(event);
        teardown := teardown.(closeCallbacks := teardown.closeCallbacks + 1);
        socket.Close();
        teardown := teardown.(fdCloses := teardown.fdCloses + 1);
        teardown := teardown.(inBufferPuts := teardown.inBufferPuts + 1);
        teardown := teardown.(outBufferPuts := teardown.outBufferPuts + 1);
      }
    }

    /** Send data, or queue what the kernel does not take. */
    method Write(data: Bytes) returns (ghost took: Took)
      requires Wired() && handled
      modifies this`state, this`teardown, outBuffer, socket`open, socket`accepted, socket`refusals, socket`failures,
               event, event.ctrl`eventPool, event.ctrl.multi
      ensures Wired() && KeepsOthers()
      ensures if socket.failures > old(socket.failures) then View() == Torn(old(View()))
              else Enabled(app, old(View()), Submit(data, took))
                   && View() == Apply(app, old(View()), Submit(data, took))
      ensures Sends(data, socket.failures > old(socket.failures), old(SoFar()), SoFar())
    {
      took := Blocked;
      if !outBuffer.IsEmpty() {
        outBuffer.Write(data);
      } else {
        took := Offer(data);
      }
    }

    /** What the kernel does not take waits for a write event. */
    method PutOff(rest: Bytes)
      requires Wired() && handled
      requires state != Disconnected
      modifies outBuffer, event, event.ctrl.multi
      ensures Wired() && KeepsOthers() && outBuffer.contents == old(outBuffer.contents) + rest
      ensures event.IsWriting() && event.IsReading() == old(event.IsReading())
    {
      outBuffer.Write(rest);
      event.EnableWriting(true);
    }

    /** With no output waiting the kernel is asked first. */
    method Offer(data: Bytes) returns (ghost took: Took)
      requires Wired() && handled && outBuffer.contents == []
      modifies this`state, this`teardown, outBuffer, socket`open, socket`accepted, socket`refusals, socket`failures,
               event, event.ctrl`eventPool, event.ctrl.multi
      ensures Wired() && KeepsOthers()
      ensures if socket.failures > old(socket.failures) then View() == Torn(old(View()))
              else Enabled(app, old(View()), Submit(data, took))
                   && View() == Apply(app, old(View()), Submit(data, took))
      ensures Sends(data, socket.failures > old(socket.failures), old(SoFar()), SoFar())
    {
      hide Timer, Sends, Events.Multiplex.Elsewhere, Events.Multiplex.Holds;
      ghost var before := SoFar();
      took := Blocked;
      var r := socket.Write(data);
      match r
      case WriteAgain =>
        PutOff(data);
        SentPart(data, 0, before, SoFar());
      case WriteFailed =>
        CloseEvent();
        SendFailed(data, before, SoFar());
      case Wrote(n) =>
        took := Took(n);
        if n < |data| {
          PutOff(data[n..]);
        }
        SentPart(data, n, before, SoFar());
    }

    /** With an idle limit, now counts as the last activity: what is recorded is the second it falls in,
        and a pending timer is left as it is. */
    twostate predicate Marked(now: int)
      reads this
    {
      if idleTime > 0 then
        && IdleTimer.Recorded(activeTime) <= now < IdleTimer.Recorded(activeTime) + IdleTimer.SECOND
        && Timer().lastActivity == now && SameTimer()
      else activeTime == old(activeTime) && ticks == old(ticks)
    }

    method UpdateActivityTime(now: int)
      requires Valid() && OnTime(now)
      modifies this`activeTime, this`ticks
      ensures Valid() && OnTime(now) && Marked(now)
    {
      hide Wired, Tracks;
      if idleTime > 0 {
        activeTime := IdleTimer.UnixSeconds(now);
        ghost var after := IdleTimer.Then(idleTime, slack, start, ticks, IdleTimer.Pass(now));
        ticks := IdleTimer.Then(idleTime, slack, start, after, IdleTimer.Activity);
      }
    }

    /** A step of the machine has been made. */
    ghost method Record(step: Step, before: Traffic)
      requires Wired() && Legal(app, steps)
      requires Enabled(app, Run(app, steps), step) && View() == Apply(app, Run(app, steps), step)
      requires state != Disconnected ==> socket.received == Flatten(Chunks(steps + [step]))
      requires handled && Timed() && |past| == |steps| && Blank(if past == [] then before else past[0])
      modifies this`steps, this`past
      ensures Valid() && steps == old(steps) + [step] && past == old(past) + [before]
    {
      RunSnoc(app, steps, step);
      steps, past := steps + [step], past + [before];
    }

    /** The two write calls of writeEvent, for the two pieces of the ring. */
    method SendWaiting() returns (answer: Socket.WriteResult, ghost moved: nat)
      modifies outBuffer, socket`accepted, socket`refusals, socket`failures
      ensures moved <= |old(outBuffer.contents)| && (!socket.sendOpen ==> moved == 0)
      ensures outBuffer.contents == old(outBuffer.contents)[moved..]
      ensures socket.accepted == old(socket.accepted) + old(outBuffer.contents)[..moved]
      ensures answer.WriteAgain? ==> moved == 0 || outBuffer.contents != []
      ensures socket.failures == old(socket.failures) + if answer.WriteFailed? then 1 else 0
      ensures socket.refusals >= old(socket.refusals)
      ensures outBuffer.contents != [] || answer.WriteAgain? ==>
                answer.WriteFailed? || socket.refusals > old(socket.refusals)
    {
      ghost var out := outBuffer.contents;
      moved := 0;
      var first, end := outBuffer.PeekAll();
      answer := socket.Write(first);
      if !answer.Wrote? {
        return;
      }
      var n := answer.n;
      outBuffer.Retrieve(n);
      moved := n;
      PiecesSent(out, first, end, n);
      if n == |first| && |end| > 0 {
        answer := socket.Write(end);
        if !answer.Wrote? {
          return;
        }
        outBuffer.Retrieve(answer.n);
        moved := n + answer.n;
      }
    }

    /** Once the output is empty, write interest goes and read interest is back. */
    method OutputSent()
      requires Wired() && state != Disconnected && outBuffer.contents == []
      modifies event, event.ctrl.multi
      ensures Wired() && event.IsReading() && !event.IsWriting() && KeepsOthers()
    {
      if event.IsWriting() {
        event.EnableWriting(false);
      }
      if !event.IsReading() {
        event.EnableReading(true);
      }
    }

    method FlushOutput() returns (ghost step: Step)
      requires Wired() && state != Disconnected
      modifies this`state, this`teardown, outBuffer, socket`open, socket`accepted, socket`refusals, socket`failures,
               event, event.ctrl`eventPool, event.ctrl.multi
      ensures Wired() && KeepsOthers()
      ensures Flushed(step, old(SoFar()), SoFar()) && (state == Disconnected <==> step.Close?)
      ensures Enabled(app, old(View()), step) && View() == Apply(app, old(View()), step)
    {
      hide Timer, Flushed, Events.Multiplex.Elsewhere, Events.Multiplex.Holds;
      ghost var before := SoFar();
      ghost var moved;
      var answer;
      answer, moved := SendWaiting();
      match answer
      case WriteAgain =>
        step := if moved == 0 then Idle else Flush(moved);
        FlushedPart(step, moved, before, SoFar());
      case WriteFailed =>
        CloseEvent();
        step := Step.Close;
        FlushedPart(step, moved, before, SoFar());
      case Wrote(_) =>
        step := Flush(moved);
        if outBuffer.Size() == 0 {
          OutputSent();
        }
        FlushedPart(step, moved, before, SoFar());
    }

    method WriteOutput(ghost before: Traffic) returns (ghost step: Step)
      requires Valid() && state != Disconnected && before == SoFar().(lastActivity := before.lastActivity)
      modifies this`state, this`teardown, this`steps, this`past, outBuffer,
               socket`open, socket`accepted, socket`refusals, socket`failures,
               event, event.ctrl`eventPool, event.ctrl.multi
      ensures Valid() && steps == old(steps) + [step] && past == old(past) + [before] && KeepsOthers()
      ensures Flushed(step, before, SoFar()) && ticks == old(ticks) && (state == Disconnected <==> step.Close?)
    {
      hide Run, Legal, Apply, Enabled, Chunks, Flatten, Flushed, Events.Event.Registered, Events.EventCtrl.OthersKept;
      ghost var waiting := SoFar();
      step := FlushOutput();
      FlushedAtAnyTime(step, waiting, before, SoFar());
      ReceivedSnoc(steps, step);
      Record(step, before);
    }

    method WriteEvent(now: int) returns (ghost step: Step)
      requires Valid() && state != Disconnected && OnTime(now)
      modifies this`state, this`teardown, this`steps, this`past, this`activeTime, this`ticks,
               outBuffer, socket, event, event.ctrl`eventPool, event.ctrl.multi
      ensures Valid() && steps == old(steps) + [step] && past == old(past) + [old(SoFar())] && KeepsOthers()
      ensures Flushed(step, old(SoFar()), SoFar()) && (state == Disconnected <==> step.Close?)
      ensures Marked(now) && OnTime(now)
    {
      ghost var before := SoFar();
      UpdateActivityTime(now);
      step := WriteOutput(before);
    }

    // ---------- Input ----------

    /** Hand a frame to the callback and write the encoded reply, if there is any. */
    method Answer(frame: Bytes) returns (ghost took: Took)
      requires Wired() && handled
      modifies this`state, this`teardown, outBuffer, socket`open, socket`accepted, socket`refusals, socket`failures,
               event, event.ctrl`eventPool, event.ctrl.multi
      ensures Wired() && KeepsOthers()
      ensures var data := Response(app, frame);
              if data == [] then
                View() == old(View())
                && socket.failures == old(socket.failures) && socket.refusals == old(socket.refusals)
              else if socket.failures > old(socket.failures) then View() == Torn(old(View()))
              else Enabled(app, old(View()), Submit(data, took))
                   && View() == Apply(app, old(View()), Submit(data, took))
      ensures socket.failures >= old(socket.failures) && socket.refusals >= old(socket.refusals)
      ensures old(outBuffer.contents) != [] ==>
                socket.failures == old(socket.failures) && socket.refusals == old(socket.refusals)
      ensures old(outBuffer.contents) == [] && outBuffer.contents != [] ==> socket.refusals > old(socket.refusals)
    {
      took := Blocked;
      var out := app.reply(frame);
      if out.Some? {
        var outFrame := Encode(app.codec, out.value);
        if outFrame.Ok? && |outFrame.value| > 0 {
          took := Write(outFrame.value);
        }
      }
    }

    /** Decode for the loop, which only asks whether there is a frame. */
    method ReadFrame() returns (frame: Option<Bytes>)
      requires Usable(app.codec)
      modifies this`temporaryBuf, this`byteBuffer, inBuffer
      ensures DecodeAll(app.codec, old(Undecoded())) == Ahead(frame, DecodeAll(app.codec, Undecoded()))
      ensures frame.Some? ==> |Undecoded()| < |old(Undecoded())|
      ensures frame.None? ==> Undecoded() == old(Undecoded())
                              && DecodeAll(app.codec, Undecoded()) == Parse([], Undecoded())
    {
      ghost var s := Undecoded();
      var err;
      frame, err := Decode();
      FrameTaken(app.codec, s, frame, err, Undecoded());
    }

    /** Decode and answer frame after frame until none is left. */
    method ServeAll(ghost c: Conn, ghost t: Tally) returns (ghost n: nat)
      requires Usable(app.codec) && state != Disconnected && Serving(c, t, [], 0)
      modifies this`state, this`teardown, this`temporaryBuf, this`byteBuffer,
               inBuffer, outBuffer, socket`open, socket`accepted, socket`refusals, socket`failures,
               event, event.ctrl`eventPool, event.ctrl.multi
      ensures var p := DecodeAll(app.codec, old(Undecoded()));
              Serving(c, t, Responses(app, p.frames), n) && Undecoded() == p.rest
      ensures KeepsOthers()
    {
      hide DecodeAll, Response, Serving, Wired;
      ghost var p := DecodeAll(app.codec, Undecoded());
      ghost var done: seq<Bytes> := [];
      n := 0;
      var inFrame := ReadNext(c, t, [], n);
      while inFrame.Some?
        invariant Serving(c, t, Responses(app, done), n) && KeepsOthers()
        invariant p == Following(done, Ahead(inFrame, DecodeAll(app.codec, Undecoded())))
        invariant inFrame.None? ==> p == Parse(done, Undecoded())
        decreases |Undecoded()| + if inFrame.Some? then 1 else 0
      {
        n := AnswerNext(inFrame.value, c, t, Responses(app, done), n);
        DoneSnoc(app, done, inFrame.value, DecodeAll(app.codec, Undecoded()));
        done := done + [inFrame.value];
        inFrame := ReadNext(c, t, Responses(app, done), n);
      }
    }

    /** The decode loop of readEvent. */
    method ServeFrames() returns (ghost n: nat)
      requires Wired() && state != Disconnected && outBuffer.contents == []
      modifies this`state, this`teardown, this`temporaryBuf, this`byteBuffer,
               inBuffer, outBuffer, socket`open, socket`accepted, socket`refusals, socket`failures,
               event, event.ctrl`eventPool, event.ctrl.multi
      ensures Wired() && KeepsOthers()
      ensures var p := DecodeAll(app.codec, old(Undecoded()));
              var responses := Responses(app, p.frames);
              if state == Disconnected then View() == Torn(old(View()))
              else n <= |responses| && (Shut(old(View())) ==> responses == [])
                   && View() == Sent(old(View()), inBuffer.contents, responses, n)
                   && Undecoded() == p.rest && (n < |responses| ==> socket.refusals > old(socket.refusals))
      ensures state == Disconnected <==> socket.failures > old(socket.failures)
      ensures socket.failures >= old(socket.failures) && socket.refusals >= old(socket.refusals)
    {
      hide DecodeAll, Responses;
      n := ServeAll(View(), Tally(socket.failures, socket.refusals));
    }

    /** So far the responses have been handed over, and the kernel, asked until it put some off, has n
        bytes of them; or a failed write has closed the connection. */
    ghost predicate Serving(c: Conn, t: Tally, responses: Bytes, n: nat)
      reads this, inBuffer, outBuffer, socket, event, event.ctrl, event.ctrl.multi
    {
      && Wired() && handled && c.handled && Open(c)
      && n <= |responses| && socket.failures >= t.failures && socket.refusals >= t.refusals
      && (state == Disconnected <==> socket.failures > t.failures)
      && if state == Disconnected then View() == Torn(c)
         else View() == Sent(c, inBuffer.contents, responses, n) && (n < |responses| ==> socket.refusals > t.refusals)
              && (Shut(c) ==> responses == [])
    }

    method ReadNext(ghost c: Conn, ghost t: Tally, ghost responses: Bytes, ghost n: nat)
      returns (inFrame: Option<Bytes>)
      requires Serving(c, t, responses, n)
      modifies this`temporaryBuf, this`byteBuffer, inBuffer
      ensures Serving(c, t, responses, n)
      ensures DecodeAll(app.codec, old(Undecoded())) == Ahead(inFrame, DecodeAll(app.codec, Undecoded()))
      ensures inFrame.Some? ==> |Undecoded()| < |old(Undecoded())|
      ensures inFrame.None? ==> Undecoded() == old(Undecoded())
                                && DecodeAll(app.codec, Undecoded()) == Parse([], Undecoded())
    {
      inFrame := ReadFrame();
    }

    method AnswerNext(frame: Bytes, ghost c: Conn, ghost t: Tally, ghost responses: Bytes, ghost n: nat)
      returns (ghost n': nat)
      requires Serving(c, t, responses, n)
      modifies this`state, this`teardown, outBuffer,
               socket`open, socket`accepted, socket`refusals, socket`failures,
               event, event.ctrl`eventPool, event.ctrl.multi
      ensures Serving(c, t, responses + Response(app, frame), n') && KeepsOthers()
      ensures Undecoded() == old(Undecoded())
    {
      hide Response, Events.Multiplex.Elsewhere, Events.Multiplex.Holds;
      ghost var data := Response(app, frame);
      ghost var took := Answer(frame);
      n' := n;
      if data == [] {
        assert responses + data == responses;
      } else if state != Disconnected {
        SendMore(app, c, inBuffer.contents, responses, n, data, took);
        n' := SentAfter(responses, n, took);
      }
    }

    /** Decode and answer what has been read, then keep the rest. */
    method TakeChunk(chunk: Bytes) returns (ghost step: Step)
      requires Wired() && state != Disconnected && outBuffer.contents == []
      requires 0 < |chunk| <= MAX_READ
      modifies this`state, this`teardown, this`temporaryBuf, this`byteBuffer,
               inBuffer, outBuffer, socket`open, socket`accepted, socket`refusals, socket`failures,
               event, event.ctrl`eventPool, event.ctrl.multi
      ensures Wired() && KeepsOthers()
      ensures step == Step.Close || (step.ReadData? && step.chunk == chunk)
      ensures step == Step.Close <==> socket.failures > old(socket.failures)
      ensures step.ReadData? && outBuffer.contents != [] ==> socket.refusals > old(socket.refusals)
      ensures socket.failures >= old(socket.failures) && socket.refusals >= old(socket.refusals)
      ensures Enabled(app, old(View()), step) && View() == Apply(app, old(View()), step)
    {
      hide DecodeAll, Responses, Events.Multiplex.Elsewhere, Events.Multiplex.Holds;
      ghost var c := View();
      temporaryBuf := chunk;
      ghost var n := ServeFrames();
      inBuffer.Write(temporaryBuf);
      step := if state == Disconnected then Step.Close else ReadData(chunk, n);
      if state != Disconnected {
        ReadDataIsSent(app, c, chunk, n);
      }
    }

    /** What readEvent does: nothing but stop reading while output is waiting. */
    method TakeInput() returns (ghost step: Step)
      requires Wired() && state != Disconnected
      modifies this`state, this`teardown, this`temporaryBuf, this`byteBuffer,
               inBuffer, outBuffer, socket, event, event.ctrl`eventPool, event.ctrl.multi
      ensures Wired() && KeepsOthers()
      ensures Enabled(app, old(View()), step) && View() == Apply(app, old(View()), step)
      ensures state != Disconnected ==>
                socket.received == old(socket.received) + if step.ReadData? then step.chunk else []
      ensures ReadBy(step, old(SoFar()), SoFar()) && (state == Disconnected <==> step.Close?)
    {
      hide Burst, Timer, Events.Multiplex.Elsewhere, Events.Multiplex.Holds;
      if !outBuffer.IsEmpty() {
        event.EnableReading(false);
        step := PauseReading;
      } else {
        step := ReadOnce();
      }
    }

    method ReadOnce() returns (ghost step: Step)
      requires Wired() && state != Disconnected && outBuffer.contents == []
      modifies this`state, this`teardown, this`temporaryBuf, this`byteBuffer,
               inBuffer, outBuffer, socket, event, event.ctrl`eventPool, event.ctrl.multi
      ensures Wired() && KeepsOthers()
      ensures Enabled(app, old(View()), step) && View() == Apply(app, old(View()), step)
      ensures state != Disconnected ==>
                socket.received == old(socket.received) + if step.ReadData? then step.chunk else []
      ensures ReadBy(step, old(SoFar()), SoFar()) && (state == Disconnected <==> step.Close?)
    {
      hide Burst, Timer, Events.Multiplex.Elsewhere, Events.Multiplex.Holds;
      var r := socket.Read(MAX_READ);
      match r
      case ReadAgain =>
        step := Idle;
      case Eof | ReadFailed =>
        CloseEvent();
        step := Step.Close;
      case Data(chunk) =>
        step := TakeChunk(chunk);
    }

    method ReadInput(ghost before: Traffic) returns (ghost step: Step)
      requires Valid() && state != Disconnected && before == SoFar().(lastActivity := before.lastActivity)
      modifies this`state, this`teardown, this`steps, this`past, this`temporaryBuf, this`byteBuffer,
               inBuffer, outBuffer, socket, event, event.ctrl`eventPool, event.ctrl.multi
      ensures Valid() && steps == old(steps) + [step] && past == old(past) + [before] && KeepsOthers()
      ensures ReadBy(step, before, SoFar()) && ticks == old(ticks) && (state == Disconnected <==> step.Close?)
    {
      hide Run, Legal, Apply, Enabled, Chunks, Flatten, ReadBy, Events.Event.Registered, Events.EventCtrl.OthersKept;
      ghost var waiting := SoFar();
      step := TakeInput();
      ReadAtAnyTime(step, waiting, before, SoFar());
      ReceivedSnoc(steps, step);
      Record(step, before);
    }

    method ReadEvent(now: int) returns (ghost step: Step)
      requires Valid() && state != Disconnected && OnTime(now)
      modifies this`state, this`teardown, this`steps, this`past, this`activeTime, this`ticks, this`temporaryBuf,
               this`byteBuffer,
               inBuffer, outBuffer, socket, event, event.ctrl`eventPool, event.ctrl.multi
      ensures Valid() && steps == old(steps) + [step] && past == old(past) + [old(SoFar())] && KeepsOthers()
      ensures ReadBy(step, old(SoFar()), SoFar()) && (state == Disconnected <==> step.Close?)
      ensures Marked(now) && OnTime(now)
    {
      ghost var before := SoFar();
      UpdateActivityTime(now);
      step := ReadInput(before);
    }

    // ---------- Opening, closing and other goroutines ----------

    /** Register with the multiplexer and start reading. */
    method StartReading()
      requires event.Gone() && event.events == Interest.EVENT_NONE
      modifies event, event.ctrl`eventPool, event.ctrl.multi
      ensures event.Registered() && event.IsReading() && !event.IsWriting() && Interest.WantsErrors(event.events)
      ensures event.ctrl.eventPool == old(event.ctrl.eventPool)[event.eventFd := event]
      ensures event.ctrl.OthersKept(event.eventFd)
    {
      hide Events.Multiplex.Elsewhere;
      event.Register();
      event.EnableReading(true);
      event.EnableErrorEvent(true);
    }

    /** Before the connection is opened its timer is pending unless it has gone off and been refused. */
    lemma NewTimer()
      requires Timed() && !handled
      ensures idleTime > 0 ==> (Timer().refused.Some? <==> deadline == None)
    {
      if idleTime > 0 {
        IdleTimer.Invariant(idleTime, slack, start, ticks);
      }
    }

    /** What newConnected queues to put a new connection into its loop. */
    method ConnectedHandle()
      requires Valid() && !handled
      modifies this`state, this`handled, this`steps, this`past, this`openedUnguarded, event, event.ctrl`eventPool,
               event.ctrl.multi
      ensures Valid() && steps == old(steps) + [Connect] && state == Connected && handled
      ensures past == old(past) + [old(SoFar())] && SoFar() == old(SoFar())
      ensures event.ctrl.eventPool == old(event.ctrl.eventPool)[event.eventFd := event]
      ensures event.ctrl.OthersKept(event.eventFd)
      ensures idleTime > 0 ==> (openedUnguarded <==> old(deadline) == None)
      ensures Interest.WantsErrors(event.events)
    {
      BeforeConnect(app, steps);
      NewTimer();
      ghost var before := SoFar();
      StartReading();
      state := Connected;
      handled := true;
      openedUnguarded := deadline == None;
      ReceivedSnoc(steps, Connect);
      Record(Connect, before);
    }

    /** closeEvent when it is a handler or a task of its own. */
    method CloseNow()
      requires Valid() && handled
      modifies this`state, this`teardown, this`steps, this`past, socket`open,
               event, event.ctrl`eventPool, event.ctrl.multi
      ensures Valid() && steps == old(steps) + [Step.Close] && state == Disconnected && KeepsOthers()
      ensures past == old(past) + [old(SoFar())] && SoFar() == old(SoFar())
      ensures old(state) == Disconnected ==> teardown == old(teardown)
    {
      hide Timer, Run, Legal, Chunks, Flatten, IdleTimer.Run, IdleTimer.Legal, Events.Event.Registered,
           Events.EventCtrl.OthersKept;
      ghost var before := SoFar();
      CloseEvent();
      Record(Step.Close, before);
    }

    /** HandleEvent: one handler for one readiness report. */
    method HandleEvent(revents: Interest.EventType, now: int)
      requires Valid() && state != Disconnected && OnTime(now)
      modifies this`state, this`teardown, this`steps, this`past, this`activeTime, this`ticks, this`temporaryBuf,
               this`byteBuffer,
               inBuffer, outBuffer, socket, event, event.ctrl`eventPool, event.ctrl.multi
      ensures Valid() && OnTime(now) && SameTimer() && KeepsOthers()
      ensures match Events.Chosen(revents)
              case None => Told() == old(Told()) && activeTime == old(activeTime) && state == old(state)
              case Some(h) =>
                |steps| == |old(steps)| + 1 && old(steps) <= steps && past == old(past) + [old(SoFar())]
                && HandlerDone(h, idleTime > 0, now, steps[|old(steps)|], old(SoFar()), SoFar())
                && (state == Disconnected <==> steps[|old(steps)|].Close?)
                && if h == Events.OnRead || h == Events.OnWrite then Marked(now) else activeTime == old(activeTime)
    {
      hide Wired, Timed, Tracks, Begun, Timer, Flushed, ReadBy;
      OpenIsHandled();
      match Events.Chosen(revents)
      case Some(OnClose) | Some(OnError) => CloseNow();
      case Some(OnWrite) => var _ := WriteEvent(now);
      case Some(OnRead) => var _ := ReadEvent(now);
      case None =>
    }

    /** Ask the loop to close the connection; refused once it is disconnected. */
    method Close() returns (ok: bool)
      requires loop.Valid() && loop.mutex.Free?
      modifies loop
      ensures loop.Valid() && loop.mutex.Free? && ok == (state != Disconnected)
      ensures loop.SamePass()
      ensures loop.Pending() == old(loop.Pending()) + if ok then [CloseTask(this)] else []
      ensures loop.functions == old(loop.functions) + if ok then [CloseTask(this)] else []
    {
      ok := state != Disconnected;
      if ok {
        loop.RunInLoop(CloseTask(this));
      }
    }

    /** Ask the loop to send; refused unless the connection is fully open. */
    method WriteInSelfLoop(buffer: Bytes) returns (ok: bool)
      requires Valid() && loop.Valid() && loop.mutex.Free?
      modifies loop, this`queued
      ensures Valid() && loop.Valid() && loop.mutex.Free? && ok == (state == Connected)
      ensures loop.SamePass()
      ensures loop.Pending() == old(loop.Pending()) + if ok then [WriteTask(this, buffer)] else []
      ensures loop.functions == old(loop.functions) + if ok then [WriteTask(this, buffer)] else []
      ensures queued == old(queued) + if ok then [buffer] else []
    {
      hide Wired, Tracks, EventLoop.Run, EventLoop.Legal;
      ok := state == Connected;
      if ok {
        loop.RunInLoop(WriteTask(this, buffer));
        queued := queued + [buffer];
      }
    }

    method DoTask(task: Task) returns (ghost step: Step)
      requires Wired() && handled && !task.ConnectTask?
      modifies this`state, this`teardown, outBuffer, socket`open, socket`accepted, socket`refusals, socket`failures,
               event, event.ctrl`eventPool, event.ctrl.multi
      ensures Wired() && KeepsOthers()
      ensures Enabled(app, old(View()), step) && View() == Apply(app, old(View()), step)
      ensures TaskDone(task, step, old(SoFar()), SoFar())
      ensures if step.Close? then state == Disconnected else state == old(state)
    {
      match task
      case CloseTask(_) =>
        CloseEvent();
        step := Step.Close;
      case WriteTask(_, buffer) =>
        ghost var took := Write(buffer);
        step := if socket.failures > old(socket.failures) then Step.Close else Submit(buffer, took);
    }

    /** The loop runs a task of this connection, whatever has become of it meanwhile. */
    method RunTask(task: Task) returns (ghost step: Step)
      requires Valid() && handled && !task.ConnectTask?
      modifies this`state, this`teardown, this`steps, this`past, outBuffer,
               socket`open, socket`accepted, socket`refusals, socket`failures,
               event, event.ctrl`eventPool, event.ctrl.multi
      ensures Valid() && steps == old(steps) + [step] && past == old(past) + [old(SoFar())] && KeepsOthers()
      ensures TaskDone(task, step, old(SoFar()), SoFar())
      ensures if step.Close? then state == Disconnected else state == old(state)
    {
      hide Run, Legal, Apply, Enabled, Chunks, Flatten, TaskDone, Events.Event.Registered, Events.EventCtrl.OthersKept;
      ghost var before := SoFar();
      step := DoTask(task);
      ReceivedSnoc(steps, step);
      Record(step, before);
    }

    /** Stop sending: only a fully open connection changes, and then the kernel takes nothing more. */
    method ShutdownWrite()
      requires Valid() && handled
      modifies this`state, this`steps, this`past, socket`sendOpen
      ensures Valid() && steps == old(steps) + [Shutdown]
      ensures past == old(past) + [old(SoFar())] && SoFar() == old(SoFar())
      ensures old(state) == Connected ==> state == Disconnecting && !socket.sendOpen
      ensures old(state) != Connected ==> state == old(state) && socket.sendOpen == old(socket.sendOpen)
    {
      if state == Connected {
        state := Disconnecting;
        socket.ShutdownSend();
      }
      Record(Shutdown, SoFar());
    }

    lemma OpenIsHandled()
      requires Wired()
      ensures state != Disconnected ==> handled
    {
    }

    /** The idle timer goes off: the loop is asked to close, or the timer is armed again. Less than a
        second of the idle time may be missing when it asks; a close asked of a connection that is not
        open is refused, and no timer is left. */
    method CloseTimeoutConn(now: int) returns (fired: IdleTimer.Fired)
      requires Valid() && OnTime(now)
      requires deadline.Some? && deadline.value <= now
      requires loop.Valid() && loop.mutex.Free?
      modifies loop, this`deadline, this`ticks
      ensures Valid() && OnTime(now) && loop.Valid() && loop.mutex.Free? && loop.SamePass()
      ensures IdleTimer.FiredAt(idleTime, slack, old(Timer()), Timer(), now, state != Disconnected, fired)
      ensures loop.functions == old(loop.functions)
              + if fired.RequestClose? && state != Disconnected then [CloseTask(this)] else []
      ensures loop.Pending() == old(loop.Pending())
              + if fired.RequestClose? && state != Disconnected then [CloseTask(this)] else []
    {
      hide Wired, Tracks, IdleTimer.Run, IdleTimer.Legal, EventLoop.Run, EventLoop.Legal;
      OpenIsHandled();
      ticks := IdleTimer.FireSteps(idleTime, slack, start, ticks, now, state != Disconnected);
      var intervals := now - IdleTimer.Recorded(activeTime);
      if intervals >= idleTime {
        var _ := Close();
        deadline := None;
        fired := IdleTimer.RequestClose;
      } else {
        deadline := Some(now + (idleTime - intervals));
        fired := IdleTimer.Rearm(idleTime - intervals);
      }
    }

    // ---------- What holds of every connection at any time ----------

    /** End to end, on the object: what has been sent and what waits are the responses to the frames of
        the stream received, decoded in one go; the input buffer holds its undecoded suffix. */
    lemma EndToEndHere()
      requires Valid() && state != Disconnected
      requires ChunkSafe(app.codec) && NoSubmits(steps)
      ensures var p := DecodeAll(app.codec, socket.received);
              socket.accepted + outBuffer.contents == Responses(app, p.frames) && inBuffer.contents == p.rest
    {
      EndToEnd(app, steps);
    }

    /** What the client makes of it: the replies to the frames of all that it has sent, in order, and so far the
        first of them, if and only if each reply can come back. */
    lemma ClientSeesHere()
      requires Valid() && state != Disconnected
      requires ChunkSafe(app.codec) && Replies.Understood(app.codec) && NoSubmits(steps)
      requires Replies.Sized(Replies.Given(app.reply, DecodeAll(app.codec, socket.received).frames))
      ensures var sent := Replies.SentFor(app, DecodeAll(app.codec, socket.received).frames);
              && (DecodeAll(app.codec, socket.accepted + outBuffer.contents) == Parse(sent, [])
                  <==> Replies.AllComeBack(app.codec, sent))
              && (Replies.AllComeBack(app.codec, sent) ==>
                    DecodeAll(app.codec, socket.accepted).frames <= sent)
    {
      Replies.ClientSees(app, steps);
    }

    lemma ConservedHere()
      requires Valid() && state != Disconnected
      ensures socket.accepted + outBuffer.contents == Written(app, steps)
    {
      OutputConservation(app, steps);
    }

    /** An open connection is never stuck: the kernel itself is watching for what it waits for. */
    lemma NeverStuckHere()
      requires Valid() && state != Disconnected
      ensures outBuffer.contents != [] ==> event.ctrl.multi.Holds(event.eventFd, Interest.WriteFilter)
      ensures outBuffer.contents == [] ==> event.ctrl.multi.Holds(event.eventFd, Interest.ReadFilter)
    {
      NoStall(app, steps);
    }

    /** Backpressure: the kernel is watching for input except between a read event that found output waiting and
        the write event that empties it. */
    lemma PausedHere()
      requires Valid() && state != Disconnected
      ensures event.ctrl.multi.Holds(event.eventFd, Interest.ReadFilter) <==> !Paused(app, steps)
    {
      ReadsUnlessPaused(app, steps);
    }

    /** An open connection with an idle limit has a timer pending or has been asked to close, unless its
        timer went off, and was refused, before it was opened: then it has neither for good. */
    lemma GuardedExactlyHere()
      requires Valid() && state != Disconnected && idleTime > 0
      ensures deadline.Some? || Timer().requested.Some? <==> !openedUnguarded
      ensures deadline.Some? ==> Timer().now - Timer().lastActivity <= idleTime + slack
    {
      IdleTimer.IdleBound(idleTime, slack, start, ticks);
    }

    lemma TornDownOnceHere()
      requires Valid()
      ensures var n := if handled && state == Disconnected then 1 else 0; teardown == Teardown(n, n, n, n)
    {
      SingleTeardown(app, steps);
    }
  }

  /** The exception is real: a timer that goes off before ConnectedHandle has run leaves the connection
      open with no timer, and nothing asked of its loop. */
  method OpenedUnguardedWitness(app: App, loop: TaskLoop.Loop<Task>, event: Events.Event, idleTime: int)
    returns (c: Connect)
    requires Usable(app.codec) && idleTime > 0 && loop.Valid() && loop.mutex.Free?
    requires event.Gone() && event.events == Interest.EVENT_NONE && event.oldEvents == Interest.EVENT_NONE
    modifies loop, event, event.ctrl`eventPool, event.ctrl.multi
    ensures fresh(c) && c.Valid() && c.event == event && c.idleTime == idleTime && c.state == Connected
    ensures c.deadline == None && c.openedUnguarded && loop.Valid() && loop.Pending() == old(loop.Pending())
  {
    c := new Connect(app, loop, event, idleTime, 0, 0);
    assert c.Timer() == IdleTimer.Made(idleTime, 0);
    var fired := c.CloseTimeoutConn(idleTime);
    c.ConnectedHandle();
  }

  /** Sending from two pieces one after the other is sending from the whole. */
  lemma PiecesSent(out: Bytes, first: Bytes, end: Bytes, n: nat)
    requires out == first + end && n <= |first|
    ensures out[..n] == first[..n]
    ensures n == |first| ==> out[n..] == end && forall m: nat :: m <= |end| ==> out[..n + m] == out[..n] + end[..m]
  {
  }

  lemma ReceivedSnoc(steps: seq<Step>, step: Step)
    ensures Flatten(Chunks(steps + [step])) == Flatten(Chunks(steps)) + if step.ReadData? then step.chunk else []
  {
    assert (steps + [step])[..|steps|] == steps;
    if step.ReadData? {
      FlattenSnoc(Chunks(steps), step.chunk);
    }
  }

  /** getUnadjustedFrameLength: the bytes of the length field. */
  method ReadLengthField(dc: DecoderConfig, input: InnerBuffer) returns (lenBuf: Result<Bytes>)
    modifies input
    ensures dc.lengthFieldLength !in SUPPORTED ==> lenBuf == Err(UnsupportedLength)
    ensures dc.lengthFieldLength in SUPPORTED ==>
              if |old(input.bytes)| < dc.lengthFieldLength then lenBuf == Err(UnexpectedEOF)
              else lenBuf.Ok? && |lenBuf.value| == dc.lengthFieldLength
                   && lenBuf.value + input.bytes == old(input.bytes)
  {
    if dc.lengthFieldLength !in SUPPORTED {
      return Err(UnsupportedLength);
    }
    var b := input.ReadN(dc.lengthFieldLength);
    lenBuf := if b.None? then Err(UnexpectedEOF) else Ok(b.value);
  }

  method ReadHeader(dc: DecoderConfig, input: InnerBuffer) returns (header: Result<Bytes>)
    modifies input
    ensures if |old(input.bytes)| < HeaderLength(dc) then header == Err(UnexpectedEOF)
            else header.Ok? && |header.value| == HeaderLength(dc) && header.value + input.bytes == old(input.bytes)
  {
    header := Ok([]);
    if dc.lengthFieldOffset > 0 {
      var h := input.ReadN(dc.lengthFieldOffset);
      header := if h.None? then Err(UnexpectedEOF) else Ok(h.value);
    }
  }

  /** The full message at the front of s: header, length field and payload, read one after the other
      and put together again. */
  method ReadUnit(dc: DecoderConfig, s: Bytes) returns (unit: Result<Bytes>)
    requires Strippable(dc)
    ensures match DecodeLengthField(dc, s)
            case Frame(_, k) => unit == Ok(s[..k])
            case NoFrame(e) => e.Some? && unit == Err(e.value)
    ensures unit.Ok? ==> unit.value <= s && LengthFieldPipeline.IsUnit(dc, unit.value)
    ensures unit.Err? ==> forall k :: 0 <= k <= |s| ==> !LengthFieldPipeline.IsUnit(dc, s[..k])
  {
    LengthFieldPipeline.UnitFound(dc, s);
    unit := ReadPieces(dc, s);
  }

  /** Header, length field and payload, read through the cursor. */
  method ReadPieces(dc: DecoderConfig, s: Bytes) returns (unit: Result<Bytes>)
    requires Strippable(dc)
    ensures match DecodeLengthField(dc, s)
            case Frame(_, k) => unit == Ok(s[..k])
            case NoFrame(e) => e.Some? && unit == Err(e.value)
  {
    var input := new InnerBuffer(s);
    var header := ReadHeader(dc, input);
    if header.Err? {
      return header;
    }
    var lenBuf := ReadLengthField(dc, input);
    if lenBuf.Err? {
      return lenBuf;
    }
    assert s[HeaderLength(dc)..HeaderLength(dc) + FieldLength(dc)] == lenBuf.value;
    var msgLength := MessageLength(dc, lenBuf.value);
    var msg := input.ReadN(msgLength);
    if msg.None? {
      return Err(UnexpectedEOF);
    }
    var fullMessage := Assemble(header.value, lenBuf.value, msg.value);
    unit := Ok(fullMessage[..]);
    assert fullMessage[..] == s[..fullMessage.Length] by {
      assert s == fullMessage[..] + input.bytes;
    }
    assert s == header.value + (lenBuf.value + (msg.value + input.bytes));
  }

  /** The three copies into fullMessage. */
  method Assemble(header: Bytes, lenBuf: Bytes, msg: Bytes) returns (fullMessage: array<Byte>)
    ensures fresh(fullMessage)
    ensures fullMessage[..] == header + lenBuf + msg
  {
    fullMessage := new Byte[|header| + |lenBuf| + |msg|](_ => 0);
    Copy(fullMessage, 0, header);
    assert fullMessage[..|header|] == header;
    Copy(fullMessage, |header|, lenBuf);
    assert fullMessage[..|header| + |lenBuf|] == header + lenBuf;
    Copy(fullMessage, |header| + |lenBuf|, msg);
  }
}
