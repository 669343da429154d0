/** One connection as a state machine: a queue of undecoded bytes, a queue of unsent bytes and two
    interest bits. The ring buffers, the split chunks and the single write calls of the connection
    class do not appear here; the class is shown to move only along the steps of this machine. */
module Session {
  import opened Prelude
  import opened Codec
  import opened Framing

  /** The codec and the message callback of the application. */
  datatype App = App(codec: Codec, reply: Bytes -> Option<Bytes>)

  datatype ConnectState = Disconnected | Connecting | Connected | Disconnecting

  /** How often each resource was given up. */
  datatype Teardown = Teardown(fdCloses: nat, closeCallbacks: nat, inBufferPuts: nat, outBufferPuts: nat)

  datatype Conn = Conn(
    state: ConnectState,
    pending: Bytes,   // undecoded input
    out: Bytes,       // unsent output
    accepted: Bytes,  // output taken by the kernel
    reading: bool,
    writing: bool,
    handled: bool,    // ConnectedHandle has run
    teardown: Teardown)

  /** The answer of the kernel to a write. */
  datatype Took = Took(n: nat) | Blocked

  datatype Step =
    | Connect                          // ConnectedHandle
    | ReadData(chunk: Bytes, n: nat)   // readEvent: n bytes of the responses were taken
    | PauseReading                     // readEvent while output is waiting
    | Flush(n: nat)                    // writeEvent: n bytes of the output were taken
    | Submit(data: Bytes, took: Took)  // a queued WriteInSelfLoop task runs
    | Shutdown                         // ShutdownWrite: the kernel takes nothing any more
    | Idle                             // a handler that changes nothing
    | Close                            // closeEvent, whatever called it

  // ---------- The machine ----------

  const MAX_READ: nat := 0xFFFF

  /** What is written for one frame. A nil reply, or one that does not encode, is skipped. */
  function Response(app: App, frame: Bytes): Bytes
    requires Usable(app.codec)
  {
    match app.reply(frame)
    case None => []
    case Some(out) =>
      match Encode(app.codec, out)
      case Ok(data) => data
      case Err(_) => []
  }

  function Responses(app: App, frames: seq<Bytes>): Bytes
    requires Usable(app.codec)
  {
    if frames == [] then [] else Response(app, frames[0]) + Responses(app, frames[1..])
  }

  predicate Open(c: Conn) {
    c.state != Disconnected
  }

  function Initial(): Conn {
    Conn(Disconnected, [], [], [], false, false, false, Teardown(0, 0, 0, 0))
  }

  function Torn(c: Conn): Conn {
    if !Open(c) then c
    else
      var t := c.teardown;
      Conn(Disconnected, [], [], [], false, false, c.handled,
           Teardown(t.fdCloses + 1, t.closeCallbacks + 1, t.inBufferPuts + 1, t.outBufferPuts + 1))
  }

  /** The bytes one read event hands to write. */
  function Burst(app: App, c: Conn, chunk: Bytes): Bytes
    requires Usable(app.codec)
  {
    Responses(app, DecodeAll(app.codec, c.pending + chunk).frames)
  }

  /** The sending side has been shut down: every write of anything fails, and a failed write closes. */
  predicate Shut(c: Conn) {
    c.state == Disconnecting
  }

  predicate Enabled(app: App, c: Conn, step: Step)
    requires Usable(app.codec)
  {
    match step
    case Connect => !c.handled && !Open(c)
    case ReadData(chunk, n) =>
      && Open(c) && c.out == [] && 0 < |chunk| <= MAX_READ && n <= |Burst(app, c, chunk)|
      && (Shut(c) ==> Burst(app, c, chunk) == [])
    case PauseReading => Open(c) && c.out != []
    case Flush(n) => Open(c) && n <= |c.out| && (Shut(c) ==> n == 0)
    case Submit(data, took) =>
      c.handled && (took.Took? ==> took.n <= |data|) && (Shut(c) && c.out == [] ==> data == [])
    case Shutdown | Idle | Close => true
  }

  function Apply(app: App, c: Conn, step: Step): Conn
    requires Usable(app.codec) && Enabled(app, c, step)
  {
    match step
    case Connect => c.(state := Connected, reading := true, handled := true)
    case ReadData(chunk, n) =>
      var burst := Burst(app, c, chunk);
      c.(pending := DecodeAll(app.codec, c.pending + chunk).rest,
         out := burst[n..],
         accepted := c.accepted + burst[..n],
         writing := c.writing || n < |burst|)
    case PauseReading => c.(reading := false)
    case Flush(n) =>
      var d := c.(out := c.out[n..], accepted := c.accepted + c.out[..n]);
      if d.out == [] then d.(reading := true, writing := false) else d
    case Submit(data, took) =>
      if !Open(c) then c
      else if c.out != [] then c.(out := c.out + data)
      else (
        match took
        case Blocked => c.(out := data, writing := true)
        case Took(n) =>
          c.(out := data[n..], accepted := c.accepted + data[..n], writing := c.writing || n < |data|)
      )
    case Shutdown => if c.state == Connected then c.(state := Disconnecting) else c
    case Idle => c
    case Close => Torn(c)
  }

  /** Part of the way through one read event: of the responses so far the kernel has n bytes. */
  function Sent(c: Conn, pending: Bytes, responses: Bytes, n: nat): Conn
    requires n <= |responses|
  {
    c.(pending := pending, out := responses[n..], accepted := c.accepted + responses[..n],
       writing := c.writing || n < |responses|)
  }

  /** How much the kernel has after one more response. */
  function SentAfter(responses: Bytes, n: nat, took: Took): nat {
    if n == |responses| && took.Took? then n + took.n else n
  }

  /** A read event is all of that, over the frames that the chunk completes. */
  lemma ReadDataIsSent(app: App, c: Conn, chunk: Bytes, n: nat)
    requires Usable(app.codec) && Enabled(app, c, ReadData(chunk, n))
    ensures var p := DecodeAll(app.codec, c.pending + chunk);
            Apply(app, c, ReadData(chunk, n)) == Sent(c, p.rest, Responses(app, p.frames), n)
  {
  }

  lemma SendMore(app: App, c: Conn, pending: Bytes, responses: Bytes, n: nat, data: Bytes, took: Took)
    requires Usable(app.codec) && Open(c) && n <= |responses| && data != []
    requires Enabled(app, Sent(c, pending, responses, n), Submit(data, took))
    ensures var n' := SentAfter(responses, n, took);
            n' <= |responses + data|
            && Apply(app, Sent(c, pending, responses, n), Submit(data, took))
               == Sent(c, pending, responses + data, n')
  {
    var all := responses + data;
    if n < |responses| {
      assert all[n..] == responses[n..] + data && all[..n] == responses[..n];
    } else if took.Took? {
      assert all[n + took.n..] == data[took.n..];
      assert c.accepted + all[..n + took.n] == (c.accepted + responses[..n]) + data[..took.n];
    } else {
      assert all[n..] == data && all[..n] == responses[..n];
    }
  }

  /** The steps are all possible, one after the other, from a new connection. */
  predicate Legal(app: App, steps: seq<Step>)
    requires Usable(app.codec)
    decreases |steps|, 0
  {
    steps == []
    || (Legal(app, steps[..|steps| - 1])
        && Enabled(app, Run(app, steps[..|steps| - 1]), steps[|steps| - 1]))
  }

  function Run(app: App, steps: seq<Step>): Conn
    requires Usable(app.codec) && Legal(app, steps)
    decreases |steps|, 1
  {
    if steps == [] then Initial()
    else Apply(app, Run(app, steps[..|steps| - 1]), steps[|steps| - 1])
  }

  lemma RunSnoc(app: App, steps: seq<Step>, step: Step)
    requires Usable(app.codec) && Legal(app, steps) && Enabled(app, Run(app, steps), step)
    ensures Legal(app, steps + [step])
    ensures Run(app, steps + [step]) == Apply(app, Run(app, steps), step)
  {
    assert (steps + [step])[..|steps|] == steps;
  }

  /** Every step after the first base ones, unless it is a ShutdownWrite, was made by an open connection. */
  predicate MadeOpen(app: App, steps: seq<Step>, base: nat)
    requires Usable(app.codec) && Legal(app, steps)
    decreases |steps|
  {
    |steps| <= base
    || ((Open(Run(app, steps[..|steps| - 1])) || steps[|steps| - 1].Shutdown?)
        && MadeOpen(app, steps[..|steps| - 1], base))
  }

  lemma {:induction false} MadeOpenFrom(app: App, steps: seq<Step>, middle: nat, base: nat)
    requires Usable(app.codec) && Legal(app, steps) && base <= middle <= |steps|
    requires Legal(app, steps[..middle]) && MadeOpen(app, steps[..middle], base) && MadeOpen(app, steps, middle)
    ensures MadeOpen(app, steps, base)
    decreases |steps|
  {
    if middle == |steps| {
      assert steps[..middle] == steps;
    } else {
      var init := steps[..|steps| - 1];
      assert init[..middle] == steps[..middle];
      MadeOpenFrom(app, init, middle, base);
    }
  }

  // ---------- What was read and what was given to write, told from the steps alone ----------

  /** The chunks read, in order. */
  function Chunks(steps: seq<Step>): seq<Bytes> {
    if steps == [] then []
    else
      var before := Chunks(steps[..|steps| - 1]);
      match steps[|steps| - 1]
      case ReadData(chunk, _) => before + [chunk]
      case _ => before
  }

  /** The responses to the frames that one more chunk completes. */
  function NewResponses(app: App, chunks: seq<Bytes>, chunk: Bytes): Bytes
    requires Usable(app.codec)
  {
    Responses(app, DecodeAll(app.codec, Feed(app.codec, chunks).rest + chunk).frames)
  }

  /** Everything passed to write, in call order. */
  function Written(app: App, steps: seq<Step>): Bytes
    requires Usable(app.codec)
  {
    if steps == [] then []
    else
      var before := steps[..|steps| - 1];
      match steps[|steps| - 1]
      case ReadData(chunk, _) => Written(app, before) + NewResponses(app, Chunks(before), chunk)
      case Submit(data, _) => Written(app, before) + data
      case _ => Written(app, before)
  }

  predicate NoSubmits(steps: seq<Step>) {
    forall i :: 0 <= i < |steps| ==> !steps[i].Submit?
  }

  predicate NoEmptySubmits(steps: seq<Step>) {
    forall i :: 0 <= i < |steps| ==> !(steps[i].Submit? && steps[i].data == [])
  }

  /** The responses of the most recent read event that read something. */
  function LastBurst(app: App, steps: seq<Step>): Bytes
    requires Usable(app.codec)
  {
    if steps == [] then []
    else
      var before := steps[..|steps| - 1];
      match steps[|steps| - 1]
      case ReadData(chunk, _) => NewResponses(app, Chunks(before), chunk)
      case _ => LastBurst(app, before)
  }

  // ---------- Every reachable state ----------

  lemma {:induction false} BeforeConnect(app: App, steps: seq<Step>)
    requires Usable(app.codec) && Legal(app, steps)
    ensures var c := Run(app, steps);
            !c.handled ==> c == Initial() && Chunks(steps) == [] && Written(app, steps) == []
    ensures Open(Run(app, steps)) ==> Run(app, steps).handled
  {
    if steps != [] {
      BeforeConnect(app, steps[..|steps| - 1]);
    }
  }

  /** The bytes a step hands to write. */
  function Handed(app: App, c: Conn, step: Step): Bytes
    requires Usable(app.codec)
  {
    match step
    case ReadData(chunk, _) => Burst(app, c, chunk)
    case Submit(data, _) => data
    case _ => []
  }

  lemma Conserves(app: App, c: Conn, step: Step)
    requires Usable(app.codec) && Enabled(app, c, step)
    requires Open(c) && Open(Apply(app, c, step))
    ensures var d := Apply(app, c, step);
            d.accepted + d.out == (c.accepted + c.out) + Handed(app, c, step)
  {
    match step
    case ReadData(_, n) =>
      TakePart(c.accepted, Handed(app, c, step), n);
    case Flush(n) =>
      TakePart(c.accepted, c.out, n);
    case Submit(data, took) =>
      if c.out == [] && took.Took? {
        TakePart(c.accepted, data, took.n);
      } else {
        assert c.accepted + (c.out + data) == (c.accepted + c.out) + data;
      }
    case _ =>
  }

  lemma TakePart(before: Bytes, data: Bytes, n: nat)
    requires n <= |data|
    ensures (before + data[..n]) + data[n..] == before + data
  {
  }

  /** No byte is lost, doubled or reordered: taken output followed by waiting output is everything
      ever passed to write, and the undecoded input is what decoding the chunks leaves. */
  lemma {:induction false} OutputConservation(app: App, steps: seq<Step>)
    requires Usable(app.codec) && Legal(app, steps)
    ensures var c := Run(app, steps);
            Open(c) ==> c.accepted + c.out == Written(app, steps)
                        && c.pending == Feed(app.codec, Chunks(steps)).rest
  {
    if steps != [] && Open(Run(app, steps)) {
      var before, step := steps[..|steps| - 1], steps[|steps| - 1];
      var b := Run(app, before);
      OutputConservation(app, before);
      BeforeConnect(app, before);
      if Open(b) {
        Conserves(app, b, step);
        if step.ReadData? {
          FeedSnoc(app.codec, Chunks(before), step.chunk);
        }
      }
    }
  }

  lemma {:induction false} ResponsesAppend(app: App, a: seq<Bytes>, b: seq<Bytes>)
    requires Usable(app.codec)
    ensures Responses(app, a + b) == Responses(app, a) + Responses(app, b)
  {
    if a == [] {
      assert a + b == b;
    } else {
      assert (a + b)[1..] == a[1..] + b;
      ResponsesAppend(app, a[1..], b);
    }
  }

  /** Without submitted data, what is written is the response to every frame delivered. */
  lemma {:induction false} WrittenIsResponses(app: App, steps: seq<Step>)
    requires Usable(app.codec) && NoSubmits(steps)
    ensures Written(app, steps) == Responses(app, Feed(app.codec, Chunks(steps)).frames)
  {
    if steps != [] {
      var before, step := steps[..|steps| - 1], steps[|steps| - 1];
      assert NoSubmits(before);
      WrittenIsResponses(app, before);
      if step.ReadData? {
        RespondedSnoc(app, Chunks(before), step.chunk);
      }
    }
  }

  // ---------- Replies and submitted data, interleaved ----------

  /** What one step handed to write. */
  datatype Piece = Reply(data: Bytes) | Submitted(data: Bytes)

  function Pieces(app: App, steps: seq<Step>): seq<Piece>
    requires Usable(app.codec)
  {
    if steps == [] then []
    else
      var before := steps[..|steps| - 1];
      match steps[|steps| - 1]
      case ReadData(chunk, _) => Pieces(app, before) + [Reply(NewResponses(app, Chunks(before), chunk))]
      case Submit(data, _) => Pieces(app, before) + [Submitted(data)]
      case _ => Pieces(app, before)
  }

  function Joined(pieces: seq<Piece>): Bytes {
    if pieces == [] then [] else Joined(pieces[..|pieces| - 1]) + pieces[|pieces| - 1].data
  }

  /** The replies among the pieces, joined. */
  function RepliesIn(pieces: seq<Piece>): Bytes {
    if pieces == [] then []
    else
      var last := pieces[|pieces| - 1];
      RepliesIn(pieces[..|pieces| - 1]) + if last.Reply? then last.data else []
  }

  /** The submitted data among the pieces, in order. */
  function SubmittedIn(pieces: seq<Piece>): seq<Bytes> {
    if pieces == [] then []
    else
      var last := pieces[|pieces| - 1];
      SubmittedIn(pieces[..|pieces| - 1]) + if last.Submitted? then [last.data] else []
  }

  /** The data of the submissions that ran, in order. */
  function SubmitData(steps: seq<Step>): seq<Bytes> {
    if steps == [] then []
    else
      var last := steps[|steps| - 1];
      SubmitData(steps[..|steps| - 1]) + if last.Submit? then [last.data] else []
  }

  lemma OnePieceMore(pieces: seq<Piece>, piece: Piece)
    ensures Joined(pieces + [piece]) == Joined(pieces) + piece.data
    ensures RepliesIn(pieces + [piece]) == RepliesIn(pieces) + if piece.Reply? then piece.data else []
    ensures SubmittedIn(pieces + [piece]) == SubmittedIn(pieces) + if piece.Submitted? then [piece.data] else []
  {
    assert (pieces + [piece])[..|pieces|] == pieces;
  }

  lemma RespondedSnoc(app: App, chunks: seq<Bytes>, chunk: Bytes)
    requires Usable(app.codec)
    ensures Responses(app, Feed(app.codec, chunks + [chunk]).frames)
            == Responses(app, Feed(app.codec, chunks).frames) + NewResponses(app, chunks, chunk)
  {
    FeedSnoc(app.codec, chunks, chunk);
    var p := Feed(app.codec, chunks);
    ResponsesAppend(app, p.frames, DecodeAll(app.codec, p.rest + chunk).frames);
  }

  lemma {:induction false} JoinedIsWritten(app: App, steps: seq<Step>)
    requires Usable(app.codec)
    ensures Joined(Pieces(app, steps)) == Written(app, steps)
  {
    if steps != [] {
      var before, step := steps[..|steps| - 1], steps[|steps| - 1];
      JoinedIsWritten(app, before);
      if step.ReadData? {
        OnePieceMore(Pieces(app, before), Reply(NewResponses(app, Chunks(before), step.chunk)));
      } else if step.Submit? {
        OnePieceMore(Pieces(app, before), Submitted(step.data));
      }
    }
  }

  lemma {:induction false} SubmittedInOrder(app: App, steps: seq<Step>)
    requires Usable(app.codec)
    ensures SubmittedIn(Pieces(app, steps)) == SubmitData(steps)
  {
    if steps != [] {
      var before, step := steps[..|steps| - 1], steps[|steps| - 1];
      SubmittedInOrder(app, before);
      if step.ReadData? {
        OnePieceMore(Pieces(app, before), Reply(NewResponses(app, Chunks(before), step.chunk)));
      } else if step.Submit? {
        OnePieceMore(Pieces(app, before), Submitted(step.data));
      }
    }
  }

  lemma {:induction false} RepliesInOrder(app: App, steps: seq<Step>)
    requires Usable(app.codec)
    ensures RepliesIn(Pieces(app, steps)) == Responses(app, Feed(app.codec, Chunks(steps)).frames)
  {
    if steps != [] {
      var before, step := steps[..|steps| - 1], steps[|steps| - 1];
      RepliesInOrder(app, before);
      if step.ReadData? {
        OnePieceMore(Pieces(app, before), Reply(NewResponses(app, Chunks(before), step.chunk)));
        RespondedSnoc(app, Chunks(before), step.chunk);
      } else if step.Submit? {
        OnePieceMore(Pieces(app, before), Submitted(step.data));
      }
    }
  }

  /** What was written is the replies to every frame delivered and the data submitted, each in its own
      order, interleaved in whole pieces. */
  lemma WrittenInterleaves(app: App, steps: seq<Step>)
    requires Usable(app.codec)
    ensures var pieces := Pieces(app, steps);
            && Joined(pieces) == Written(app, steps)
            && SubmittedIn(pieces) == SubmitData(steps)
            && RepliesIn(pieces) == Responses(app, Feed(app.codec, Chunks(steps)).frames)
  {
    JoinedIsWritten(app, steps);
    SubmittedInOrder(app, steps);
    RepliesInOrder(app, steps);
  }

  /** End to end with data submitted from elsewhere: in every open state, whatever the reads, writes,
      partial writes and refusals, the bytes sent and waiting are an interleaving, in whole pieces, of
      the replies to the frames of the whole stream, decoded in one go, with the data submitted. */
  lemma EndToEndInterleaved(app: App, steps: seq<Step>) returns (pieces: seq<Piece>)
    requires Usable(app.codec) && ChunkSafe(app.codec)
    requires Legal(app, steps) && Open(Run(app, steps))
    ensures Run(app, steps).accepted + Run(app, steps).out == Joined(pieces)
    ensures SubmittedIn(pieces) == SubmitData(steps)
    ensures RepliesIn(pieces) == Responses(app, DecodeAll(app.codec, Flatten(Chunks(steps))).frames)
  {
    pieces := Pieces(app, steps);
    OutputConservation(app, steps);
    WrittenInterleaves(app, steps);
    ChunkingIndependence(app.codec, Chunks(steps));
  }

  /** End to end: with a chunk-safe codec, whatever the reads, writes, partial writes and refusals,
      the bytes sent and waiting are the responses to the frames of the whole stream read so far,
      decoded in one go, and the input held back is its undecoded suffix. */
  lemma EndToEnd(app: App, steps: seq<Step>)
    requires Usable(app.codec) && ChunkSafe(app.codec)
    requires Legal(app, steps) && NoSubmits(steps)
    ensures var c := Run(app, steps);
            var p := DecodeAll(app.codec, Flatten(Chunks(steps)));
            Open(c) ==> c.accepted + c.out == Responses(app, p.frames) && c.pending == p.rest
  {
    OutputConservation(app, steps);
    WrittenIsResponses(app, steps);
    ChunkingIndependence(app.codec, Chunks(steps));
  }

  /** An empty submission has been refused, with nothing waiting, since the output was last flushed
      empty. */
  predicate Stray(app: App, steps: seq<Step>)
    requires Usable(app.codec) && Legal(app, steps)
  {
    if steps == [] then false
    else
      var before := steps[..|steps| - 1];
      match steps[|steps| - 1]
      case Submit(data, took) => Stray(app, before) || (data == [] && took.Blocked? && Run(app, before).out == [])
      case Flush(_) => Stray(app, before) && Run(app, steps).out != []
      case _ => Stray(app, before)
  }

  /** Waiting output is always watched for and reading is only ever off while output waits; write
      interest is on exactly while output waits or a refused empty submission is unflushed. */
  lemma {:induction false} NoStall(app: App, steps: seq<Step>)
    requires Usable(app.codec) && Legal(app, steps)
    ensures var c := Run(app, steps);
            Open(c) ==> (c.out != [] ==> c.writing) && (!c.reading ==> c.out != [])
    ensures var c := Run(app, steps);
            Open(c) ==> (c.writing <==> c.out != [] || Stray(app, steps))
    ensures !Run(app, steps).handled ==> !Stray(app, steps)
  {
    if steps != [] {
      var before := steps[..|steps| - 1];
      NoStall(app, before);
      BeforeConnect(app, before);
    }
  }

  /** A read event has found output waiting, and no write event has emptied it since. */
  predicate Paused(app: App, steps: seq<Step>)
    requires Usable(app.codec) && Legal(app, steps)
  {
    if steps == [] then false
    else
      var before := steps[..|steps| - 1];
      match steps[|steps| - 1]
      case PauseReading => true
      case Flush(_) => Paused(app, before) && Run(app, steps).out != []
      case _ => Paused(app, before)
  }

  /** Reading is off exactly from a read event that finds output waiting to the write event that empties it. */
  lemma {:induction false} ReadsUnlessPaused(app: App, steps: seq<Step>)
    requires Usable(app.codec) && Legal(app, steps)
    ensures var c := Run(app, steps); Open(c) ==> (c.reading <==> !Paused(app, steps))
    ensures !Run(app, steps).handled ==> !Paused(app, steps)
  {
    if steps != [] {
      var before := steps[..|steps| - 1];
      ReadsUnlessPaused(app, before);
      BeforeConnect(app, before);
    }
  }

  /** If nothing empty is ever submitted, write interest is on exactly while output waits. */
  lemma {:induction false} NeverStray(app: App, steps: seq<Step>)
    requires Usable(app.codec) && Legal(app, steps) && NoEmptySubmits(steps)
    ensures !Stray(app, steps)
    ensures var c := Run(app, steps); Open(c) ==> (c.writing <==> c.out != [])
  {
    NoStall(app, steps);
    if steps != [] {
      var before, step := steps[..|steps| - 1], steps[|steps| - 1];
      assert NoEmptySubmits(before) && !(step.Submit? && step.data == []);
      NeverStray(app, before);
    }
  }

  /** The guard a caller can check: a submission keeps write interest in step with the waiting output,
      whatever the kernel answers, if and only if it is not empty or output is already waiting. */
  lemma SubmitKeepsStepExactly(app: App, c: Conn, data: Bytes)
    requires Usable(app.codec) && Open(c) && c.handled && (c.writing <==> c.out != [])
    ensures data != [] || c.out != []
            <==> forall took | Enabled(app, c, Submit(data, took)) ::
                   var d := Apply(app, c, Submit(data, took)); d.writing <==> d.out != []
  {
    if data == [] && c.out == [] {
      assert Enabled(app, c, Submit(data, Blocked));
      var d := Apply(app, c, Submit(data, Blocked));
      assert d.writing && d.out == [];
    }
  }

  /** The exception is real: submitting nothing to a kernel that refuses leaves write interest on. */
  lemma EmptySubmitWatchesForNothing(app: App)
    requires Usable(app.codec)
    ensures var steps := [Connect, Submit([], Blocked)];
            Legal(app, steps) && Run(app, steps).out == [] && Run(app, steps).writing
  {
    assert [] + [Connect] == [Connect];
    RunSnoc(app, [], Connect);
    assert [Connect] + [Submit([], Blocked)] == [Connect, Submit([], Blocked)];
    RunSnoc(app, [Connect], Submit([], Blocked));
  }

  predicate IsSuffix(a: Bytes, b: Bytes) {
    |a| <= |b| && b[|b| - |a|..] == a
  }

  lemma BackpressureStep(app: App, c: Conn, step: Step, burst: Bytes)
    requires Usable(app.codec) && Enabled(app, c, step) && !step.Submit?
    requires Open(c) ==> IsSuffix(c.out, burst)
    requires !c.handled ==> c.out == []
    ensures var d := Apply(app, c, step);
            Open(d) ==> IsSuffix(d.out, if step.ReadData? then Burst(app, c, step.chunk) else burst)
  {
    if step.Flush? {
      assert c.out[step.n..] == burst[|burst| - |c.out| + step.n..];
    }
  }

  /** Backpressure: without submitted data the output waiting is a tail of the responses to a single
      read event. */
  lemma {:induction false} Backpressure(app: App, steps: seq<Step>)
    requires Usable(app.codec) && Legal(app, steps) && NoSubmits(steps)
    ensures Open(Run(app, steps)) ==> IsSuffix(Run(app, steps).out, LastBurst(app, steps))
  {
    if steps != [] {
      var before, step := steps[..|steps| - 1], steps[|steps| - 1];
      assert NoSubmits(before) && !step.Submit?;
      Backpressure(app, before);
      BeforeConnect(app, before);
      OutputConservation(app, before);
      BackpressureStep(app, Run(app, before), step, LastBurst(app, before));
    }
  }

  /** Write events only, the i-th moving counts[i] bytes, and at least one while there is one. */
  predicate Draining(app: App, c: Conn, counts: seq<nat>)
    requires Usable(app.codec)
    decreases |counts|
  {
    counts == []
    || (Enabled(app, c, Flush(counts[0]))
        && (c.out != [] ==> counts[0] >= 1)
        && Draining(app, Apply(app, c, Flush(counts[0])), counts[1..]))
  }

  function Drained(app: App, c: Conn, counts: seq<nat>): Conn
    requires Usable(app.codec) && Draining(app, c, counts)
    decreases |counts|
  {
    if counts == [] then c else Drained(app, Apply(app, c, Flush(counts[0])), counts[1..])
  }

  /** Reading is back, and write interest off, after at most as many write events as there are bytes
      waiting. */
  lemma {:induction false} Drains(app: App, c: Conn, counts: seq<nat>)
    requires Usable(app.codec) && Open(c) && Draining(app, c, counts)
    requires |counts| >= |c.out| && counts != []
    ensures var d := Drained(app, c, counts); Open(d) && d.out == [] && d.reading && !d.writing
    decreases |counts|
  {
    if |counts| > 1 {
      Drains(app, Apply(app, c, Flush(counts[0])), counts[1..]);
    }
  }

  /** However many closes there are, from whatever source, everything is given up once, exactly when
      the connection was opened and is no longer open; a closed connection stays closed. */
  lemma {:induction false} SingleTeardown(app: App, steps: seq<Step>)
    requires Usable(app.codec) && Legal(app, steps)
    ensures var c := Run(app, steps);
            var n := if c.handled && !Open(c) then 1 else 0;
            c.teardown == Teardown(n, n, n, n)
  {
    if steps != [] {
      SingleTeardown(app, steps[..|steps| - 1]);
      BeforeConnect(app, steps[..|steps| - 1]);
    }
  }

  lemma {:induction false} StaysClosed(app: App, steps: seq<Step>, more: seq<Step>)
    requires Usable(app.codec) && Legal(app, steps) && Legal(app, steps + more)
    requires Run(app, steps).handled && !Open(Run(app, steps))
    ensures Run(app, steps + more) == Run(app, steps)
    decreases |more|
  {
    if more == [] {
      assert steps + more == steps;
    } else {
      var init := more[..|more| - 1];
      assert (steps + more)[..|steps + more| - 1] == steps + init;
      StaysClosed(app, steps, init);
    }
  }

  lemma ShutStep(app: App, c: Conn, step: Step)
    requires Usable(app.codec) && Enabled(app, c, step) && c.handled
    requires Open(c) ==> Shut(c)
    ensures var d := Apply(app, c, step);
            d.handled && (Open(d) ==> Open(c) && Shut(d) && d.accepted == c.accepted)
  {
  }

  /** After ShutdownWrite the kernel takes no further byte. */
  lemma {:induction false} NothingSentAfterShutdown(app: App, steps: seq<Step>, more: seq<Step>)
    requires Usable(app.codec) && Legal(app, steps) && Legal(app, steps + more)
    requires Shut(Run(app, steps))
    ensures var c, d := Run(app, steps), Run(app, steps + more);
            d.handled && (Open(d) ==> Shut(d) && d.accepted == c.accepted)
    decreases |more|
  {
    if more == [] {
      assert steps + more == steps;
      BeforeConnect(app, steps);
    } else {
      var init := more[..|more| - 1];
      assert (steps + more)[..|steps + more| - 1] == steps + init;
      NothingSentAfterShutdown(app, steps, init);
      ShutStep(app, Run(app, steps + init), more[|more| - 1]);
    }
  }

  /** Whether ShutdownWrite loses output: what was handed to write before it is with the kernel, at any
      time after, if and only if none was waiting when it was called. */
  lemma ShutdownDeliversExactly(app: App, steps: seq<Step>, more: seq<Step>)
    requires Usable(app.codec) && Legal(app, steps) && Run(app, steps).state == Connected
    requires Legal(app, steps + [Shutdown] + more) && Open(Run(app, steps + [Shutdown] + more))
    ensures Run(app, steps + [Shutdown] + more).accepted == Written(app, steps) <==> Run(app, steps).out == []
  {
    RunSnoc(app, steps, Shutdown);
    NothingSentAfterShutdown(app, steps + [Shutdown], more);
    OutputConservation(app, steps);
  }

  /** It does lose output: a byte that the kernel has put off when ShutdownWrite is called. */
  lemma ShutdownLosesWitness(app: App)
    requires Usable(app.codec)
    ensures var before := [Connect, Submit([1], Blocked)];
            && Legal(app, before) && Run(app, before).state == Connected && Run(app, before).out == [1]
            && Legal(app, before + [Shutdown] + []) && Open(Run(app, before + [Shutdown] + []))
            && Run(app, before + [Shutdown] + []).accepted == [] && Written(app, before) == [1]
  {
    assert [] + [Connect] == [Connect];
    RunSnoc(app, [], Connect);
    var before := [Connect, Submit([1], Blocked)];
    assert before == [Connect] + [Submit([1], Blocked)];
    RunSnoc(app, [Connect], Submit([1], Blocked));
    RunSnoc(app, before, Shutdown);
    assert before + [Shutdown] + [] == before + [Shutdown];
    OutputConservation(app, before);
  }
}
