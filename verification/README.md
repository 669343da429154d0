# Verification model of the reactor's connections, codecs and event loop

The project models, in Dafny 4.11, the parts of this Go network library where bytes and wake-ups can be
lost: the frame codecs over the two-segment input buffer, the output queue with its interest bits, the
registration of interest with kqueue and epoll, the dispatch of a batch of readiness reports, the queue of
functions shared with other goroutines, and the idle timer. `dafny verify dfyconfig.toml` checks it.

## How it is put together

| file | what it holds |
|---|---|
| `Prelude.dfy` | bytes, options, concatenation |
| `Codec.dfy` | the five codecs as functions, length fields, 64-bit arithmetic |
| `Framing.dfy` | the decode loop over a whole stream: chunking, splitting, partition |
| `LengthFieldPipeline.dfy` | encoder and decoder of length-field frames end to end |
| `Session.dfy` | one connection as a small state machine, and what every run of it keeps |
| `Replies.dfy` | from the values of the message callback to the frames that the client decodes |
| `RingBuffer.dfy`, `Socket.dfy` | the ring library and the kernel's read and write, by contract |
| `Connection.dfy` | the connection class, moving only along steps of `Session` |
| `Interest.dfy` | masks, change lists and epoll masks, and a machine that drives both backends |
| `Events.dfy` | the multiplexer, event and event-control classes, and which handler a report runs |
| `EventLoop.dfy` | the loop, producers and callers of `Stop` as interleaved atomic steps |
| `TaskLoop.dfy` | the event loop class, moving only along steps of `EventLoop` |
| `IdleTimer.dfy` | the idle timeout |
| `Descriptors.dfy` | descriptor numbers and rings that are used again, and whose bytes reach whom |
| `Rounds.dfy` | what a batch of handlers, a task and a pass over the queue make of a loop's connections, on values |
| `Reactor.dfy` | a loop with all its connections: dispatch, the pass over the queue, a round, Stop, and what all keep |

Five machines (`Session`, `EventLoop`, `Interest`, `IdleTimer`, `Descriptors`) are sequences of steps from an initial state:
`Legal` (`History` in `Interest`) says that each step is possible where it is taken, and `Run` (`After`) gives
the state reached. Their theorems hold of every legal sequence. The connection and the loop object carry a
ghost list of the steps made so far, of `Session` and `IdleTimer` in the one and of `EventLoop` in the other,
and `Valid()` says that their fields are what `Run` gives for that list; so the theorems about runs hold of
every such object at any time between two calls (`EndToEndHere`, `GuardedExactlyHere`, `WillWake` and others
state this). The classes of `Events` carry no list: their contracts say what each call makes of the masks and
of what the kernel holds, and the theorems of `Interest` are about its own machine.

`Reactor` puts many connections on one loop. A call on one connection leaves every other valid
(`CallKeepsConnections`), because it takes no descriptor but its own out of the pool and leaves the interest
of the others alone; the pool leads to open connections only, which is what a handler relies on. Between any
two handlers and any two queued functions anything may happen, any number of times, from callbacks or from
other goroutines (`Meanwhile`): `Close`, `WriteInSelfLoop` and `ShutdownWrite` are called, timers that are due
go off, new connections are made on descriptors the kernel hands out again, and `Stop` is called. A `Ledger`
(`Rounds`) is what a loop and its connections amount to at one moment; `TaskRun`, `Handled`, `Dispatched` and
`Passed` relate the ledgers before and after a task, a handler, a batch and a pass. It holds the story of each
connection: its steps, and before and after each of them the traffic with the kernel (output waiting and taken,
answers to reads, failed and refused writes) and the time of the last activity. `HandlerDone` and `TaskDone` say
which step with which traffic a handler or a task may add to a story, and stories have no gaps.

The kernel is nondeterministic. A read may give any 1 to 65535 bytes, end of file, a refusal or an error; a
write may take any prefix, be refused or fail. Its answers are recorded, and the contracts of the
connection's methods say which answer leads to which step: the connection closes exactly when a read or
write failed, and output waits only when the kernel put some off. The split in which a ring buffer returns
its contents is arbitrary, which covers every position of the wrap.

## Findings

* Frames are independent of how the stream is cut into reads exactly for the line, delimiter and
  length-field codecs and for a fixed length of 1. The built-in codec and every other fixed length deliver
  whatever has arrived (`ChunkingIndependentExactly`, with a two-byte witness).
* The length-field encoder checks that the length fits for fields of 1, 2 and 3 bytes but not for 4, where it
  is cut to 32 bits. A message comes back exactly when it is not empty and, for a 4-byte field, its encoded
  length is below 2^32 (`UnitRoundTrip`). With adjustments of 2^32 that cancel, a one-byte message is lost
  (`CutLengthWitness`). Length sums wrap as 64-bit integers do; the round trip survives that wrap.
* `UnRegister` deletes from kqueue what the previous mask asked for, not what the current mask asks for. Called
  right after a filter was enabled it leaves that filter registered; it leaves nothing exactly when the
  previous mask has every filter of the current one, as it does after `DisableAll` (`UnRegisterLeaves`,
  `UnRegisterWitness`). Over all histories the two backends agree at every moment if and only if every
  `UnRegister` found it so (`BackendsAgreeExactly`).
* A reply that cannot be encoded is skipped without a word. The client, with the same codec, decodes the replies
  sent, in order, if and only if each of them is free of the delimiter, has exactly the fixed length (the encoder
  accepts any multiple of it), or is not empty and has a length that its field can hold (`ClientDecodes`, `ClientSees`).
* Submitting an empty slice, if the kernel refuses it, turns write interest on with nothing to write
  (`EmptySubmitWatchesForNothing`). A submission keeps write interest in step with the waiting output, whatever
  the kernel answers, if and only if it is not empty or output is already waiting (`SubmitKeepsStepExactly`);
  over a run, write interest is on exactly while output waits or such a refused submission has not been
  flushed since (`NoStall`).
* A function queued before `Stop` need not run, because the running flag is looked at after the swap
  (`QueuedBeforeStopMayNotRun`). Everything queued when `Stop` clears the flag is run if and only if the queue
  is empty then or the loop has yet to take it in this round (`StopRunsTheQueueExactly`; function by function
  `StopRunsTaskExactly`). So of the closes that `Server.Stop` queues on a loop, those still queued when the flag
  is cleared are all carried out if the loop has yet to take its queue in that round, and otherwise none of
  them is (`StopClosesExactly`).
* `Server.Stop` does not close every connection: one whose opening is still queued is in state `Disconnected`
  and refuses the close. It is opened, by the last pass, if and only if the loop has yet to take its queue when
  the flag is cleared (`StopOpensExactly`), and is then open when the loop has returned, whatever happens
  meanwhile (`StopAndReturn`, `OutlivesStop`).
* A timer that goes off before the queued `ConnectedHandle` has run is refused and not armed again: the
  connection is then open with no idle timer for good (`OpenedUnguardedWitness`). An open connection has a
  timer, or the close that it asked for is queued, exactly if that did not happen (`GuardedThroughLoop`), which
  is to say if a timer was pending when `ConnectedHandle` was called (`ConnectedHandle`).
* `ShutdownWrite` does not wait for output: at any time after it, while the connection is open, what was handed
  to write before it is with the kernel if and only if none was waiting when it was called
  (`ShutdownDeliversExactly`). A byte that the kernel had put off is never sent (`ShutdownLosesWitness`,
  `NothingSentAfterShutdown`).
* A closed connection goes on writing, with the number that its descriptor had and into the ring it had, both of
  which a new connection may have by then. Its bytes then reach another client: those of a write that was queued
  (`QueuedWriteWitness`); those that a read handler answers after the write of an earlier reply has failed and
  closed the connection, with nothing ever queued (`SecondReplyWitness`); those of a `WriteInSelfLoop` that found
  the connection open and appends after the close (`LateAppendWitness`); and, even if the number is never used
  again, those that go behind output waiting in the shared ring (`SharedRingWitness`). Whatever happens after a
  close, the bytes of the connection reach its own client only, if and only if it has no data left to write at
  the close, in the read handler it is in, in the queue, or in such a call (`CloseIsSafeExactly`).
* The comment on `ShutdownWrite` speaks of waiting until the receive buffer has been read; the code only
  changes the state and shuts the sending side down, and the model follows the code.

## Model

| member | source | states |
|---|---|---|
| Codec.FieldRoundTrip | net/protocol/codec.go:261-296 | reading a length field of any width and byte order gives the stored number modulo the capacity of the field |
| Codec.Uint24RoundTrip | net/protocol/codec.go:298-304 | the three-byte reader is the general field reader, and writing what it reads gives the same bytes |
| Codec.FieldDigits | net/protocol/codec.go:261-304 | what the byte order means: the bytes of a field are the base-256 digits of its value, the least first or the least last |
| Codec.WriteUint24 | net/protocol/codec.go:306-318 | the filled array holds the low three bytes of any int, in the order asked for |
| Codec.DecodeOne | net/protocol/codec.go:68-135 | every frame consumes at least one byte and at most what there is, for every codec, so the decode loop ends |
| Framing.LeftoverIsStuck | net/connect/connect.go:211-219 | when the loop ends the leftover is a suffix of the input and holds no further frame |
| Framing.PrefixStable | net/protocol/codec.go:83-112 | a frame found in s is found with the same length in s followed by anything |
| Framing.PrefixStableExactly | net/protocol/codec.go:67-135 | that holds for all inputs exactly for the line, delimiter and length-field codecs and fixed length 1 |
| Framing.DecodeAllAppend | net/connect/connect.go:209-222 | decoding s followed by t is decoding s and going on from its leftover with t |
| Framing.ChunkingIndependence | net/connect/connect.go:209-222 | any cut of a stream into read events gives the frames and the leftover of decoding it in one go |
| Framing.ChunkingIndependentExactly | net/connect/connect.go:209-222 | and for every cut exactly for the chunk-safe codecs |
| Framing.UnstableWitness | net/connect/connect.go:430-435 | two one-byte reads give two frames where one two-byte read gives one, for every other codec |
| Framing.SplitJoin | net/protocol/codec.go:83-112 | delimiter-free frames and leftover are what decoding yields if and only if they rejoin to the input |
| Framing.DelimiterRoundTrip | net/protocol/codec.go:77-112 | encoded messages come back, nothing left over, if and only if none contains the delimiter |
| Framing.FixedLengthPartition | net/protocol/codec.go:128-135 | the frames of a chunk rejoin to it, are just enough in number, all but the last full, and nothing is left over |
| Framing.WholeChunk | net/protocol/codec.go:68-75 | the built-in codec, and a negative fixed length, deliver each nonempty chunk as one frame |
| Framing.UnsafeLeavesNothing | net/protocol/codec.go:68-135 | the built-in and fixed-length codecs never keep bytes for the next read event |
| LengthFieldPipeline.StoredLength | net/protocol/codec.go:182-207 | what an accepted message leaves in the field: its encoded length, cut to 32 bits in a 4-byte field |
| LengthFieldPipeline.EncodedForm | net/protocol/codec.go:172-213 | which messages are accepted, with which error the others are refused, and what is made of an accepted one: a field holding its size as adjusted, cut to the width of the field, and then the message |
| LengthFieldPipeline.AnnouncedLength | net/protocol/codec.go:241-248 | the decoder works out the message's length if and only if a 4-byte field did not cut it |
| LengthFieldPipeline.UnitRoundTrip | net/protocol/codec.go:172-259 | a header of as many bytes as the configured offset (none if it is not positive) and an encoded message, with anything behind, decode to themselves less the stripped bytes if and only if the message is nonempty and its length was not cut |
| LengthFieldPipeline.CutLengthWitness | net/protocol/codec.go:201-203 | an input that fails: one byte, encoded into a 4-byte field with adjustments that cancel, is never found again |
| LengthFieldPipeline.PipelineRoundTrip | net/protocol/codec.go:172-259 | a concatenation of such units comes back unit by unit, in order, with nothing left over |
| LengthFieldPipeline.PipelineAnyChunks | net/connect/connect.go:209-222 | and does so however the stream is cut into reads |
| LengthFieldPipeline.PlainMessage | net/protocol/codec.go:172-259 | without header and with the field stripped, the frame is the message |
| LengthFieldPipeline.SplitIntoUnits | net/protocol/codec.go:227-259 | on any stream: frames and leftover are those of the decoder if and only if the stream is complete units, each stripped, and then bytes that start none; a unit has as many header bytes as the configured offset, a field, and the payload whose size is the number in the field plus the adjustment as 64 bits hold it |
| LengthFieldPipeline.StuckMeansNoUnit | net/protocol/codec.go:227-259 | the decoder finds no frame exactly when no prefix is a complete unit |
| LengthFieldPipeline.WhyNoFrame | net/protocol/codec.go:68-259 | for each codec, what is missing when there is no frame, and the error that tells it |
| Session.OutputConservation | net/connect/connect.go:266-326 | in every open state, bytes taken by the kernel then bytes waiting are everything ever passed to write, in call order, with responses and submitted data interleaved |
| Session.WrittenIsResponses | net/connect/connect.go:209-222 | without submitted data, what was passed to write is the encoded reply to every frame delivered, nil and unencodable replies skipped |
| Session.EndToEnd | net/connect/connect.go:188-326 | with a chunk-safe codec, bytes taken then waiting are the responses to the frames of the whole stream received, decoded in one go, and the input held back is its undecoded suffix |
| Session.WrittenInterleaves | net/connect/connect.go:209-222 | what was written is the replies to all frames delivered and all data submitted, each in its own order, interleaved in whole pieces |
| Session.EndToEndInterleaved | net/connect/connect.go:188-384 | with data submitted as well: bytes taken then waiting are an interleaving in whole pieces of the replies to the stream decoded in one go with the data submitted, in order |
| Replies.ResponsesCarry | net/connect/connect.go:211-219 | what is written for the frames is the bytes that carry each value the callback gave for them and the encoder accepts, in order: the value as it is, with its delimiter, or behind its length |
| Replies.ClientDecodes | net/protocol/codec.go:63-259 | a decoder with the same codec gets those values back, with nothing left over, if and only if each can come back |
| Replies.ClientSees | net/connect/connect.go:188-326 | in every open state, what the client decodes from the bytes sent and waiting is the replies to all that it has sent, in order, if and only if each can come back; and then what it has decoded so far is the first of them |
| Session.ReadsUnlessPaused | net/connect/connect.go:191-298 | reading is off exactly from a read event that finds output waiting to the write event that empties it |
| Session.NoStall | net/connect/connect.go:191-326 | waiting output implies write interest, read interest off implies waiting output, and write interest is on exactly while output waits or a refused empty submission has not been flushed since |
| Session.NeverStray | net/connect/connect.go:278-317 | if nothing empty is ever submitted, write interest is on exactly while output waits |
| Session.SubmitKeepsStepExactly | net/connect/connect.go:307-326 | write interest stays in step with the waiting output whatever the kernel answers if and only if the data is not empty or output is already waiting |
| Session.EmptySubmitWatchesForNothing | net/connect/connect.go:311-317 | a reachable state with write interest on and nothing to write, after an empty submission |
| Session.Backpressure | net/connect/connect.go:191-198 | without submitted data the output waiting is a tail of the responses to one read event |
| Session.Drains | net/connect/connect.go:278-298 | write events that each move a byte while there is one bring reading back, and turn write interest off, within as many events as bytes were waiting |
| Session.SingleTeardown | net/connect/connect.go:333-358 | descriptor, close callback and both rings are given up once each, exactly when the connection was opened and is no longer open |
| Session.StaysClosed | net/connect/connect.go:333-384 | nothing that happens to a closed connection changes it |
| Session.NothingSentAfterShutdown | net/connect/connect.go:361-367 | once the sending side is shut down the kernel takes no further byte |
| Session.ShutdownDeliversExactly | net/connect/connect.go:361-367 | while the connection is open after ShutdownWrite, everything handed to write before it is with the kernel if and only if nothing was waiting when it was called |
| Session.ShutdownLosesWitness | net/connect/connect.go:361-367 | a legal run in which a byte handed to write before ShutdownWrite is not with the kernel after it, the connection being open |
| Connection.InnerBuffer.ReadN | net/protocol/codec.go:215-224 | fails exactly for n <= 0 or n beyond the end, and otherwise returns the first n bytes and keeps the rest |
| Connection.Connect.Read | net/connect/connect.go:405-421 | for any ring split, all of the ring followed by the rest of the chunk |
| Connection.Connect.ResetBuffer | net/connect/connect.go:423-428 | nothing is left in either segment |
| Connection.Connect.ReadN | net/connect/connect.go:430-454 | the first n bytes of the two segments together, or all when n <= 0 or n exceeds them |
| Connection.Connect.ShiftN | net/connect/connect.go:456-482 | drops exactly those bytes and returns their count |
| Connection.Connect.BufferLength | net/connect/connect.go:484-486 | is the length of the two segments together |
| Connection.ReadUnit | net/protocol/codec.go:227-257 | header, length field and payload, read through the cursor and copied together, are the prefix of the stream that is a complete unit, told from the configuration; without one, the error of the first step that fails |
| Connection.Connect.Decode | net/protocol/codec.go:68-259 | takes the frame the codec finds in the undecoded bytes and exactly its bytes; without one, reports the error and takes nothing |
| Connection.Connect.ReadFrame | net/connect/connect.go:225-233 | the frame is the first of those left to decode, and the loop's buffer shrinks |
| Connection.Connect.ServeFrames | net/connect/connect.go:211-219 | the loop delivers every frame of leftover plus chunk, hands over their responses in order, and leaves the undecoded rest; it closes exactly when a write failed; other descriptors keep their registrations |
| Connection.Connect.Write | net/connect/connect.go:307-326 | sends or queues exactly the data; tries the kernel only when nothing waits, tears down exactly on failure, leaves data waiting only when the kernel put it off, and leaves every other descriptor's registration alone |
| Connection.Connect.SendWaiting | net/connect/connect.go:269-290 | the two writes of the two ring pieces take a prefix of the waiting output, whatever the split |
| Connection.Connect.WriteEvent | net/connect/connect.go:266-305 | one step of the machine: close exactly on failure, nothing or a partial flush only on refusal, interest switched when empty; counts as activity; the pool loses at most its own descriptor |
| Connection.Connect.ReadEvent | net/connect/connect.go:188-223 | one step of the machine: no read and read interest off while output waits, otherwise one read whose answer decides the step; counts as activity; the pool loses at most its own descriptor |
| Connection.Connect.CloseEvent | net/connect/connect.go:333-358 | gives everything up and leaves neither pool entry nor interest of its own if the connection was open; otherwise touches nothing; other descriptors keep theirs |
| Connection.Connect.ConnectedHandle | net/connect/connect.go:154-186 | registers the event, opens the connection, turns reading and error reports on; the pool gains its own descriptor and the others keep their registrations; with an idle limit, it is opened unguarded if and only if no timer is pending |
| Connection.Connect.HandleEvent | net/event_loop/event.go:127-152 | runs the one handler picked for the report, and no other: one step, with the traffic that the handler must have with the kernel; reading and writing count as activity at that time, closing does not; the pool loses at most its own descriptor, exactly when it closes |
| Connection.Connect.Close | net/connect/connect.go:110-119 | queues a close exactly when the connection is not disconnected |
| Connection.Connect.WriteInSelfLoop | net/connect/connect.go:375-384 | queues the data exactly when the connection is connected, and counts it as accepted exactly then |
| Connection.Connect.RunTask | net/connect/connect.go:115-117 | a queued close makes no traffic and closes; a queued write closes exactly if the kernel failed it, and otherwise its data is taken or waits behind what waited; on a closed connection it touches no registration, and otherwise none but its own |
| Connection.Connect.ShutdownWrite | net/connect/connect.go:361-367 | only a connected connection becomes disconnecting, and then its sending side is shut: every later write of anything fails |
| Connection.Connect.UpdateActivityTime | net/connect/connect.go:397-401 | with an idle limit, the whole second recorded is the one the time falls in, the time counts as the last activity of the idle timer's run, and a pending timer stays as it is; without, nothing changes |
| Connection.Connect.CloseTimeoutConn | net/connect/connect.go:121-131 | a step of the idle timer's run: it asks for a close, refused unless the connection is open, when at most a second of the idle time is missing and always after it, and otherwise arms the timer again for a later moment within the idle time |
| Connection.Connect.EndToEndHere | net/connect/connect.go:188-326 | the end-to-end theorem on the fields of any connection object |
| Connection.Connect.ClientSeesHere | net/connect/connect.go:188-326 | what the client decodes, on the fields of any connection object |
| Connection.Connect.ConservedHere | net/connect/connect.go:266-326 | output conservation on the fields of any connection object |
| Connection.Connect.NeverStuckHere | net/connect/connect.go:191-326 | while output waits the multiplexer holds the write filter, and otherwise the read filter |
| Connection.Connect.PausedHere | net/connect/connect.go:191-298 | the multiplexer holds the read filter except between a read event that found output waiting and the write event that empties it |
| Connection.Connect.GuardedExactlyHere | net/connect/connect.go:121-131 | an open connection with an idle limit has a timer pending or has been asked to close if and only if a timer was pending when it was opened; with a timer pending the idle bound has not passed |
| Connection.OpenedUnguardedWitness | net/connect/connect.go:121-131 | the calls that leave a connection open with an idle limit, no timer and nothing queued |
| Connection.Connect.TornDownOnceHere | net/connect/connect.go:333-358 | single teardown on the fields of any connection object |
| Interest.DiffMeans | net/multiplex/kqueue.go:68-89 | on its descriptor a filter follows the new mask where the masks differ and is left alone where they agree; other descriptors are left alone |
| Interest.RetryIsHarmless | net/multiplex/kqueue.go:102-109 | handing over again a list of which the kernel already took a part ends in the same registrations |
| Interest.MaskMeans | net/multiplex/epoll.go:72-88 | the epoll mask has each bit exactly when the event mask asks for it |
| Interest.OpMeans | net/event_loop/event.go:35-77 | each enable or disable call moves its own bit, of reading, writing or errors, and no other |
| Interest.BackendsAgree | net/multiplex/kqueue.go:46-110 | after any history of registrations, updates, successful or failed waits and clean unregistrations over any descriptors, what kqueue will hold, what epoll holds and what the masks ask for are the same |
| Interest.BackendsAgreeExactly | net/multiplex/kqueue.go:46-110 | over all histories, UnRegister included whenever the source accepts it, the three agree at every moment if and only if each UnRegister found its current mask covered by the previous one |
| Interest.KernelsFollowTheCalls | net/event_loop/event.go:27-71 | over such clean histories both kernels hold a filter exactly when the last call about it enabled it |
| Interest.UnRegisterLeaves | net/multiplex/kqueue.go:53-58 | UnRegister without DisableAll leaves kqueue exactly the filters that only the current mask has |
| Interest.DisabledIsClean | net/connect/connect.go:340-341 | DisableAll and then UnRegister is always clean |
| Interest.UnRegisterWitness | net/multiplex/kqueue.go:53-58 | a history that is not: reading enabled and then UnRegister leave the read filter in kqueue and nothing in epoll |
| Events.Multiplex.QueueDiff | net/multiplex/kqueue.go:68-89 | appending the diff changes what will be held for this descriptor's filters that differ and nothing else |
| Events.Multiplex.AddEvent | net/multiplex/epoll.go:99-106 | on either platform, the kernel holds the new mask; other descriptors keep theirs |
| Events.Multiplex.ModifyEvent | net/multiplex/kqueue.go:60-66 | on either platform, from the old mask held to the new mask held; other descriptors keep theirs |
| Events.Multiplex.RemoveEvent | net/multiplex/kqueue.go:53-58 | exactly which filters survive on each platform |
| Events.Multiplex.Flush | net/multiplex/kqueue.go:102-110 | success empties the list, failure keeps it, and what is held in the end is the same |
| Events.Event.Register | net/event_loop/event.go:27-29 | the event is in the pool and the kernel holds its mask |
| Events.Event.UnRegister | net/event_loop/event.go:31-33 | out of the pool; nothing is held if the mask was cleared first, and otherwise exactly what is |
| Events.Event.EnableReading | net/event_loop/event.go:35-45 | read interest is as asked, in the mask and in the kernel, write interest unchanged, other descriptors untouched |
| Events.Event.EnableWriting | net/event_loop/event.go:47-57 | write interest is as asked, in the mask and in the kernel, read interest unchanged, other descriptors untouched |
| Events.Event.EnableErrorEvent | net/event_loop/event.go:61-71 | error reports are as asked in the mask, read and write interest unchanged, other descriptors untouched |
| Events.Event.DisableAll | net/event_loop/event.go:71-77 | no interest, in the mask and in the kernel |
| Events.Retire | net/connect/connect.go:340-341 | DisableAll then UnRegister leave neither pool entry nor interest, on either platform |
| Events.WhoRuns | net/multiplex/epoll.go:149-162 | from the kernel's report to the handler that runs, on both platforms: close, error, write, read, in this order |
| EventLoop.NoLostWakeUp | net/event_loop/event_loop.go:82-105 | under every interleaving, when the loop is blocked and functions are queued, a wake-up is pending or a producer is between its append and its wake |
| EventLoop.ExactlyOnceInOrder | net/event_loop/event_loop.go:82-105 | at every step, functions run, rest of the snapshot and queue are together the functions appended, in order |
| EventLoop.SeenOnce | net/event_loop/event_loop.go:98-105 | a wake-up is reported by at most one wait, on either platform, and there is one for each function appended, so the loop is not woken more often than that |
| EventLoop.PassRunsItsSnapshot | net/event_loop/event_loop.go:93-95 | a pass can end exactly when its whole snapshot has run after what ran before, whatever is appended meanwhile |
| EventLoop.ShutdownOrdering | net/event_loop/event_loop.go:37-61 | at exit what has run is what was appended before the last swap and what is queued came after; the multiplexer is closed only after the exit |
| EventLoop.NothingAfterClose | net/event_loop/event_loop.go:52-61 | once the multiplexer is closed there is no wait and no function left to run |
| EventLoop.ClosedByStop | net/event_loop/event_loop.go:52-61 | the multiplexer is closed exactly once a call of Stop has returned |
| EventLoop.StopsCounted | net/event_loop/event_loop.go:52-61 | each call of Stop that finds the loop running clears the flag once, waits, and returns at most once |
| EventLoop.QueuedBeforeStopMayNotRun | net/event_loop/event_loop.go:41-48 | a run in which a function appended before Stop is called never runs |
| EventLoop.StopRunsTheQueueExactly | net/event_loop/event_loop.go:40-61 | at the exit after a Stop, everything queued when Stop cleared the flag has run if and only if the queue was empty then or the loop had yet to take it in its round |
| EventLoop.StopRunsTaskExactly | net/event_loop/event_loop.go:40-61 | the same function by function: one appended before the flag was cleared has run, in its place, if and only if it had been taken by then or the loop had yet to take the queue |
| EventLoop.StopLeavesQueued | net/event_loop/event_loop.go:40-61 | and if the queue had been taken, nothing more is taken, and what was queued then is still queued in order at the exit |
| TaskLoop.Loop.RunInLoop | net/event_loop/event_loop.go:98-105 | appends at the end, wakes, and returns with the mutex free |
| TaskLoop.Loop.BeginStop | net/event_loop/event_loop.go:52-57 | clears the flag and registers one more waiter, as two steps of the machine, exactly if the loop was running; the queue and the rest stay as they are |
| TaskLoop.Loop.RunAllFunctionInLoop | net/event_loop/event_loop.go:82-96 | runs exactly what was queued, in order, and leaves queued exactly what was appended meanwhile, by the tasks or by anyone else |
| TaskLoop.Loop.RunOnce | net/event_loop/event_loop.go:40-49 | one round runs exactly what was queued and what the handlers of the wait add, in order, and exits, closing the channel, exactly when Stop was called before the round, during the wait or between two functions of the pass |
| TaskLoop.Loop.WillWake | net/event_loop/event_loop.go:98-105 | no lost wake-up on the fields of any loop object |
| TaskLoop.Loop.RunsInOrder | net/event_loop/event_loop.go:82-105 | exactly once and in order on the fields of any loop object |
| IdleTimer.IdleBound | net/connect/connect.go:121-131 | a timer is pending, and no more than idleTime plus the timers' slack has passed since the last activity, exactly until a close is asked for, successfully or not; it is asked for more than idleTime less a second and at most idleTime plus the slack after the last activity |
| IdleTimer.FireSteps | net/connect/connect.go:121-131 | what a timer that goes off leads to, told by the exact time of the last activity |
| IdleTimer.RearmMovesOn | net/connect/connect.go:128 | re-arming moves the deadline past the present |
| IdleTimer.LatestRequest | net/connect/connect.go:121-131 | without slack a run in which the request comes exactly idleTime after the last activity |
| IdleTimer.EarliestRequest | net/connect/connect.go:121-131 | and one in which it comes a nanosecond less than a second earlier, the activity having been cut to whole seconds |
| Reactor.Reactor.NewConnected | net/server/server.go:141-163 | a new connection on a descriptor of its own, the kernel free to hand out those of closed ones, without steps or traffic and active from now on, with exactly one task queued that will open it; no other connection changes |
| Reactor.Reactor.CallKeepsConnections | net/connect/connect.go:333-342 | a call on one connection keeps every other connection of the loop valid, open or closed, and their descriptors apart |
| Reactor.Reactor.CallKeepsPool | net/event_loop/event_ctrl.go:33-44 | after it the pool still leads to open connections only, and nothing outside the pool is watched |
| Reactor.Reactor.HandlerEventWrap | net/event_loop/event_ctrl.go:54-68 | the connection's handler runs exactly if the descriptor is in the pool; it adds one step to the connection's story, with the traffic of that handler: a read handler with nothing waiting reads exactly once and goes by the answer, with output waiting it pauses reading, a write handler sends all that waits unless the kernel puts it off or fails; the pool loses that descriptor exactly if it closes, no other story goes on, and nothing is queued |
| Reactor.Reactor.Dispatch | net/multiplex/kqueue.go:114-133 | over a batch, with anything happening in between: an entry's handler runs exactly if its descriptor was in the pool at the start and no earlier entry of the batch closed it, and so never for a new connection given that descriptor; the story of each connection, old or new, goes on by exactly the handlers run for it, in order, each step on an open connection and with the traffic of its handler; the pool loses exactly what was closed |
| Reactor.Reactor.Meanwhile | net/connect/connect.go:110-131 | any number of calls of Close, WriteInSelfLoop, ShutdownWrite and Stop, of timers and of new connections only add to the queue, count as accepted exactly the data they queue, and neither open nor close a connection |
| Reactor.Reactor.TimerFires | net/connect/connect.go:121-131 | a timer that goes off asks for the close of an open connection more than its idle time less a second, and at most its idle time plus the slack, after its last activity in the ledger, or is armed again for a later moment within the idle time after it |
| Reactor.Reactor.RunNextTask | net/event_loop/event_loop.go:93-95 | the next function of the snapshot adds exactly its one step to the story of its own connection: it opens it and puts it into the pool, closes it and takes it out, or has its very data taken or waiting, and closes exactly if the kernel failed that write; no other story goes on |
| Reactor.Reactor.RunAllFunctionInLoop | net/event_loop/event_loop.go:82-96 | exactly what was queued runs, in order, and what is posted meanwhile is left queued; exactly the connections to be opened are opened, and all of these are open at the end; exactly those to be closed, and those of which a write failed, are closed; of each other the kernel has or will get just the data of its tasks besides what there was, and nothing counts as activity |
| Reactor.Reactor.RunOnce | net/event_loop/event_loop.go:40-49 | a round: the handlers of the batch run as Dispatch says, and then the pass as RunAllFunctionInLoop says; everything queued when it began, and everything posted while the handlers ran, has run in order, and every connection still open has been handed exactly the data accepted until the swap; the last activity of a connection is the time of the round if a reading or writing handler of its own ran, and otherwise as before; it is the last round exactly if the flag is down at its end |
| Reactor.Reactor.Stop | net/server/server.go:113-130 | every open connection of the loop has a close queued before the flag is cleared, nothing else is queued, and clearing the flag is the only step after that |
| Reactor.Reactor.StopCarriesOutExactly | net/server/server.go:113-130 | when the loop has returned, a task queued or run when the flag was cleared has run if and only if it had been taken by then or the loop had yet to take its queue in that round; a close that has run has closed |
| Reactor.Reactor.StopClosesExactly | net/server/server.go:113-130 | of the closes queued when the flag was cleared, all have closed their connection if the loop had yet to take its queue, and otherwise all are still queued and never run |
| Reactor.Reactor.UnopenedIsNotAsked | net/connect/connect.go:110-119 | a connection whose opening has not been run has no close queued |
| Reactor.Reactor.StopOpensExactly | net/server/server.go:113-130 | of the openings queued when the flag was cleared, all have been run when the loop has returned if the loop had yet to take its queue, and otherwise none |
| Reactor.Reactor.OpenAtReturn | net/server/server.go:113-130 | no close of a connection that is open when the loop has returned has run; if one was queued when the flag was cleared, the loop had taken its queue by then, and if its opening was queued, the loop had not |
| Reactor.Reactor.StopAndReturn | net/server/server.go:113-130 | Stop before the loop takes its queue: a connection whose opening is queued then is open when the loop has returned, whatever happens meanwhile |
| Reactor.Reactor.OutlivesStop | net/server/server.go:113-163 | a new connection is such a one |
| Reactor.Reactor.PoolIsTheOpenOnes | net/event_loop/event_ctrl.go:33-44 | a descriptor leads to an event exactly while the connection of that event is open |
| Reactor.Reactor.EndToEndThroughLoop | net/connect/connect.go:188-384 | what an open connection has sent and holds back is an interleaving of the replies to its whole stream with data passed to WriteInSelfLoop; that data, then what is still queued, is all that was accepted, in order |
| Reactor.Reactor.GuardedThroughLoop | net/connect/connect.go:121-131 | an open connection with an idle limit has a timer pending, or the close it asked for is queued, if and only if a timer was pending when it was opened; a pending timer is due within the idle time after the last activity in the ledger |
| Descriptors.QuietlyClosedIsFaithful | net/connect/connect.go:188-384 | over every run from the start, with any number of loops and connections: the bytes of a connection that had nothing left to write when it was closed, or is still open, have reached its own client only, however numbers and rings are used again; none of them waits in another's ring |
| Descriptors.CloseIsSafeExactly | net/connect/connect.go:307-384 | at a close, in any run: whatever follows, the bytes of the closed connection reach its own client only, if and only if it has no data left to write, in the read handler it is in, in the queue or in a call between its look at the state and its append; otherwise new connections and the writes themselves suffice for a byte to go astray |
| Descriptors.QueuedWriteWitness | net/connect/connect.go:375-384 | a run in which a byte queued by the first client's connection is sent to the second client |
| Descriptors.SecondReplyWitness | net/connect/connect.go:211-219 | a run without any queued write in which the second reply of a read handler, after the write of the first has failed, is sent to the next client |
| Descriptors.LateAppendWitness | net/connect/connect.go:375-384 | a run in which nothing is queued at the close, and a call that had found the connection open appends after it |
| Descriptors.SharedRingWitness | net/connect/connect.go:307-310 | a run in which the number is not used again, and the byte reaches the client of the connection that was given the ring |
| Descriptors.StaysSound | net/connect/connect.go:333-358 | in every run the kernel's numbers are those of the open connections, and each ring is in the pool or has one open owner |

## Left out

- Real system calls, sockets, listening and accepting: the kernel is a source of arbitrary answers. The accept side (net/accept/accept.go) only adds an event that reads.
- Socket.Socket.Write: a closed descriptor always fails here; what happens when its number or its ring has been given to another connection is told by the machine of `Descriptors`, which is not tied to the connection objects.
- Session.StaysClosed: a write queued for a closed connection changes nothing of that connection, which is what is stated; what it does to the connections that have its descriptor number and its ring by then is in `Descriptors`.
- Descriptors.CloseIsSafeExactly: is about what connections write. The rings for input come from the same pool, and a read handler that goes on after a close works on one that may have a new owner; that, and the interest in a descriptor that a late write turns on, are not modelled. A write, a close and an acceptance are each one step.
- What the buffers hold after a close: they belong to the pool, and the connection's abstract value no longer includes them. That the decode loop runs on after a failed write is modelled.
- The pool of byte buffers and the sharing of slices between `Read`, `ReadN`, `append` in Encode and the callback: returned bytes are values.
- Callbacks that use the buffer API or keep state: the message callback is a function from a frame to an optional reply; its calls of `Close`, `ShutdownWrite` and `WriteInSelfLoop` come between the handlers of a batch. The write-complete callback and the logging have no effect in the model.
- Failing registration calls: adding and modifying succeed, and an event is registered before it is enabled. A repeated kqueue delete changes nothing, and the error reports kqueue queues for it are not modelled.
- Events.Multiplex: one class with a platform constant stands for the two files that are built on different systems. The growth of the array of wait results is not modelled.
- Reactor.Reactor.Meanwhile: the handlers and functions of one round read the same clock, and what happens meanwhile happens between two of them.
- Reactor.Reactor.NewConnected: the kernel hands out no descriptor that an open connection has, and registering succeeds.
- Reactor.Reactor.Stop: asks the connections of one loop to close and clears its flag; that `Server.Stop` first stops the timers and the accepting, and waits for each loop before it stops the next, is not modelled.
- TaskLoop.Loop.RunOnce: others append and call Stop between the functions of a pass and around the wait; all other interleavings are in the machine of `EventLoop`. `Run` itself, which need not end, is the repetition of this round.
- IdleTimer.IdleBound: the clock does not go back, and a timer fires no earlier than its deadline and at most the slack later; the rounding of the timing wheel is inside the slack.
- Int is 64 bits wide, as on the platforms the multiplexers are for.
- The server's connection map, round-robin choice, options, atomics wrappers, log, benchmarks, examples and the commented-out reactor file: plumbing that would add easy members only.
