/** The kernel's side of a connection: what read and write may answer, and the bytes that have passed. */
module Socket {
  import opened Prelude

  datatype ReadResult = Data(bytes: Bytes) | Eof | ReadAgain | ReadFailed

  datatype WriteResult = Wrote(n: nat) | WriteAgain | WriteFailed

  predicate MayAnswerRead(r: ReadResult, max: nat) {
    r.Data? ==> 0 < |r.bytes| <= max
  }

  predicate MayAnswerWrite(r: WriteResult, size: nat) {
    r.Wrote? ==> r.n <= size
  }

  /** The kernel's answers are recorded, so that a caller can be held to what it was told. */
  class Socket {
    var open: bool
    var sendOpen: bool // the sending side has not been shut down
    ghost var received: Bytes
    ghost var accepted: Bytes
    ghost var readAnswers: seq<ReadResult> // every answer to a read
    ghost var refusals: nat          // writes not taken whole, or put off
    ghost var failures: nat          // writes that failed

    constructor ()
      ensures open && sendOpen && received == [] && accepted == []
      ensures readAnswers == [] && refusals == 0 && failures == 0
    {
      open, sendOpen, received, accepted, readAnswers, refusals, failures := true, true, [], [], [], 0, 0;
    }

    /** Read into a buffer of max bytes. */
    method Read(max: nat) returns (r: ReadResult)
      modifies this`received, this`readAnswers
      ensures r.Data? ==> 0 < |r.bytes| <= max
      ensures received == old(received) + if r.Data? then r.bytes else []
      ensures readAnswers == old(readAnswers) + [r]
    {
      assert MayAnswerRead(Eof, max);
      r :| MayAnswerRead(r, max);
      assert MayAnswerRead(r, max);
      received := received + if r.Data? then r.bytes else [];
      readAnswers := readAnswers + [r];
    }

    /** Any prefix may be taken, the write may be refused for now or fail. A closed descriptor fails, and
        so does sending anything once the sending side is shut down. */
    method Write(data: Bytes) returns (r: WriteResult)
      modifies this`accepted, this`refusals, this`failures
      ensures !open || (!sendOpen && data != []) ==> r == WriteFailed
      ensures r.Wrote? ==> r.n <= |data|
      ensures accepted == old(accepted) + if r.Wrote? then data[..r.n] else []
      ensures failures == old(failures) + if r.WriteFailed? then 1 else 0
      ensures refusals == old(refusals) + if r.WriteAgain? || (r.Wrote? && r.n < |data|) then 1 else 0
    {
      if open && (sendOpen || data == []) {
        assert MayAnswerWrite(WriteAgain, |data|);
        r :| MayAnswerWrite(r, |data|);
        assert MayAnswerWrite(r, |data|);
      } else {
        r := WriteFailed;
      }
      accepted := accepted + if r.Wrote? then data[..r.n] else [];
      failures := failures + if r.WriteFailed? then 1 else 0;
      refusals := refusals + if r.WriteAgain? || (r.Wrote? && r.n < |data|) then 1 else 0;
    }

    /** shutdown(2) with SHUT_WR. */
    method ShutdownSend()
      modifies this`sendOpen
      ensures !sendOpen
    {
      sendOpen := false;
    }

    method Close()
      modifies this`open
      ensures !open
    {
      open := false;
    }
  }
}
