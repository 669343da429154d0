/** The ring buffer library, by contract: a queue of bytes whose contents come back in two pieces, cut
    wherever the ring happens to wrap. */
module RingBuffer {
  import opened Prelude

  class RingBuffer {
    var contents: Bytes

    constructor ()
      ensures contents == []
    {
      contents := [];
    }

    function Size(): nat
      reads this
    {
      |contents|
    }

    predicate IsEmpty()
      reads this
    {
      contents == []
    }

    method Write(data: Bytes)
      modifies this
      ensures contents == old(contents) + data
    {
      contents := contents + data;
    }

    /** Drop up to n bytes. */
    method Retrieve(n: nat)
      modifies this
      ensures contents == if n <= |old(contents)| then old(contents)[n..] else []
    {
      contents := if n <= |contents| then contents[n..] else [];
    }

    /** Up to n bytes, not dropped. */
    method Peek(n: nat) returns (first: Bytes, end: Bytes)
      ensures first + end == if n <= |contents| then contents[..n] else contents
    {
      var all := if n <= |contents| then contents[..n] else contents;
      var cut: nat :| cut <= |all|;
      first, end := all[..cut], all[cut..];
    }

    method PeekAll() returns (first: Bytes, end: Bytes)
      ensures first + end == contents
    {
      first, end := Peek(|contents|);
      assert contents[..|contents|] == contents;
    }

    method Reset()
      modifies this
      ensures contents == []
    {
      contents := [];
    }
  }
}
