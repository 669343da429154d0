/** The decode loop over a whole stream: how the frames depend, and do not depend, on the way the
    stream was cut into chunks. */
module Framing {
  import opened Prelude
  import opened Codec

  datatype Parse = Parse(frames: seq<Bytes>, rest: Bytes)

  /** Decode until no frame is left. */
  function DecodeAll(codec: Codec, s: Bytes): Parse
    requires Usable(codec)
    decreases |s|
  {
    match DecodeOne(codec, s)
    case NoFrame(_) => Parse([], s)
    case Frame(f, k) =>
      var p := DecodeAll(codec, s[k..]);
      Parse([f] + p.frames, p.rest)
  }

  lemma OneStep(codec: Codec, s: Bytes)
    requires Usable(codec) && DecodeOne(codec, s).Frame?
    ensures var d := DecodeOne(codec, s);
            var p := DecodeAll(codec, s[d.consumed..]);
            DecodeAll(codec, s) == Parse([d.frame] + p.frames, p.rest)
  {
  }

  lemma {:induction false} LeftoverFrom(codec: Codec, s: Bytes) returns (cut: nat)
    requires Usable(codec)
    ensures cut <= |s| && DecodeAll(codec, s).rest == s[cut..]
    ensures DecodeOne(codec, s[cut..]).NoFrame?
    decreases |s|
  {
    cut := 0;
    if DecodeOne(codec, s).Frame? {
      var k := DecodeOne(codec, s).consumed;
      cut := LeftoverFrom(codec, s[k..]);
      LeftoverCons(codec, s, k, cut);
      cut := k + cut;
    }
  }

  lemma LeftoverCons(codec: Codec, s: Bytes, k: nat, cut: nat)
    requires Usable(codec) && k + cut <= |s|
    requires DecodeOne(codec, s).Frame? && DecodeOne(codec, s).consumed == k
    requires DecodeAll(codec, s[k..]).rest == s[k..][cut..] && DecodeOne(codec, s[k..][cut..]).NoFrame?
    ensures DecodeAll(codec, s).rest == s[k + cut..] && DecodeOne(codec, s[k + cut..]).NoFrame?
  {
    OneStep(codec, s);
    DropDrop(s, k, cut);
  }

  lemma DropDrop(s: Bytes, k: nat, n: nat)
    requires k + n <= |s|
    ensures s[k..][n..] == s[k + n..]
  {
  }

  /** What is left over is a suffix of the input and holds no frame. */
  lemma LeftoverIsStuck(codec: Codec, s: Bytes)
    requires Usable(codec)
    ensures var rest := DecodeAll(codec, s).rest;
            DecodeOne(codec, rest).NoFrame? && |rest| <= |s| && rest == s[|s| - |rest|..]
  {
    var cut := LeftoverFrom(codec, s);
    assert |s| - |s[cut..]| == cut;
  }

  /** One read event: decode what was left over followed by the new chunk. */
  function FeedOne(codec: Codec, p: Parse, chunk: Bytes): Parse
    requires Usable(codec)
  {
    var q := DecodeAll(codec, p.rest + chunk);
    Parse(p.frames + q.frames, q.rest)
  }

  /** The frames delivered, and the bytes left over, after one read event per chunk. */
  function Feed(codec: Codec, chunks: seq<Bytes>): Parse
    requires Usable(codec)
  {
    if chunks == [] then Parse([], [])
    else FeedOne(codec, Feed(codec, chunks[..|chunks| - 1]), chunks[|chunks| - 1])
  }

  // ---------- Prefix stability ----------

  /** A frame found in s is found unchanged when more bytes follow. */
  predicate StableAt(codec: Codec, s: Bytes, t: Bytes)
    requires Usable(codec)
  {
    DecodeOne(codec, s).Frame? ==> DecodeOne(codec, s + t) == DecodeOne(codec, s)
  }

  /** The codecs whose frames do not depend on how much of the stream has arrived. */
  predicate ChunkSafe(codec: Codec) {
    match codec
    case BuiltIn => false
    case FixedLength(n) => n == 1
    case _ => true
  }

  lemma IndexByteStable(s: Bytes, t: Bytes, d: Byte)
    requires d in s
    ensures IndexByte(s + t, d) == IndexByte(s, d)
  {
    assert (s + t)[IndexByte(s, d)] == d;
  }

  lemma LengthFieldStable(dc: DecoderConfig, s: Bytes, t: Bytes)
    requires Strippable(dc)
    requires DecodeLengthField(dc, s).Frame?
    ensures DecodeLengthField(dc, s + t) == DecodeLengthField(dc, s)
  {
    var h := HeaderLength(dc);
    var head := h + FieldLength(dc);
    assert (s + t)[h..head] == s[h..head];
    var k := DecodeLengthField(dc, s).consumed;
    assert (s + t)[dc.initialBytesToStrip..k] == s[dc.initialBytesToStrip..k];
  }

  lemma PrefixStable(codec: Codec, s: Bytes, t: Bytes)
    requires Usable(codec) && ChunkSafe(codec)
    ensures StableAt(codec, s, t)
  {
    if DecodeOne(codec, s).Frame? {
      match codec
      case LineBased =>
        IndexByteStable(s, t, CRLF_BYTE);
        assert (s + t)[..IndexByte(s, CRLF_BYTE)] == s[..IndexByte(s, CRLF_BYTE)];
      case DelimiterBased(d) =>
        IndexByteStable(s, t, d);
        assert (s + t)[..IndexByte(s, d)] == s[..IndexByte(s, d)];
      case LengthField(_, dc) => LengthFieldStable(dc, s, t);
      case FixedLength(_) => assert (s + t)[..1] == s[..1];
    }
  }

  /** These codecs take whatever there is, up to two bytes, for one frame. */
  lemma OneFrame(codec: Codec, s: Bytes)
    requires Usable(codec) && !ChunkSafe(codec) && 1 <= |s| <= 2
    ensures DecodeOne(codec, s) == Frame(s, |s|)
    ensures DecodeAll(codec, s) == Parse([s], [])
  {
    assert s[..|s|] == s && s[|s|..] == [];
  }

  /** One byte, then another: every other codec delivers the first one too early. */
  lemma UnstableWitness(codec: Codec)
    requires Usable(codec) && !ChunkSafe(codec)
    ensures !StableAt(codec, [0], [0])
    ensures Feed(codec, [[0], [0]]) == Parse([[0], [0]], [])
    ensures DecodeAll(codec, Flatten([[0], [0]])) == Parse([[0, 0]], [])
  {
    var one: Bytes, two: Bytes := [0], [0, 0];
    OneFrame(codec, one);
    OneFrame(codec, two);
    assert one + one == two && [] + one == one;
    FeedSnoc(codec, [], one);
    FeedSnoc(codec, [one], one);
    assert [] + [one] == [one] && [one] + [one] == [one, one];
    FlattenSnoc([one], one);
    FlattenOne(one);
  }

  /** Exactly the codecs that are stable for every input. */
  lemma PrefixStableExactly(codec: Codec)
    requires Usable(codec)
    ensures ChunkSafe(codec) <==> forall s, t :: StableAt(codec, s, t)
  {
    if ChunkSafe(codec) {
      forall s, t ensures StableAt(codec, s, t) {
        PrefixStable(codec, s, t);
      }
    } else {
      UnstableWitness(codec);
    }
  }

  // ---------- Chunking independence ----------

  /** More bytes only add frames: what was decoded stays, and decoding goes on from the leftover. */
  lemma {:induction false} DecodeAllAppend(codec: Codec, s: Bytes, t: Bytes)
    requires Usable(codec) && ChunkSafe(codec)
    ensures DecodeAll(codec, s + t) == FeedOne(codec, DecodeAll(codec, s), t)
    decreases |s|
  {
    if DecodeOne(codec, s).NoFrame? {
      AppendNone(codec, s, t);
    } else {
      DecodeAllAppend(codec, s[DecodeOne(codec, s).consumed..], t);
      PrefixStable(codec, s, t);
      AppendOne(codec, s, t, DecodeOne(codec, s));
    }
  }

  lemma AppendNone(codec: Codec, s: Bytes, t: Bytes)
    requires Usable(codec) && DecodeOne(codec, s).NoFrame?
    ensures DecodeAll(codec, s + t) == FeedOne(codec, DecodeAll(codec, s), t)
  {
    assert [] + DecodeAll(codec, s + t).frames == DecodeAll(codec, s + t).frames;
  }

  lemma AppendOne(codec: Codec, s: Bytes, t: Bytes, d: Decoded)
    requires Usable(codec) && d.Frame? && d.consumed <= |s|
    requires DecodeOne(codec, s) == d && DecodeOne(codec, s + t) == d
    requires DecodeAll(codec, s[d.consumed..] + t) == FeedOne(codec, DecodeAll(codec, s[d.consumed..]), t)
    ensures DecodeAll(codec, s + t) == FeedOne(codec, DecodeAll(codec, s), t)
  {
    var tail := s[d.consumed..];
    assert (s + t)[d.consumed..] == tail + t;
    OneStep(codec, s);
    OneStep(codec, s + t);
    var p := DecodeAll(codec, tail);
    ConsAppend(d.frame, p.frames, DecodeAll(codec, p.rest + t).frames);
  }

  lemma ConsAppend<T>(x: T, a: seq<T>, b: seq<T>)
    ensures [x] + (a + b) == ([x] + a) + b
  {
  }

  lemma {:induction false} ChunkingIndependence(codec: Codec, chunks: seq<Bytes>)
    requires Usable(codec) && ChunkSafe(codec)
    ensures Feed(codec, chunks) == DecodeAll(codec, Flatten(chunks))
  {
    if chunks == [] {
      DecodeNothing(codec);
    } else {
      var init, last := chunks[..|chunks| - 1], chunks[|chunks| - 1];
      assert chunks == init + [last];
      ChunkingIndependence(codec, init);
      FlattenSnoc(init, last);
      DecodeAllAppend(codec, Flatten(init), last);
    }
  }

  lemma DecodeNothing(codec: Codec)
    requires Usable(codec)
    ensures DecodeAll(codec, []) == Parse([], [])
  {
  }

  /** The frames and the leftover are those of the whole stream for every cut exactly when the codec
      is chunk safe. */
  lemma ChunkingIndependentExactly(codec: Codec)
    requires Usable(codec)
    ensures ChunkSafe(codec)
            <==> forall chunks: seq<Bytes> :: Feed(codec, chunks) == DecodeAll(codec, Flatten(chunks))
  {
    if ChunkSafe(codec) {
      forall chunks: seq<Bytes> ensures Feed(codec, chunks) == DecodeAll(codec, Flatten(chunks)) {
        ChunkingIndependence(codec, chunks);
      }
    } else {
      UnstableWitness(codec);
      var chunks: seq<Bytes> := [[0], [0]];
      assert Feed(codec, chunks) != DecodeAll(codec, Flatten(chunks));
    }
  }

  lemma FeedSnoc(codec: Codec, chunks: seq<Bytes>, chunk: Bytes)
    requires Usable(codec)
    ensures Feed(codec, chunks + [chunk]) == FeedOne(codec, Feed(codec, chunks), chunk)
  {
    assert (chunks + [chunk])[..|chunks|] == chunks;
  }

  // ---------- Delimiters: splitting and joining ----------

  function Delimiter(codec: Codec): Byte
    requires codec.LineBased? || codec.DelimiterBased?
  {
    if codec.LineBased? then 10 else codec.delimiter
  }

  predicate Clean(frames: seq<Bytes>, d: Byte) {
    forall f :: f in frames ==> d !in f
  }

  /** Each frame followed by the delimiter. */
  function Joined(frames: seq<Bytes>, d: Byte): Bytes {
    if frames == [] then [] else frames[0] + [d] + Joined(frames[1..], d)
  }

  lemma {:induction false} SplitIsClean(codec: Codec, s: Bytes)
    requires codec.LineBased? || codec.DelimiterBased?
    ensures var p := DecodeAll(codec, s);
            var d := Delimiter(codec);
            Clean(p.frames, d) && d !in p.rest && s == Joined(p.frames, d) + p.rest
    decreases |s|
  {
    var one := DecodeOne(codec, s);
    if one.Frame? {
      var tail := s[one.consumed..];
      OneStep(codec, s);
      OneDelimited(codec, s);
      SplitIsClean(codec, tail);
      JoinedCons(one.frame, DecodeAll(codec, tail).frames, DecodeAll(codec, tail).rest, Delimiter(codec));
    }
  }

  lemma OneDelimited(codec: Codec, s: Bytes)
    requires codec.LineBased? || codec.DelimiterBased?
    requires DecodeOne(codec, s).Frame?
    ensures var one := DecodeOne(codec, s);
            Delimiter(codec) !in one.frame && s == one.frame + [Delimiter(codec)] + s[one.consumed..]
  {
  }

  lemma JoinedCons(f: Bytes, frames: seq<Bytes>, rest: Bytes, d: Byte)
    ensures Joined([f] + frames, d) + rest == f + [d] + (Joined(frames, d) + rest)
    ensures Clean([f] + frames, d) <==> d !in f && Clean(frames, d)
  {
    var all := [f] + frames;
    assert all[0] == f && all[1..] == frames;
    if d !in f && Clean(frames, d) {
      forall g | g in all ensures d !in g {
        assert g == f || g in frames;
      }
    }
    if Clean(all, d) {
      forall g | g in frames ensures d !in g {
        assert g in all;
      }
    }
  }

  lemma {:induction false} JoinedSplits(codec: Codec, frames: seq<Bytes>, rest: Bytes)
    requires codec.LineBased? || codec.DelimiterBased?
    requires Clean(frames, Delimiter(codec)) && Delimiter(codec) !in rest
    ensures DecodeAll(codec, Joined(frames, Delimiter(codec)) + rest) == Parse(frames, rest)
    decreases |frames|
  {
    var d := Delimiter(codec);
    var s := Joined(frames, d) + rest;
    if frames == [] {
      assert s == rest;
    } else {
      var f, tail := frames[0], Joined(frames[1..], d) + rest;
      assert frames == [f] + frames[1..];
      JoinedCons(f, frames[1..], rest, d);
      assert s[..|f|] == f && s[|f| + 1..] == tail;
      FirstDelimiter(s, |f|, d);
      JoinedSplits(codec, frames[1..], rest);
      OneStep(codec, s);
    }
  }

  lemma FirstDelimiter(s: Bytes, i: nat, d: Byte)
    requires i < |s| && s[i] == d && d !in s[..i]
    ensures IndexByte(s, d) == i
  {
    forall k | 0 <= k < i ensures s[k] != d {
      assert s[k] == s[..i][k];
    }
  }

  /** Splitting at the delimiter is the only way to undo joining: a list of clean frames and a clean
      leftover are what decoding yields if and only if they rejoin to the input. */
  lemma SplitJoin(codec: Codec, s: Bytes, frames: seq<Bytes>, rest: Bytes)
    requires codec.LineBased? || codec.DelimiterBased?
    ensures DecodeAll(codec, s) == Parse(frames, rest)
            <==> Clean(frames, Delimiter(codec)) && Delimiter(codec) !in rest
                 && s == Joined(frames, Delimiter(codec)) + rest
  {
    SplitIsClean(codec, s);
    if Clean(frames, Delimiter(codec)) && Delimiter(codec) !in rest
       && s == Joined(frames, Delimiter(codec)) + rest {
      JoinedSplits(codec, frames, rest);
    }
  }

  /** What the peer sends: the encodings of the messages, one after the other. */
  function Encoded(codec: Codec, msgs: seq<Bytes>): Bytes
    requires codec.LineBased? || codec.DelimiterBased?
    ensures Encoded(codec, msgs) == Joined(msgs, Delimiter(codec))
  {
    if msgs == [] then [] else Encode(codec, msgs[0]).value + Encoded(codec, msgs[1..])
  }

  /** The messages come back, with nothing left over, exactly when none holds the delimiter. */
  lemma DelimiterRoundTrip(codec: Codec, msgs: seq<Bytes>)
    requires codec.LineBased? || codec.DelimiterBased?
    ensures DecodeAll(codec, Encoded(codec, msgs)) == Parse(msgs, []) <==> Clean(msgs, Delimiter(codec))
  {
    SplitJoin(codec, Encoded(codec, msgs), msgs, []);
    assert Joined(msgs, Delimiter(codec)) + [] == Joined(msgs, Delimiter(codec));
  }

  // ---------- Fixed length and built in ----------

  /** As many pieces as it takes to hold size bytes, n to a piece: count is size / n rounded up. */
  predicate JustEnough(count: nat, n: int, size: nat) {
    (count - 1) * n < size <= count * n || (count == 0 && size == 0)
  }

  predicate FullButLast(frames: seq<Bytes>, n: int) {
    && (forall i :: 0 <= i < |frames| ==> 1 <= |frames[i]| <= n)
    && (forall i :: 0 <= i < |frames| - 1 ==> |frames[i]| == n)
  }

  /** Frames from one read event rejoin to the chunk; there are just enough of them, and all but the
      last are exactly n bytes long. Nothing is ever left over. */
  lemma {:induction false} FixedLengthPartition(n: int, s: Bytes)
    requires n > 0
    ensures var p := DecodeAll(FixedLength(n), s);
            p.rest == [] && Flatten(p.frames) == s && JustEnough(|p.frames|, n, |s|) && FullButLast(p.frames, n)
    decreases |s|
  {
    if s != [] {
      var k := if n > |s| then |s| else n;
      OneStep(FixedLength(n), s);
      FixedLengthPartition(n, s[k..]);
      var tail := DecodeAll(FixedLength(n), s[k..]).frames;
      assert s[..k] + s[k..] == s;
      assert ([s[..k]] + tail)[1..] == tail;
      assert (|tail| + 1) * n == |tail| * n + n && |tail| * n == (|tail| - 1) * n + n;
    }
  }

  /** Whatever arrives in one read event is one frame, for the built-in codec and for a fixed length
      that is not positive. */
  lemma WholeChunk(codec: Codec, s: Bytes)
    requires codec.BuiltIn? || (codec.FixedLength? && codec.frameLength < 0)
    requires s != []
    ensures DecodeAll(codec, s) == Parse([s], [])
  {
    assert s[|s|..] == [];
  }

  lemma NothingLeft(codec: Codec, s: Bytes)
    requires Usable(codec) && (codec.BuiltIn? || codec.FixedLength?)
    ensures DecodeAll(codec, s).rest == []
  {
    LeftoverIsStuck(codec, s);
  }

  lemma {:induction false} UnsafeLeavesNothing(codec: Codec, chunks: seq<Bytes>)
    requires Usable(codec) && (codec.BuiltIn? || codec.FixedLength?)
    ensures Feed(codec, chunks).rest == []
  {
    if chunks != [] {
      NothingLeft(codec, Feed(codec, chunks[..|chunks| - 1]).rest + chunks[|chunks| - 1]);
    }
  }
}
