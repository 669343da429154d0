/** What a client makes of the replies: from the values that the message callback gives, past the encoder and
    the kernel, to the frames that come out at the other end. */
module Replies {
  import opened Prelude
  import opened Codec
  import opened Framing
  import opened LengthFieldPipeline
  import opened Session

  // ---------- From the callback to the wire ----------

  /** What the callback gives for the frames, in order, where it gives anything. */
  function Given(reply: Bytes -> Option<Bytes>, frames: seq<Bytes>): seq<Bytes> {
    if frames == [] then []
    else (match reply(frames[0]) case Some(r) => [r] case None => []) + Given(reply, frames[1..])
  }

  /** The encoder accepts it: a fixed length divides its length, and its length, as adjusted, is not negative
      and fits the length field, which for a width of four or eight is not looked at. */
  predicate Encodable(codec: Codec, r: Bytes)
    requires Usable(codec)
  {
    match codec
    case FixedLength(n) => |r| % n == 0
    case LengthField(ec, _) =>
      var n := ec.lengthFieldLength;
      var v := Int64(|r| + ec.lengthAdjustment + if ec.lengthIncludesLengthFieldLength then n else 0);
      n in {1, 2, 3, 4, 8} && v >= 0 && (n < 4 ==> v < Pow256(n))
    case _ => true
  }

  function EncodableOf(codec: Codec, rs: seq<Bytes>): seq<Bytes>
    requires Usable(codec)
  {
    if rs == [] then []
    else (if Encodable(codec, rs[0]) then [rs[0]] else []) + EncodableOf(codec, rs[1..])
  }

  /** The replies that are sent for the frames. */
  function SentFor(app: App, frames: seq<Bytes>): seq<Bytes>
    requires Usable(app.codec)
  {
    EncodableOf(app.codec, Given(app.reply, frames))
  }

  /** The bytes w carry the reply r. */
  predicate Carry(codec: Codec, w: Bytes, r: Bytes) {
    match codec
    case BuiltIn => w == r
    case LineBased => w == r + [10]
    case DelimiterBased(d) => w == r + [d]
    case FixedLength(_) => w == r
    case LengthField(ec, _) =>
      var n := ec.lengthFieldLength;
      && 0 <= n <= |w| && w[n..] == r
      && FieldValue(ec.byteOrder, w[..n])
         == (|r| + ec.lengthAdjustment + if ec.lengthIncludesLengthFieldLength then n else 0) % Pow256(n)
  }

  lemma EncodeMeans(codec: Codec, r: Bytes)
    requires Usable(codec)
    ensures Encode(codec, r).Ok? <==> Encodable(codec, r)
    ensures Encode(codec, r).Ok? ==> Carry(codec, Encode(codec, r).value, r)
  {
    if codec.LengthField? {
      EncodedForm(codec.encoder, r);
    }
  }

  /** The encodings of the replies that can be encoded. */
  function Encodings(codec: Codec, rs: seq<Bytes>): (ws: seq<Bytes>)
    requires Usable(codec)
    ensures |ws| == |EncodableOf(codec, rs)|
    ensures forall i :: 0 <= i < |ws| ==> Carry(codec, ws[i], EncodableOf(codec, rs)[i])
  {
    if rs == [] then []
    else
      EncodeMeans(codec, rs[0]);
      (if Encode(codec, rs[0]).Ok? then [Encode(codec, rs[0]).value] else []) + Encodings(codec, rs[1..])
  }

  /** What is written for the frames is, one after the other, the bytes that carry each reply sent. */
  lemma {:induction false} ResponsesCarry(app: App, frames: seq<Bytes>)
    requires Usable(app.codec)
    ensures Responses(app, frames) == Flatten(Encodings(app.codec, Given(app.reply, frames)))
  {
    if frames != [] {
      ResponsesCarry(app, frames[1..]);
      var more := Given(app.reply, frames[1..]);
      match app.reply(frames[0])
      case None => assert [] + more == more;
      case Some(r) =>
        assert ([r] + more)[1..] == more;
        var ws := Encodings(app.codec, more);
        if Encode(app.codec, r).Ok? {
          var w := Encode(app.codec, r).value;
          assert ([w] + ws)[1..] == ws;
        } else {
          assert [] + ws == ws;
        }
    }
  }

  // ---------- And back to frames ----------

  /** A client with the same codec can tell the replies apart: its decoder strips just the length field. */
  predicate Understood(codec: Codec) {
    match codec
    case BuiltIn => false
    case FixedLength(n) => n > 0
    case LengthField(ec, dc) =>
      Matching(ec, dc) && dc.lengthFieldOffset <= 0 && dc.initialBytesToStrip == dc.lengthFieldLength
    case _ => true
  }

  /** What a server can check about a reply. */
  predicate ComesBack(codec: Codec, r: Bytes) {
    match codec
    case BuiltIn => false
    case LineBased => 10 !in r
    case DelimiterBased(d) => d !in r
    case FixedLength(n) => |r| == n
    case LengthField(ec, _) => Carried(ec, r)
  }

  predicate Sized(rs: seq<Bytes>) {
    forall i :: 0 <= i < |rs| ==> |rs[i]| < TWO_63
  }

  predicate AllComeBack(codec: Codec, rs: seq<Bytes>) {
    forall i :: 0 <= i < |rs| ==> ComesBack(codec, rs[i])
  }

  /** The first reply comes out as the first frame exactly if it can. */
  lemma OneReply(codec: Codec, r: Bytes, t: Bytes)
    requires Usable(codec) && Understood(codec) && |r| < TWO_63 && Encode(codec, r).Ok?
    ensures var w := Encode(codec, r).value;
            var d := DecodeOne(codec, w + t);
            && (d.Frame? && d.frame == r <==> ComesBack(codec, r))
            && (ComesBack(codec, r) ==> d == Frame(r, |w|))
  {
    match codec
    case LineBased => OneDelimitedReply(codec, r, t);
    case DelimiterBased(_) => OneDelimitedReply(codec, r, t);
    case FixedLength(n) => OneFixedReply(n, r, t);
    case LengthField(ec, dc) => OneSizedReply(ec, dc, r, t);
  }

  lemma OneDelimitedReply(codec: Codec, r: Bytes, t: Bytes)
    requires codec.LineBased? || codec.DelimiterBased?
    ensures var w := r + [Delimiter(codec)];
            var d := DecodeOne(codec, w + t);
            && (d.Frame? && d.frame == r <==> Delimiter(codec) !in r)
            && (Delimiter(codec) !in r ==> d == Frame(r, |w|))
  {
    var s := r + [Delimiter(codec)] + t;
    assert s[|r|] == Delimiter(codec) && s[..|r|] == r;
    if Delimiter(codec) !in r {
      FirstDelimiter(s, |r|, Delimiter(codec));
    } else if DecodeOne(codec, s).Frame? {
      OneDelimited(codec, s);
    }
  }

  lemma OneFixedReply(n: int, r: Bytes, t: Bytes)
    requires n > 0 && |r| % n == 0
    ensures var d := DecodeOne(FixedLength(n), r + t);
            && (d.Frame? && d.frame == r <==> |r| == n)
            && (|r| == n ==> d == Frame(r, |r|))
  {
    if |r| == n {
      assert (r + t)[..n] == r;
    }
  }

  lemma OneSizedReply(ec: EncoderConfig, dc: DecoderConfig, r: Bytes, t: Bytes)
    requires Usable(LengthField(ec, dc)) && Understood(LengthField(ec, dc)) && |r| < TWO_63
    requires EncodeLengthField(ec, r).Ok?
    ensures var w := EncodeLengthField(ec, r).value;
            var d := DecodeOne(LengthField(ec, dc), w + t);
            && (d.Frame? && d.frame == r <==> Carried(ec, r))
            && (Carried(ec, r) ==> d == Frame(r, |w|))
  {
    hide IsUnit, Carried, DecodeOne;
    var codec, w := LengthField(ec, dc), EncodeLengthField(ec, r).value;
    EncodedForm(ec, r);
    EncodedIsUnit(ec, dc, [], r);
    assert [] + w == w;
    if Carried(ec, r) {
      UnitInFront(ec, dc, w, t);
    } else if DecodeOne(codec, w + t).Frame? && DecodeOne(codec, w + t).frame == r {
      FrameIsUnit(ec, dc, w + t);
      var k := DecodeOne(codec, w + t).consumed;
      IsUnitMeans(dc, (w + t)[..k]);
      WholePrefix(w, t, k);
    }
  }

  lemma WholePrefix(w: Bytes, t: Bytes, k: nat)
    requires k <= |w + t|
    ensures k == |w| ==> (w + t)[..k] == w
  {
  }

  /** The client gets the replies that were sent, in order and with nothing left over, if and only if each of
      them can come back: it is free of the delimiter, has the fixed length, or is not empty and has a length
      that the field can hold. */
  lemma {:induction false} ClientDecodes(codec: Codec, rs: seq<Bytes>)
    requires Usable(codec) && Understood(codec) && Sized(rs)
    ensures DecodeAll(codec, Flatten(Encodings(codec, rs))) == Parse(EncodableOf(codec, rs), [])
            <==> AllComeBack(codec, EncodableOf(codec, rs))
  {
    if rs == [] {
      DecodeNothing(codec);
    } else {
      hide DecodeOne, DecodeAll, ComesBack, AllComeBack, Encode, EncodableOf, Encodings, Flatten;
      var r, more := rs[0], rs[1..];
      var tail, sent := Flatten(Encodings(codec, more)), EncodableOf(codec, more);
      ClientDecodes(codec, more);
      EncodingsCons(codec, rs);
      if Encode(codec, r).Ok? {
        var w := Encode(codec, r).value;
        OneReply(codec, r, tail);
        assert (w + tail)[|w|..] == tail;
        FirstOfThem(codec, r, w, tail, sent);
      }
    }
  }

  lemma EncodingsCons(codec: Codec, rs: seq<Bytes>)
    requires Usable(codec) && rs != []
    ensures var r, more := rs[0], rs[1..];
            if Encode(codec, r).Ok? then
              && EncodableOf(codec, rs) == [r] + EncodableOf(codec, more)
              && Flatten(Encodings(codec, rs)) == Encode(codec, r).value + Flatten(Encodings(codec, more))
            else EncodableOf(codec, rs) == EncodableOf(codec, more) && Encodings(codec, rs) == Encodings(codec, more)
  {
    hide Encode, Encodable;
    var ws := Encodings(codec, rs[1..]);
    EncodeMeans(codec, rs[0]);
    if Encode(codec, rs[0]).Ok? {
      assert ([Encode(codec, rs[0]).value] + ws)[1..] == ws;
    }
  }

  lemma FirstOfThem(codec: Codec, r: Bytes, w: Bytes, tail: Bytes, sent: seq<Bytes>)
    requires Usable(codec) && (w + tail)[|w|..] == tail
    requires var d := DecodeOne(codec, w + tail);
             && (d.Frame? && d.frame == r <==> ComesBack(codec, r))
             && (ComesBack(codec, r) ==> d == Frame(r, |w|))
    requires DecodeAll(codec, tail) == Parse(sent, []) <==> AllComeBack(codec, sent)
    ensures DecodeAll(codec, w + tail) == Parse([r] + sent, []) <==> AllComeBack(codec, [r] + sent)
  {
    hide DecodeOne, ComesBack, AllComeBack;
    var d := DecodeOne(codec, w + tail);
    AllComeBackCons(codec, r, sent);
    if d.Frame? {
      OneStep(codec, w + tail);
      SameCons(d.frame, DecodeAll(codec, (w + tail)[d.consumed..]).frames, r, sent);
    }
  }

  lemma NoneToComeBack(codec: Codec)
    ensures AllComeBack(codec, [])
  {
  }

  lemma AllComeBackCons(codec: Codec, r: Bytes, more: seq<Bytes>)
    ensures AllComeBack(codec, [r] + more) <==> ComesBack(codec, r) && AllComeBack(codec, more)
  {
    hide ComesBack;
    var all := [r] + more;
    assert all[0] == r;
    if AllComeBack(codec, all) {
      assert forall i :: 0 <= i < |more| ==> more[i] == all[i + 1];
    }
  }

  lemma SameCons<T>(x: T, a: seq<T>, y: T, b: seq<T>)
    ensures [x] + a == [y] + b <==> x == y && a == b
  {
    if [x] + a == [y] + b {
      assert ([x] + a)[0] == ([y] + b)[0] && ([x] + a)[1..] == ([y] + b)[1..];
      assert ([x] + a)[1..] == a && ([y] + b)[1..] == b;
    }
  }

  // ---------- End to end, as the client sees it ----------

  /** Whatever the reads, writes, partial writes and refusals, what the client decodes from the bytes sent and
      waiting is the replies to the frames of the whole stream that it has sent, decoded in one go, in order,
      if and only if each can come back; and what it has decoded so far is the first of them. */
  lemma ClientSees(app: App, steps: seq<Step>)
    requires Usable(app.codec) && ChunkSafe(app.codec) && Understood(app.codec)
    requires Legal(app, steps) && NoSubmits(steps) && Open(Run(app, steps))
    requires Sized(Given(app.reply, DecodeAll(app.codec, Flatten(Chunks(steps))).frames))
    ensures var c := Run(app, steps);
            var sent := SentFor(app, DecodeAll(app.codec, Flatten(Chunks(steps))).frames);
            && (DecodeAll(app.codec, c.accepted + c.out) == Parse(sent, []) <==> AllComeBack(app.codec, sent))
            && (AllComeBack(app.codec, sent) ==> DecodeAll(app.codec, c.accepted).frames <= sent)
  {
    var frames := DecodeAll(app.codec, Flatten(Chunks(steps))).frames;
    EndToEnd(app, steps);
    ResponsesCarry(app, frames);
    ClientDecodes(app.codec, Given(app.reply, frames));
    DecodeAllAppend(app.codec, Run(app, steps).accepted, Run(app, steps).out);
  }
}
