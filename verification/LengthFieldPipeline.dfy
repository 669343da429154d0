/** Sending through the length-field encoder and receiving through the decoder. */
module LengthFieldPipeline {
  import opened Prelude
  import opened Codec
  import opened Framing

  /** The two ends agree on the field, and the decoder undoes the encoder's adjustment. */
  predicate Matching(ec: EncoderConfig, dc: DecoderConfig) {
    && ec.byteOrder == dc.byteOrder
    && ec.lengthFieldLength == dc.lengthFieldLength
    && dc.lengthAdjustment
       == -ec.lengthAdjustment - if ec.lengthIncludesLengthFieldLength then ec.lengthFieldLength else 0
  }

  /** What a caller can check about a message: it is not empty, and a four-byte field, the one width
      Encode does not check, can hold its length. */
  predicate Carried(ec: EncoderConfig, msg: Bytes) {
    && msg != []
    && (ec.lengthFieldLength == 4 ==> EncodedLength(ec, |msg|) < 0x1_0000_0000)
  }

  lemma Powers()
    ensures Pow256(1) == 256 && Pow256(2) == 65536 && Pow256(3) == 16777216
    ensures Pow256(4) == 0x1_0000_0000 && Pow256(8) == TWO_64
  {
    assert Pow256(4) == 256 * Pow256(3);
    assert Pow256(5) == 256 * Pow256(4);
    assert Pow256(6) == 256 * Pow256(5);
    assert Pow256(7) == 256 * Pow256(6);
  }

  lemma Int64Congruent(x: int, y: int, k: int)
    requires x - y == k * TWO_64
    ensures Int64(x) == Int64(y)
  {
  }

  /** How far EncodedLength wrapped. */
  lemma EncodedLengthWraps(ec: EncoderConfig, size: nat) returns (k: int)
    ensures size + ec.lengthAdjustment
            + (if ec.lengthIncludesLengthFieldLength then ec.lengthFieldLength else 0)
            == EncodedLength(ec, size) + k * TWO_64
  {
    var x := size + ec.lengthAdjustment
             + if ec.lengthIncludesLengthFieldLength then ec.lengthFieldLength else 0;
    k := (x + TWO_63) / TWO_64;
  }

  lemma SmallMod(v: nat, m: nat)
    requires v < m
    ensures v % m == v
  {
  }

  /** What is left of the encoded length once it is in the field. */
  lemma StoredLength(ec: EncoderConfig, msg: Bytes)
    requires EncodeLengthField(ec, msg).Ok?
    ensures var v, n := EncodedLength(ec, |msg|), ec.lengthFieldLength;
            FieldValue(ec.byteOrder, FieldBytes(ec.byteOrder, v, n)) == Kept(n, v)
  {
    var v, n := EncodedLength(ec, |msg|), ec.lengthFieldLength;
    FieldRoundTrip(ec.byteOrder, v, n);
    Powers();
    if n != 4 {
      assert v < Pow256(n);
      SmallMod(v, Pow256(n));
    }
  }

  /** The part of a length that a field of n bytes keeps: Encode refuses what does not fit, but for four
      bytes it cuts. */
  function Kept(n: int, v: int): int {
    if n == 4 then v % 0x1_0000_0000 else v
  }

  /** The length the decoder works out for an encoded message. */
  lemma AnnouncedLength(ec: EncoderConfig, dc: DecoderConfig, msg: Bytes)
    requires Matching(ec, dc) && |msg| < TWO_63
    requires EncodeLengthField(ec, msg).Ok?
    ensures var v := EncodedLength(ec, |msg|);
            MessageLength(dc, FieldBytes(ec.byteOrder, v, ec.lengthFieldLength)) == |msg|
            <==> (ec.lengthFieldLength == 4 ==> v < 0x1_0000_0000)
  {
    StoredLength(ec, msg);
    var k := EncodedLengthWraps(ec, |msg|);
    WorkedOut(ec.lengthFieldLength, EncodedLength(ec, |msg|), dc.lengthAdjustment, |msg|, k);
  }

  /** The arithmetic of it: size is v plus the adjustment, up to a multiple of 2^64. */
  lemma WorkedOut(n: int, v: nat, adjustment: int, size: nat, k: int)
    requires v < TWO_63 && size < TWO_63 && size == v + adjustment + k * TWO_64
    ensures Int64(Int64(Kept(n, v)) + adjustment) == size <==> (n == 4 ==> v < 0x1_0000_0000)
  {
    if n == 4 && v >= 0x1_0000_0000 {
      Truncated(v, Kept(n, v), adjustment, size, k);
    } else {
      assert Kept(n, v) == v;
      Int64Congruent(v + adjustment, size, -k);
    }
  }

  /** A length cut to 32 bits stays different modulo 2^64. */
  lemma Truncated(v: nat, read: nat, adjustment: int, size: nat, k: int)
    requires 0x1_0000_0000 <= v < TWO_63 && read == v % 0x1_0000_0000
    requires size == v + adjustment + k * TWO_64
    ensures Int64(read + adjustment) != size
  {
    var x := read + adjustment;
    var j := (x + TWO_63) / TWO_64;
    assert Int64(x) == x - j * TWO_64;
    assert v - read != -(j + k) * TWO_64;
  }

  /** The field announces a payload of that size: the number in it plus the adjustment, as 64 bits hold it. */
  predicate Announces(dc: DecoderConfig, field: Bytes, size: int) {
    && 0 < size < TWO_63
    && (FieldValue(dc.byteOrder, field) + dc.lengthAdjustment - size) % TWO_64 == 0
  }

  lemma AnnouncesExactly(dc: DecoderConfig, field: Bytes, size: int)
    requires 0 < size < TWO_63
    ensures MessageLength(dc, field) == size <==> Announces(dc, field, size)
  {
    var v := FieldValue(dc.byteOrder, field);
    Congruent(v + dc.lengthAdjustment, Int64(v) + dc.lengthAdjustment, MessageLength(dc, field), size);
  }

  /** Of numbers that are the same modulo 2^64, one is meant by both or by none. */
  lemma Congruent(x: int, y: int, m: int, size: int)
    requires (y - x) % TWO_64 == 0 && (m - y) % TWO_64 == 0
    requires -TWO_63 <= m < TWO_63 && 0 < size < TWO_63
    ensures m == size <==> (x - size) % TWO_64 == 0
  {
    var j, k := (y - x) / TWO_64, (m - y) / TWO_64;
    assert m - x == (j + k) * TWO_64;
    if (x - size) % TWO_64 == 0 {
      assert m - size == (j + k + (x - size) / TWO_64) * TWO_64;
    }
    if m == size {
      assert x - size == -(j + k) * TWO_64;
      DivModUnique(x - size, TWO_64, -(j + k), 0);
    }
  }

  /** When an encoder accepts a message, and what it makes of it: the length field, holding the size as
      adjusted, cut to its width, and the message behind it. */
  lemma EncodedForm(ec: EncoderConfig, msg: Bytes)
    ensures var n, r := ec.lengthFieldLength, EncodeLengthField(ec, msg);
            var v := EncodedLength(ec, |msg|);
            && (r.Ok? <==> n in {1, 2, 3, 4, 8} && v >= 0 && (n < 4 ==> v < Pow256(n)))
            && (r.Err? ==> r.error == if v < 0 then TooLessLength
                                      else if n !in {1, 2, 3, 4, 8} then UnsupportedLength else DoesNotFit)
            && (r.Ok? ==>
                  && |r.value| == n + |msg| && r.value[n..] == msg
                  && FieldValue(ec.byteOrder, r.value[..n])
                     == (|msg| + ec.lengthAdjustment + if ec.lengthIncludesLengthFieldLength then n else 0) % Pow256(n))
  {
    Powers();
    var n, r := ec.lengthFieldLength, EncodeLengthField(ec, msg);
    if r.Ok? {
      var v := EncodedLength(ec, |msg|);
      var k := EncodedLengthWraps(ec, |msg|);
      assert r.value[..n] == FieldBytes(ec.byteOrder, v, n);
      FieldRoundTrip(ec.byteOrder, v, n);
      SameModulo(v + k * TWO_64, v, k * (TWO_64 / Pow256(n)), Pow256(n));
    }
  }

  lemma SameModulo(x: int, y: int, k: int, m: nat)
    requires m > 0 && x - y == k * m
    ensures x % m == y % m
  {
    DivModUnique(x, m, k + y / m, y % m);
  }

  lemma FieldInside(header: Bytes, field: Bytes, msg: Bytes, behind: Bytes)
    ensures (header + (field + msg) + behind)[|header|..|header| + |field|] == field
  {
  }

  /** One unit on the wire, with any header and anything behind it, is decoded to itself less the
      stripped bytes, exactly for the messages that are carried. */
  lemma UnitRoundTrip(ec: EncoderConfig, dc: DecoderConfig, header: Bytes, msg: Bytes, behind: Bytes)
    requires Usable(LengthField(ec, dc)) && Matching(ec, dc)
    requires |header| == (if dc.lengthFieldOffset > 0 then dc.lengthFieldOffset else 0) && |msg| < TWO_63
    requires EncodeLengthField(ec, msg).Ok?
    ensures var unit := header + EncodeLengthField(ec, msg).value;
            (dc.initialBytesToStrip <= |unit|
             && DecodeOne(LengthField(ec, dc), unit + behind) == Frame(unit[dc.initialBytesToStrip..], |unit|))
            <==> Carried(ec, msg)
  {
    hide IsUnit, EncodeLengthField;
    var unit := header + EncodeLengthField(ec, msg).value;
    EncodedIsUnit(ec, dc, header, msg);
    assert (unit + behind)[..|unit|] == unit;
    if Carried(ec, msg) {
      UnitInFront(ec, dc, unit, behind);
      IsUnitMeans(dc, unit);
    } else if DecodeOne(LengthField(ec, dc), unit + behind).Frame? {
      FrameIsUnit(ec, dc, unit + behind);
    }
  }

  lemma EncodedIsUnit(ec: EncoderConfig, dc: DecoderConfig, header: Bytes, msg: Bytes)
    requires Matching(ec, dc) && |msg| < TWO_63 && EncodeLengthField(ec, msg).Ok?
    requires |header| == HeaderLength(dc)
    ensures IsUnit(dc, header + EncodeLengthField(ec, msg).value) <==> Carried(ec, msg)
  {
    hide IsUnit;
    var field := FieldBytes(ec.byteOrder, EncodedLength(ec, |msg|), ec.lengthFieldLength);
    AnnouncedLength(ec, dc, msg);
    FieldInside(header, field, msg, []);
    assert header + (field + msg) + [] == header + EncodeLengthField(ec, msg).value;
    IsUnitMeans(dc, header + EncodeLengthField(ec, msg).value);
  }

  const CUT_ENCODER := EncoderConfig(BigEndian, 4, 0x1_0000_0000, false)
  const CUT_DECODER := DecoderConfig(BigEndian, 0, 4, -0x1_0000_0000, 4)

  /** A length that four bytes cut: one byte is encoded without complaint, by an encoder and a decoder
      whose adjustments cancel, and never comes back. */
  lemma CutLengthWitness(behind: Bytes)
    ensures Usable(LengthField(CUT_ENCODER, CUT_DECODER)) && Matching(CUT_ENCODER, CUT_DECODER)
    ensures EncodeLengthField(CUT_ENCODER, [7]).Ok?
    ensures DecodeOne(LengthField(CUT_ENCODER, CUT_DECODER), EncodeLengthField(CUT_ENCODER, [7]).value + behind)
            == NoFrame(Some(UnexpectedEOF))
  {
    StoredLength(CUT_ENCODER, [7]);
    var field := FieldBytes(BigEndian, 0x1_0000_0001, 4);
    var s := EncodeLengthField(CUT_ENCODER, [7]).value + behind;
    assert s[0..4] == field;
    assert MessageLength(CUT_DECODER, field) == 1 - 0x1_0000_0000;
  }

  /** A header and the message behind it. */
  datatype Unit = Unit(header: Bytes, msg: Bytes)

  predicate Sendable(ec: EncoderConfig, dc: DecoderConfig, u: Unit) {
    && |u.header| == (if dc.lengthFieldOffset > 0 then dc.lengthFieldOffset else 0)
    && |u.msg| < TWO_63
    && EncodeLengthField(ec, u.msg).Ok?
    && Carried(ec, u.msg)
  }

  predicate AllSendable(ec: EncoderConfig, dc: DecoderConfig, us: seq<Unit>) {
    forall i :: 0 <= i < |us| ==> Sendable(ec, dc, us[i])
  }

  function OnWire(ec: EncoderConfig, u: Unit): Bytes
    requires EncodeLengthField(ec, u.msg).Ok?
  {
    u.header + EncodeLengthField(ec, u.msg).value
  }

  function Stream(ec: EncoderConfig, dc: DecoderConfig, us: seq<Unit>): Bytes
    requires AllSendable(ec, dc, us)
  {
    if us == [] then [] else OnWire(ec, us[0]) + Stream(ec, dc, us[1..])
  }

  function Stripped(ec: EncoderConfig, dc: DecoderConfig, us: seq<Unit>): seq<Bytes>
    requires Usable(LengthField(ec, dc)) && Matching(ec, dc)
    requires AllSendable(ec, dc, us)
  {
    if us == [] then []
    else
      UnitRoundTrip(ec, dc, us[0].header, us[0].msg, []);
      [OnWire(ec, us[0])[dc.initialBytesToStrip..]] + Stripped(ec, dc, us[1..])
  }

  /** Every unit of the stream comes back, in order, with nothing left over. */
  lemma {:induction false} PipelineRoundTrip(ec: EncoderConfig, dc: DecoderConfig, us: seq<Unit>)
    requires Usable(LengthField(ec, dc)) && Matching(ec, dc)
    requires AllSendable(ec, dc, us)
    ensures DecodeAll(LengthField(ec, dc), Stream(ec, dc, us)) == Parse(Stripped(ec, dc, us), [])
  {
    if us == [] {
      DecodeNothing(LengthField(ec, dc));
    } else {
      var unit, tail := OnWire(ec, us[0]), Stream(ec, dc, us[1..]);
      UnitRoundTrip(ec, dc, us[0].header, us[0].msg, tail);
      PipelineRoundTrip(ec, dc, us[1..]);
      assert (unit + tail)[|unit|..] == tail;
    }
  }

  /** And it comes back whatever the chunks it arrives in. */
  lemma PipelineAnyChunks(ec: EncoderConfig, dc: DecoderConfig, us: seq<Unit>, chunks: seq<Bytes>)
    requires Usable(LengthField(ec, dc)) && Matching(ec, dc)
    requires AllSendable(ec, dc, us)
    requires Flatten(chunks) == Stream(ec, dc, us)
    ensures Feed(LengthField(ec, dc), chunks) == Parse(Stripped(ec, dc, us), [])
  {
    ChunkingIndependence(LengthField(ec, dc), chunks);
    PipelineRoundTrip(ec, dc, us);
  }

  /** With no header and the field stripped, the frame is the message itself. */
  lemma PlainMessage(ec: EncoderConfig, dc: DecoderConfig, msg: Bytes)
    requires Usable(LengthField(ec, dc)) && Matching(ec, dc)
    requires dc.lengthFieldOffset <= 0 && dc.initialBytesToStrip == dc.lengthFieldLength
    requires Sendable(ec, dc, Unit([], msg))
    ensures Encode(LengthField(ec, dc), msg).Ok?
    ensures DecodeAll(LengthField(ec, dc), Encode(LengthField(ec, dc), msg).value) == Parse([msg], [])
  {
    var wire := EncodeLengthField(ec, msg).value;
    UnitRoundTrip(ec, dc, [], msg, []);
    assert [] + wire == wire && wire + [] == wire;
    assert wire[dc.initialBytesToStrip..] == msg && wire[|wire|..] == [];
    OneStep(LengthField(ec, dc), wire);
    DecodeNothing(LengthField(ec, dc));
  }

  // ---------- Any stream: the decoder cuts it into units, in the only possible way ----------

  /** A complete unit: a header, a length field and as many bytes as the field announces, at least one. */
  predicate IsUnit(dc: DecoderConfig, u: Bytes) {
    var h := if dc.lengthFieldOffset > 0 then dc.lengthFieldOffset else 0;
    var head := h + dc.lengthFieldLength;
    && dc.lengthFieldLength in {1, 2, 3, 4, 8} && |u| > head
    && Announces(dc, u[h..head], |u| - head)
  }

  /** Which is what the decoder works out. */
  lemma IsUnitMeans(dc: DecoderConfig, u: Bytes)
    ensures var head := HeaderLength(dc) + FieldLength(dc);
            IsUnit(dc, u) <==> dc.lengthFieldLength in SUPPORTED && |u| > head
                               && MessageLength(dc, u[HeaderLength(dc)..head]) == |u| - head
  {
    var head := HeaderLength(dc) + FieldLength(dc);
    if dc.lengthFieldLength in SUPPORTED && head < |u| < head + TWO_63 {
      AnnouncesExactly(dc, u[HeaderLength(dc)..head], |u| - head);
    }
  }

  predicate AllUnits(dc: DecoderConfig, units: seq<Bytes>) {
    forall i :: 0 <= i < |units| ==> IsUnit(dc, units[i])
  }

  function StripAll(dc: DecoderConfig, units: seq<Bytes>): seq<Bytes>
    requires Usable(LengthField(NO_ENCODER, dc)) && AllUnits(dc, units)
  {
    if units == [] then [] else [units[0][dc.initialBytesToStrip..]] + StripAll(dc, units[1..])
  }

  /** Decoding does not look at the encoder's configuration. */
  const NO_ENCODER := EncoderConfig(BigEndian, 1, 0, false)

  lemma UnitInFront(ec: EncoderConfig, dc: DecoderConfig, u: Bytes, t: Bytes)
    requires Usable(LengthField(ec, dc)) && IsUnit(dc, u)
    ensures DecodeOne(LengthField(ec, dc), u + t) == Frame(u[dc.initialBytesToStrip..], |u|)
  {
    var h := HeaderLength(dc);
    var head := h + FieldLength(dc);
    IsUnitMeans(dc, u);
    assert (u + t)[h..head] == u[h..head];
    assert (u + t)[dc.initialBytesToStrip..|u|] == u[dc.initialBytesToStrip..];
  }

  lemma FrameIsUnit(ec: EncoderConfig, dc: DecoderConfig, s: Bytes)
    requires Usable(LengthField(ec, dc)) && DecodeOne(LengthField(ec, dc), s).Frame?
    ensures var d := DecodeOne(LengthField(ec, dc), s);
            IsUnit(dc, s[..d.consumed]) && d.frame == s[..d.consumed][dc.initialBytesToStrip..]
  {
    hide IsUnit;
    var k := DecodeOne(LengthField(ec, dc), s).consumed;
    var h := HeaderLength(dc);
    SliceOfPrefix(s, k, h, h + FieldLength(dc));
    IsUnitMeans(dc, s[..k]);
  }

  lemma SliceOfPrefix(s: Bytes, k: nat, a: nat, b: nat)
    requires a <= b <= k <= |s|
    ensures s[..k][a..b] == s[a..b]
  {
  }

  lemma {:induction false} UnitsDecode(ec: EncoderConfig, dc: DecoderConfig, units: seq<Bytes>, rest: Bytes)
    requires Usable(LengthField(ec, dc)) && AllUnits(dc, units)
    requires DecodeOne(LengthField(ec, dc), rest).NoFrame?
    ensures DecodeAll(LengthField(ec, dc), Flatten(units) + rest) == Parse(StripAll(dc, units), rest)
  {
    if units == [] {
      assert Flatten(units) + rest == rest;
    } else {
      var tail := Flatten(units[1..]) + rest;
      assert Flatten(units) + rest == units[0] + tail;
      UnitsDecode(ec, dc, units[1..], rest);
      UnitThenRest(ec, dc, units[0], tail);
    }
  }

  lemma UnitThenRest(ec: EncoderConfig, dc: DecoderConfig, u: Bytes, tail: Bytes)
    requires Usable(LengthField(ec, dc)) && IsUnit(dc, u)
    ensures var p := DecodeAll(LengthField(ec, dc), tail);
            DecodeAll(LengthField(ec, dc), u + tail) == Parse([u[dc.initialBytesToStrip..]] + p.frames, p.rest)
  {
    UnitInFront(ec, dc, u, tail);
    assert (u + tail)[|u|..] == tail;
    OneStep(LengthField(ec, dc), u + tail);
  }

  lemma {:induction false} DecodesToUnits(ec: EncoderConfig, dc: DecoderConfig, s: Bytes)
    returns (units: seq<Bytes>)
    requires Usable(LengthField(ec, dc))
    ensures AllUnits(dc, units)
    ensures var p := DecodeAll(LengthField(ec, dc), s);
            s == Flatten(units) + p.rest && p.frames == StripAll(dc, units)
    decreases |s|
  {
    var d := DecodeOne(LengthField(ec, dc), s);
    if d.NoFrame? {
      units := [];
      assert Flatten(units) + s == s;
    } else {
      FrameIsUnit(ec, dc, s);
      var u, tail := s[..d.consumed], s[d.consumed..];
      assert s == u + tail;
      UnitThenRest(ec, dc, u, tail);
      var more := DecodesToUnits(ec, dc, tail);
      units := UnitsCons(dc, u, more, DecodeAll(LengthField(ec, dc), tail).rest);
    }
  }

  lemma UnitsCons(dc: DecoderConfig, u: Bytes, more: seq<Bytes>, rest: Bytes) returns (units: seq<Bytes>)
    requires Usable(LengthField(NO_ENCODER, dc)) && IsUnit(dc, u) && AllUnits(dc, more)
    ensures AllUnits(dc, units) && StripAll(dc, units) == [u[dc.initialBytesToStrip..]] + StripAll(dc, more)
    ensures Flatten(units) + rest == u + (Flatten(more) + rest)
  {
    units := [u] + more;
    assert units[1..] == more;
  }

  /** The frames of a stream and its leftover are those of a parse if and only if the stream is a run of
      complete units, each stripped, followed by bytes that no complete unit starts. */
  lemma SplitIntoUnits(ec: EncoderConfig, dc: DecoderConfig, s: Bytes, frames: seq<Bytes>, rest: Bytes)
    requires Usable(LengthField(ec, dc))
    ensures DecodeAll(LengthField(ec, dc), s) == Parse(frames, rest)
            <==> (DecodeOne(LengthField(ec, dc), rest).NoFrame?
                  && exists units :: AllUnits(dc, units) && s == Flatten(units) + rest
                                     && frames == StripAll(dc, units))
  {
    LeftoverIsStuck(LengthField(ec, dc), s);
    var mine := DecodesToUnits(ec, dc, s);
    if DecodeOne(LengthField(ec, dc), rest).NoFrame? {
      forall units | AllUnits(dc, units) && s == Flatten(units) + rest && frames == StripAll(dc, units)
        ensures DecodeAll(LengthField(ec, dc), s) == Parse(frames, rest)
      {
        UnitsDecode(ec, dc, units, rest);
      }
    }
  }

  /** Bytes start no complete unit exactly when none of their prefixes is one. */
  lemma StuckMeansNoUnit(ec: EncoderConfig, dc: DecoderConfig, rest: Bytes)
    requires Usable(LengthField(ec, dc))
    ensures DecodeOne(LengthField(ec, dc), rest).NoFrame?
            <==> forall k :: 0 <= k <= |rest| ==> !IsUnit(dc, rest[..k])
  {
    forall k | 0 <= k <= |rest| && IsUnit(dc, rest[..k])
      ensures DecodeOne(LengthField(ec, dc), rest).Frame?
    {
      assert rest[..k] + rest[k..] == rest;
      UnitInFront(ec, dc, rest[..k], rest[k..]);
    }
    if DecodeOne(LengthField(ec, dc), rest).Frame? {
      FrameIsUnit(ec, dc, rest);
    }
  }

  /** What the decoder finds is a complete unit; where it finds none there is none. */
  lemma UnitFound(dc: DecoderConfig, s: Bytes)
    requires Strippable(dc)
    ensures match DecodeLengthField(dc, s)
            case Frame(_, k) => k <= |s| && IsUnit(dc, s[..k])
            case NoFrame(_) => forall k :: 0 <= k <= |s| ==> !IsUnit(dc, s[..k])
  {
    var codec := LengthField(NO_ENCODER, dc);
    assert DecodeOne(codec, s) == DecodeLengthField(dc, s);
    if DecodeOne(codec, s).Frame? {
      FrameIsUnit(NO_ENCODER, dc, s);
    } else {
      StuckMeansNoUnit(NO_ENCODER, dc, s);
    }
  }

  /** Why a decoder finds no frame. */
  lemma WhyNoFrame(codec: Codec, s: Bytes)
    requires Usable(codec) && DecodeOne(codec, s).NoFrame?
    ensures var e := DecodeOne(codec, s).error;
            match codec
            case BuiltIn => e == None && s == []
            case LineBased => e == Some(CRLFNotFound) && 10 !in s
            case DelimiterBased(d) => e == Some(DelimiterNotFound) && d !in s
            case FixedLength(_) => e == Some(UnexpectedEOF) && s == []
            case LengthField(_, dc) =>
              if dc.lengthFieldLength !in {1, 2, 3, 4, 8} && dc.lengthFieldOffset <= |s| then
                e == Some(UnsupportedLength)
              else e == Some(UnexpectedEOF) && forall k :: 0 <= k <= |s| ==> !IsUnit(dc, s[..k])
  {
    if codec.LengthField? {
      StuckMeansNoUnit(codec.encoder, codec.decoder, s);
    }
  }
}
