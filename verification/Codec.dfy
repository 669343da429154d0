/** The five frame codecs of net/protocol/codec.go as functions on byte strings. */
module Codec {
  import opened Prelude

  datatype ByteOrder = LittleEndian | BigEndian

  datatype EncoderConfig = EncoderConfig(
    byteOrder: ByteOrder,
    lengthFieldLength: int,
    lengthAdjustment: int,
    lengthIncludesLengthFieldLength: bool)

  datatype DecoderConfig = DecoderConfig(
    byteOrder: ByteOrder,
    lengthFieldOffset: int,
    lengthFieldLength: int,
    lengthAdjustment: int,
    initialBytesToStrip: int)

  datatype Codec =
    | BuiltIn
    | LineBased
    | DelimiterBased(delimiter: Byte)
    | FixedLength(frameLength: int)
    | LengthField(encoder: EncoderConfig, decoder: DecoderConfig)

  datatype Error =
    | CRLFNotFound
    | DelimiterNotFound
    | InvalidFixedLength
    | UnexpectedEOF
    | UnsupportedLength
    | TooLessLength
    | DoesNotFit

  datatype Result<+T> = Ok(value: T) | Err(error: Error)

  /** What one Decode call yields. NoFrame is the nil slice that ends the decode loop (the built-in
      codec returns it without an error); an empty frame is still a frame. */
  datatype Decoded =
    | Frame(frame: Bytes, consumed: nat)
    | NoFrame(error: Option<Error>)

  const CRLF_BYTE: Byte := 10

  // ---------- Machine integers ----------

  const TWO_63: int := 0x8000_0000_0000_0000
  const TWO_64: int := 0x1_0000_0000_0000_0000

  /** The value of an int (64 bits, two's complement) after an addition or a conversion. */
  function Int64(x: int): (r: int)
    ensures -TWO_63 <= r < TWO_63
    ensures (r - x) % TWO_64 == 0
    ensures -TWO_63 <= x < TWO_63 ==> r == x
  {
    (x + TWO_63) % TWO_64 - TWO_63
  }

  // ---------- Length fields ----------

  function Pow256(n: nat): (p: nat)
    ensures p >= 1
  {
    if n == 0 then 1 else 256 * Pow256(n - 1)
  }

  /** The low n bytes of v, least significant first. */
  function LittleEndianBytes(v: int, n: nat): (b: Bytes)
    ensures |b| == n
    decreases n
  {
    if n == 0 then [] else [v % 256] + LittleEndianBytes(v / 256, n - 1)
  }

  function LittleEndianValue(b: Bytes): (v: nat)
    ensures v < Pow256(|b|)
  {
    if b == [] then 0 else b[0] + 256 * LittleEndianValue(b[1..])
  }

  function Reverse<T>(s: seq<T>): (r: seq<T>)
    ensures |r| == |s|
    ensures forall i :: 0 <= i < |s| ==> r[i] == s[|s| - 1 - i]
  {
    seq(|s|, i requires 0 <= i < |s| => s[|s| - 1 - i])
  }

  /** What ByteOrder.PutUint16/32/64 and writeUint24 store for v in n bytes. */
  function FieldBytes(order: ByteOrder, v: int, n: nat): (b: Bytes)
    ensures |b| == n
  {
    if order == LittleEndian then LittleEndianBytes(v, n) else Reverse(LittleEndianBytes(v, n))
  }

  /** What ByteOrder.Uint16/32/64 and readUint24 read back. */
  function FieldValue(order: ByteOrder, b: Bytes): (v: nat)
    ensures v < Pow256(|b|)
  {
    if order == LittleEndian then LittleEndianValue(b) else LittleEndianValue(Reverse(b))
  }

  /** readUint24, whose shifted bytes never overlap, so that or-ing them is adding them. */
  function ReadUint24(order: ByteOrder, b: Bytes): nat
    requires |b| == 3
  {
    if order == LittleEndian then (b[0] as int) + (b[1] as int) * 256 + (b[2] as int) * 65536
    else (b[2] as int) + (b[1] as int) * 256 + (b[0] as int) * 65536
  }

  /** writeUint24 fills its three bytes for every int, also one that does not fit. */
  method WriteUint24(order: ByteOrder, v: int) returns (b: array<Byte>)
    ensures fresh(b)
    ensures b[..] == FieldBytes(order, v, 3)
  {
    b := new Byte[3](_ => 0);
    if order == LittleEndian {
      b[0] := v % 256;
      b[1] := v / 256 % 256;
      b[2] := v / 65536 % 256;
    } else {
      b[2] := v % 256;
      b[1] := v / 256 % 256;
      b[0] := v / 65536 % 256;
    }
    ThreeBytes(v);
    assert b[..] == [b[0], b[1], b[2]];
  }

  lemma ThreeBytes(v: int)
    ensures LittleEndianBytes(v, 3) == [v % 256, v / 256 % 256, v / 65536 % 256]
  {
    assert v / 256 / 256 == v / 65536;
    calc {
      LittleEndianBytes(v, 3);
      [v % 256] + LittleEndianBytes(v / 256, 2);
      [v % 256] + ([v / 256 % 256] + LittleEndianBytes(v / 65536, 1));
      [v % 256] + ([v / 256 % 256] + ([v / 65536 % 256] + LittleEndianBytes(v / 65536 / 256, 0)));
      [v % 256, v / 256 % 256, v / 65536 % 256];
    }
  }

  lemma {:induction false} LittleEndianRoundTrip(v: int, n: nat)
    ensures LittleEndianValue(LittleEndianBytes(v, n)) == v % Pow256(n)
    decreases n
  {
    if n == 0 {
    } else {
      LittleEndianRoundTrip(v / 256, n - 1);
      var p := Pow256(n - 1);
      var q, r := v / 256 / p, v / 256 % p;
      assert LittleEndianBytes(v, n)[1..] == LittleEndianBytes(v / 256, n - 1);
      assert v == q * (256 * p) + (v % 256 + 256 * r);
      DivModUnique(v, 256 * p, q, v % 256 + 256 * r);
    }
  }

  lemma DivModUnique(x: int, d: int, q: int, r: int)
    requires d > 0 && 0 <= r < d && x == q * d + r
    ensures x % d == r && x / d == q
  {
    var q', r' := x / d, x % d;
    assert x == q' * d + r';
    if q > q' {
      MulAtLeast(q - q', d);
    } else if q < q' {
      MulAtLeast(q' - q, d);
    }
  }

  lemma MulAtLeast(k: int, d: int)
    requires k >= 1 && d > 0
    ensures k * d >= d
  {
  }

  lemma {:induction false} LittleEndianInjective(b: Bytes)
    ensures LittleEndianBytes(LittleEndianValue(b), |b|) == b
  {
    if b == [] {
    } else {
      LittleEndianInjective(b[1..]);
      DivModUnique(LittleEndianValue(b), 256, LittleEndianValue(b[1..]), b[0]);
    }
  }

  /** Reading a length field back gives the stored value modulo the capacity of the field. */
  lemma FieldRoundTrip(order: ByteOrder, v: int, n: nat)
    ensures FieldValue(order, FieldBytes(order, v, n)) == v % Pow256(n)
  {
    LittleEndianRoundTrip(v, n);
    var b := LittleEndianBytes(v, n);
    assert Reverse(Reverse(b)) == b;
  }

  /** The three-byte pair of the source against the general field functions, both ways round. */
  lemma Uint24RoundTrip(order: ByteOrder, b: Bytes)
    requires |b| == 3
    ensures ReadUint24(order, b) == FieldValue(order, b)
    ensures FieldBytes(order, ReadUint24(order, b), 3) == b
  {
    var le := if order == LittleEndian then b else Reverse(b);
    assert le == [le[0], le[1], le[2]];
    assert le[1..][1..] == [le[2]];
    assert le[1..][1..][1..] == [];
    assert LittleEndianValue(le[1..][1..]) == le[2];
    LittleEndianInjective(le);
    assert Reverse(Reverse(b)) == b;
  }

  lemma {:induction false} LittleEndianDigit(b: Bytes, i: nat)
    requires i < |b|
    ensures LittleEndianValue(b) / Pow256(i) % 256 == b[i]
  {
    var v, tail := LittleEndianValue(b), LittleEndianValue(b[1..]);
    DivModUnique(v, 256, tail, b[0]);
    if i > 0 {
      LittleEndianDigit(b[1..], i - 1);
      DivTwice(v, 256, Pow256(i - 1));
    }
  }

  lemma DivTwice(v: nat, a: nat, b: nat)
    requires a > 0 && b > 0
    ensures a * b > 0 && v / (a * b) == v / a / b
  {
    var q, r := v / a / b, v / a % b;
    assert v == (q * b + r) * a + v % a;
    assert (q * b + r) * a + v % a == q * (a * b) + (r * a + v % a);
    assert (r + 1) * a <= b * a;
    DivModUnique(v, a * b, q, r * a + v % a);
  }

  /** What the byte order means: the bytes of a field are the digits of its value to the base 256, the least
      first in little endian and the least last in big endian. */
  lemma FieldDigits(order: ByteOrder, b: Bytes, i: nat)
    requires i < |b|
    ensures FieldValue(order, b) / Pow256(i) % 256 == if order == LittleEndian then b[i] else b[|b| - 1 - i]
  {
    LittleEndianDigit(if order == LittleEndian then b else Reverse(b), i);
  }

  // ---------- Encode ----------

  /** The configurations that never make Encode divide by zero or Decode slice out of range. */
  predicate Usable(codec: Codec) {
    match codec
    case FixedLength(n) => n != 0
    case LengthField(_, dc) => Strippable(dc)
    case _ => true
  }

  /** No frame is shorter than what is stripped from it. */
  predicate Strippable(dc: DecoderConfig) {
    0 <= dc.initialBytesToStrip <= HeaderLength(dc) + FieldLength(dc) + 1
  }

  function HeaderLength(dc: DecoderConfig): nat {
    if dc.lengthFieldOffset > 0 then dc.lengthFieldOffset else 0
  }

  /** The width of the length field; an unsupported width never gets as far as a frame. */
  function FieldLength(dc: DecoderConfig): nat {
    if dc.lengthFieldLength in SUPPORTED then dc.lengthFieldLength else 0
  }

  const SUPPORTED: set<int> := {1, 2, 3, 4, 8}

  /** The number put in the length field. */
  function EncodedLength(ec: EncoderConfig, size: nat): int {
    Int64(size + ec.lengthAdjustment
          + if ec.lengthIncludesLengthFieldLength then ec.lengthFieldLength else 0)
  }

  function EncodeLengthField(ec: EncoderConfig, buf: Bytes): Result<Bytes> {
    var length := EncodedLength(ec, |buf|);
    if length < 0 then Err(TooLessLength)
    else if ec.lengthFieldLength !in SUPPORTED then Err(UnsupportedLength)
    else if ec.lengthFieldLength == 1 && length >= 256 then Err(DoesNotFit)
    else if ec.lengthFieldLength == 2 && length >= 65536 then Err(DoesNotFit)
    else if ec.lengthFieldLength == 3 && length >= 16777216 then Err(DoesNotFit)
    else Ok(FieldBytes(ec.byteOrder, length, ec.lengthFieldLength) + buf)
  }

  function Encode(codec: Codec, buf: Bytes): Result<Bytes>
    requires Usable(codec)
  {
    match codec
    case BuiltIn => Ok(buf)
    case LineBased => Ok(buf + [CRLF_BYTE])
    case DelimiterBased(d) => Ok(buf + [d])
    case FixedLength(n) => if |buf| % n != 0 then Err(InvalidFixedLength) else Ok(buf)
    case LengthField(ec, _) => EncodeLengthField(ec, buf)
  }

  // ---------- Decode ----------

  /** bytes.IndexByte. */
  function IndexByte(s: Bytes, d: Byte): (i: int)
    ensures -1 <= i < |s|
    ensures i == -1 <==> d !in s
    ensures i >= 0 ==> s[i] == d && forall k :: 0 <= k < i ==> s[k] != d
  {
    if s == [] then -1
    else if s[0] == d then 0
    else
      var r := IndexByte(s[1..], d);
      if r == -1 then -1 else r + 1
  }

  function DecodeDelimited(s: Bytes, d: Byte, missing: Error): Decoded {
    var i := IndexByte(s, d);
    if i == -1 then NoFrame(Some(missing)) else Frame(s[..i], i + 1)
  }

  /** The payload length a length field announces. */
  function MessageLength(dc: DecoderConfig, field: Bytes): int {
    Int64(Int64(FieldValue(dc.byteOrder, field)) + dc.lengthAdjustment)
  }

  function DecodeLengthField(dc: DecoderConfig, s: Bytes): Decoded
    requires Strippable(dc)
  {
    var h := HeaderLength(dc);
    if |s| < h then NoFrame(Some(UnexpectedEOF))
    else if dc.lengthFieldLength !in SUPPORTED then NoFrame(Some(UnsupportedLength))
    else if |s| < h + FieldLength(dc) then NoFrame(Some(UnexpectedEOF))
    else
      var head := h + FieldLength(dc);
      var msgLength := MessageLength(dc, s[h..head]);
      if msgLength <= 0 || msgLength > |s| - head then NoFrame(Some(UnexpectedEOF))
      else Frame(s[dc.initialBytesToStrip..head + msgLength], head + msgLength)
  }

  /** One Decode call on the undecoded bytes s. */
  function DecodeOne(codec: Codec, s: Bytes): (d: Decoded)
    requires Usable(codec)
    ensures d.Frame? ==> 1 <= d.consumed <= |s|
  {
    match codec
    case BuiltIn => if s == [] then NoFrame(None) else Frame(s, |s|)
    case LineBased => DecodeDelimited(s, CRLF_BYTE, CRLFNotFound)
    case DelimiterBased(d) => DecodeDelimited(s, d, DelimiterNotFound)
    case FixedLength(n) =>
      if s == [] then NoFrame(Some(UnexpectedEOF))
      else if n <= 0 || n > |s| then Frame(s, |s|)
      else Frame(s[..n], n)
    case LengthField(_, dc) => DecodeLengthField(dc, s)
  }
}
