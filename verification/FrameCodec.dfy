/**
 * Wire framing over a data channel (`src/webrtc/frameCodec.ts`): the 16-byte
 * header codec, splitting a byte stream into bounded frames, and reassembly with
 * length and checksum verification. JSON text is a parameter whose parser undoes
 * its printer.
 */
module FrameCodec {
  import opened Wrappers
  import opened Crc32

  datatype FrameError =
    | MetadataTooLong | PayloadTooLong | ShorterThanHeader | NotAFrame | UnsupportedVersion(version: int)
    | UnknownType(code: int) | DeclaredTooLong | LengthMismatch | MetadataInvalid
    | BodyTooLarge | BodyLengthMismatch | ChecksumMismatch

  const FRAME_MAGIC: Byte := 0x6b
  const FRAME_PROTOCOL_VERSION: Byte := 1
  const FRAME_HEADER_LENGTH: nat := 16
  const MAX_PAYLOAD_LENGTH: nat := 64 * 1024
  const MAX_METADATA_LENGTH: nat := 16 * 1024
  const FLAG_FINAL: nat := 1

  datatype FrameType = RequestHead | RequestChunk | ResponseHead | ResponseChunk | Cancel | WindowUpdate | Error

  function Code(t: FrameType): (c: Byte)
    ensures 1 <= c <= 7
  {
    match t
    case RequestHead => 1 case RequestChunk => 2 case ResponseHead => 3 case ResponseChunk => 4
    case Cancel => 5 case WindowUpdate => 6 case Error => 7
  }

  function TypeOf(c: Byte): (t: Option<FrameType>)
    ensures t.Some? <==> 1 <= c <= 7
    ensures t.Some? ==> Code(t.value) == c
  {
    if c == 1 then Some(RequestHead) else if c == 2 then Some(RequestChunk) else if c == 3 then Some(ResponseHead)
    else if c == 4 then Some(ResponseChunk) else if c == 5 then Some(Cancel) else if c == 6 then Some(WindowUpdate)
    else if c == 7 then Some(Error) else None
  }

  // ----- The header codec -----

  /** A frame with its metadata as bytes. */
  datatype RawFrame = RawFrame(frameType: FrameType, requestId: nat, flags: Byte, metadata: seq<Byte>,
    payload: seq<Byte>)

  predicate Fits(f: RawFrame) {
    f.requestId < 0x1_0000_0000 && |f.metadata| <= MAX_METADATA_LENGTH && |f.payload| <= MAX_PAYLOAD_LENGTH
  }

  /** Big-endian. */
  function U32(n: nat): (s: seq<Byte>)
    requires n < 0x1_0000_0000
    ensures |s| == 4
  {
    [n / 256 / 256 / 256, n / 256 / 256 % 256, n / 256 % 256, n % 256]
  }

  function ReadU32(s: seq<Byte>): (n: nat)
    requires |s| == 4
    ensures n < 0x1_0000_0000
  {
    var b0: int, b1: int, b2: int, b3: int := s[0], s[1], s[2], s[3];
    ((b0 * 256 + b1) * 256 + b2) * 256 + b3
  }

  lemma U32RoundTrip(n: nat)
    requires n < 0x1_0000_0000
    ensures ReadU32(U32(n)) == n
  {
  }

  lemma ReadU32RoundTrip(s: seq<Byte>)
    requires |s| == 4
    ensures U32(ReadU32(s)) == s
  {
    var b0: int, b1: int, b2: int, b3: int := s[0], s[1], s[2], s[3];
    var n1 := b0 * 256 + b1;
    var n2 := n1 * 256 + b2;
    var n := n2 * 256 + b3;
    assert n / 256 == n2 && n % 256 == b3;
    assert n2 / 256 == n1 && n2 % 256 == b2;
    assert n1 / 256 == b0 && n1 % 256 == b1;
  }

  /** The layout, field by field. */
  function Layout(f: RawFrame): (s: seq<Byte>)
    requires Fits(f)
  {
    [FRAME_MAGIC, FRAME_PROTOCOL_VERSION, Code(f.frameType), f.flags]
    + U32(f.requestId) + U32(|f.metadata|) + U32(|f.payload|) + f.metadata + f.payload
  }

  /** `decodeFrame` up to the metadata text. */
  function DecodeRaw(bytes: seq<Byte>): Result<RawFrame, FrameError> {
    if |bytes| < FRAME_HEADER_LENGTH then Err(ShorterThanHeader)
    else if bytes[0] != FRAME_MAGIC then Err(NotAFrame)
    else if bytes[1] != FRAME_PROTOCOL_VERSION then Err(UnsupportedVersion(bytes[1]))
    else if TypeOf(bytes[2]).None? then Err(UnknownType(bytes[2]))
    else
      var metadataLength := ReadU32(bytes[8..12]);
      var payloadLength := ReadU32(bytes[12..16]);
      if metadataLength > MAX_METADATA_LENGTH || payloadLength > MAX_PAYLOAD_LENGTH then Err(DeclaredTooLong)
      else if |bytes| != FRAME_HEADER_LENGTH + metadataLength + payloadLength then Err(LengthMismatch)
      else
        Ok(RawFrame(TypeOf(bytes[2]).value, ReadU32(bytes[4..8]), bytes[3],
                    bytes[FRAME_HEADER_LENGTH..FRAME_HEADER_LENGTH + metadataLength],
                    bytes[FRAME_HEADER_LENGTH + metadataLength..]))
  }

  lemma DecodeLayout(f: RawFrame)
    requires Fits(f)
    ensures DecodeRaw(Layout(f)) == Ok(f)
  {
    var s := Layout(f);
    assert s[4..8] == U32(f.requestId) && s[8..12] == U32(|f.metadata|) && s[12..16] == U32(|f.payload|);
    U32RoundTrip(f.requestId);
    U32RoundTrip(|f.metadata|);
    U32RoundTrip(|f.payload|);
    assert s[16..16 + |f.metadata|] == f.metadata && s[16 + |f.metadata|..] == f.payload;
  }

  /** Every accepted byte string is the layout of what it decodes to: the header codec is a bijection. */
  lemma LayoutDecode(bytes: seq<Byte>)
    requires DecodeRaw(bytes).Ok?
    ensures Fits(DecodeRaw(bytes).value) && Layout(DecodeRaw(bytes).value) == bytes
  {
    var f := DecodeRaw(bytes).value;
    ReadU32RoundTrip(bytes[4..8]);
    ReadU32RoundTrip(bytes[8..12]);
    ReadU32RoundTrip(bytes[12..16]);
    assert bytes == bytes[..4] + bytes[4..8] + bytes[8..12] + bytes[12..16] + f.metadata + f.payload;
  }

  // ----- Frames with JSON metadata -----

  /** The metadata keys the codec reads; everything else is `rest`. */
  datatype Json = Json(length: Option<int>, crc32: Option<int>, rest: string)

  datatype JsonText = JsonText(stringify: Json -> seq<Byte>, parse: seq<Byte> -> Option<Json>)

  ghost predicate Faithful(json: JsonText) {
    forall m :: json.parse(json.stringify(m)) == Some(m) && json.stringify(m) != []
  }

  datatype Frame = Frame(frameType: FrameType, requestId: int, flags: int, metadata: Option<Json>,
    payload: Option<seq<Byte>>)

  function PayloadOf(f: Frame): seq<Byte> { if f.payload.Some? then f.payload.value else [] }

  function MetadataOf(json: JsonText, f: Frame): seq<Byte> {
    if f.metadata.Some? then json.stringify(f.metadata.value) else []
  }

  /** `flags & 0xff` and `requestId >>> 0` keep the low bits. */
  function Raw(json: JsonText, f: Frame): RawFrame {
    RawFrame(f.frameType, f.requestId % 0x1_0000_0000, f.flags % 256, MetadataOf(json, f), PayloadOf(f))
  }

  function Encode(json: JsonText, f: Frame): Result<seq<Byte>, FrameError> {
    if |MetadataOf(json, f)| > MAX_METADATA_LENGTH then Err(MetadataTooLong)
    else if |PayloadOf(f)| > MAX_PAYLOAD_LENGTH then Err(PayloadTooLong)
    else Ok(Layout(Raw(json, f)))
  }

  function Decode(json: JsonText, bytes: seq<Byte>): Result<Frame, FrameError> {
    match DecodeRaw(bytes)
    case Err(e) => Err(e)
    case Ok(raw) =>
      if raw.metadata != [] && json.parse(raw.metadata).None? then Err(MetadataInvalid)
      else Ok(Frame(raw.frameType, raw.requestId, raw.flags,
                    if raw.metadata == [] then None else json.parse(raw.metadata),
                    if raw.payload == [] then None else Some(raw.payload)))
  }

  /** What the wire keeps of a frame. */
  function Canonical(f: Frame): Frame {
    f.(requestId := f.requestId % 0x1_0000_0000, flags := f.flags % 256,
       payload := if PayloadOf(f) == [] then None else f.payload)
  }

  /** Every frame that encodes decodes to itself, up to the masked fields. */
  lemma FrameRoundTrip(json: JsonText, f: Frame)
    requires Faithful(json) && Encode(json, f).Ok?
    ensures Decode(json, Encode(json, f).value) == Ok(Canonical(f))
  {
    DecodeLayout(Raw(json, f));
  }

  /** `encodeFrame`, filling a buffer. */
  method EncodeFrame(json: JsonText, f: Frame) returns (r: Result<seq<Byte>, FrameError>)
    ensures r == Encode(json, f)
  {
    var metadata := MetadataOf(json, f);
    var payload := PayloadOf(f);
    if |metadata| > MAX_METADATA_LENGTH { return Err(MetadataTooLong); }
    if |payload| > MAX_PAYLOAD_LENGTH { return Err(PayloadTooLong); }
    var buffer := new Byte[FRAME_HEADER_LENGTH + |metadata| + |payload|];
    buffer[0], buffer[1], buffer[2], buffer[3] := FRAME_MAGIC, FRAME_PROTOCOL_VERSION, Code(f.frameType), f.flags % 256;
    ghost var head := [FRAME_MAGIC, FRAME_PROTOCOL_VERSION, Code(f.frameType), f.flags % 256];
    assert buffer[..4] == head;
    Copy(buffer, U32(f.requestId % 0x1_0000_0000), 4);
    Copy(buffer, U32(|metadata|), 8);
    Copy(buffer, U32(|payload|), 12);
    Copy(buffer, metadata, FRAME_HEADER_LENGTH);
    Copy(buffer, payload, FRAME_HEADER_LENGTH + |metadata|);
    assert buffer[..] == buffer[..FRAME_HEADER_LENGTH + |metadata| + |payload|];
    r := Ok(buffer[..]);
  }

  method Copy(buffer: array<Byte>, source: seq<Byte>, at: nat)
    requires at + |source| <= buffer.Length
    modifies buffer
    ensures buffer[..at + |source|] == old(buffer[..at]) + source
    ensures buffer[at + |source|..] == old(buffer[at + |source|..])
  {
    for i := 0 to |source|
      invariant buffer[..at + i] == old(buffer[..at]) + source[..i]
      invariant buffer[at + i..] == old(buffer[at + i..])
    {
      buffer[at + i] := source[i];
    }
  }

  // ----- Splitting -----

  function Concat(chunks: seq<seq<Byte>>): seq<Byte> {
    if chunks == [] then [] else Concat(chunks[..|chunks| - 1]) + chunks[|chunks| - 1]
  }

  function FullChunks(body: seq<Byte>, size: nat): seq<seq<Byte>>
    requires size > 0
    decreases |body|
  {
    if |body| < size then [] else [body[..size]] + FullChunks(body[size..], size)
  }

  function Remainder(body: seq<Byte>, size: nat): (r: seq<Byte>)
    requires size > 0
    ensures |r| < size
    decreases |body|
  {
    if |body| < size then body else Remainder(body[size..], size)
  }

  /** More bytes after a remainder go on where the chunks stopped. */
  lemma {:induction false} ChunksResume(body: seq<Byte>, more: seq<Byte>, size: nat)
    requires size > 0
    ensures FullChunks(body + more, size) == FullChunks(body, size) + FullChunks(Remainder(body, size) + more, size)
    ensures Remainder(body + more, size) == Remainder(Remainder(body, size) + more, size)
    decreases |body|
  {
    if |body| >= size {
      assert (body + more)[..size] == body[..size] && (body + more)[size..] == body[size..] + more;
      ChunksResume(body[size..], more, size);
    }
  }

  lemma {:induction false} ConcatSplit(a: seq<seq<Byte>>, b: seq<seq<Byte>>)
    ensures Concat(a + b) == Concat(a) + Concat(b)
    decreases |b|
  {
    if b == [] {
      assert a + b == a;
    } else {
      ConcatSplit(a, b[..|b| - 1]);
      assert (a + b)[..|a + b| - 1] == a + b[..|b| - 1];
      assert (a + b)[|a + b| - 1] == b[|b| - 1];
      assert Concat(a) + (Concat(b[..|b| - 1]) + b[|b| - 1]) == Concat(a) + Concat(b[..|b| - 1]) + b[|b| - 1];
    }
  }

  lemma ConcatOne(chunk: seq<Byte>)
    ensures Concat([chunk]) == chunk
  {
    assert [chunk][..0] == [];
  }

  lemma {:induction false} ChunksAndRemainder(body: seq<Byte>, size: nat)
    requires size > 0
    ensures Concat(FullChunks(body, size)) + Remainder(body, size) == body
    ensures forall c :: c in FullChunks(body, size) ==> |c| == size
    decreases |body|
  {
    if |body| >= size {
      ChunksAndRemainder(body[size..], size);
      ConcatSplit([body[..size]], FullChunks(body[size..], size));
      ConcatOne(body[..size]);
    }
  }

  /** The integrity metadata of a body. */
  function Summary(body: seq<Byte>): Json { Json(Some(|body|), Some(Checksum(body)), "") }

  function ChunkFrame(requestId: int, t: FrameType, chunk: seq<Byte>): Frame {
    Frame(t, requestId, 0, None, Some(chunk))
  }

  function FinalFrame(requestId: int, t: FrameType, last: seq<Byte>, body: seq<Byte>): Frame {
    Frame(t, requestId, FLAG_FINAL, Some(Summary(body)), if last == [] then None else Some(last))
  }

  function ChunkFrames(requestId: int, t: FrameType, chunks: seq<seq<Byte>>): (fs: seq<Frame>)
    ensures |fs| == |chunks|
    ensures forall i :: 0 <= i < |chunks| ==> fs[i] == ChunkFrame(requestId, t, chunks[i])
  {
    if chunks == [] then []
    else ChunkFrames(requestId, t, chunks[..|chunks| - 1]) + [ChunkFrame(requestId, t, chunks[|chunks| - 1])]
  }

  /** The frames of a body, however it arrived. */
  function Frames(requestId: int, t: FrameType, size: nat, body: seq<Byte>): seq<Frame>
    requires size > 0
  {
    ChunkFrames(requestId, t, FullChunks(body, size)) + [FinalFrame(requestId, t, Remainder(body, size), body)]
  }

  /** Frames, checksum register and byte count after sending `chunks`. */
  datatype Progress = Progress(frames: seq<Frame>, register: nat, total: nat)

  function Sent(requestId: int, t: FrameType, register: nat, chunks: seq<seq<Byte>>): Progress {
    Progress(ChunkFrames(requestId, t, chunks), Feed(register, Concat(chunks)), |Concat(chunks)|)
  }

  lemma SentThen(requestId: int, t: FrameType, register: nat, a: seq<seq<Byte>>, b: seq<seq<Byte>>)
    ensures var before, more := Sent(requestId, t, register, a), Sent(requestId, t, Feed(register, Concat(a)), b);
            Sent(requestId, t, register, a + b)
            == Progress(before.frames + more.frames, more.register, before.total + more.total)
  {
    ConcatSplit(a, b);
    FeedConcat(register, Concat(a), Concat(b));
    ChunkFramesSplit(requestId, t, a, b);
  }

  lemma ChunkFramesSplit(requestId: int, t: FrameType, a: seq<seq<Byte>>, b: seq<seq<Byte>>)
    ensures ChunkFrames(requestId, t, a + b) == ChunkFrames(requestId, t, a) + ChunkFrames(requestId, t, b)
  {
  }

  lemma SentOneMore(requestId: int, t: FrameType, register: nat, chunks: seq<seq<Byte>>, chunk: seq<Byte>)
    ensures var before := Sent(requestId, t, register, chunks);
            Sent(requestId, t, register, chunks + [chunk])
            == Progress(before.frames + [ChunkFrame(requestId, t, chunk)], Feed(before.register, chunk),
              before.total + |chunk|)
  {
    assert (chunks + [chunk])[..|chunks|] == chunks;
    FeedConcat(register, Concat(chunks), chunk);
  }

  lemma OneMoreChunk(chunks: seq<seq<Byte>>, rest: seq<Byte>, size: nat)
    requires 0 < size <= |rest|
    ensures chunks + FullChunks(rest, size) == chunks + [rest[..size]] + FullChunks(rest[size..], size)
    ensures Remainder(rest, size) == Remainder(rest[size..], size)
  {
  }

  /** The inner loop: every full chunk of what is pending leaves as a frame. */
  method EmitFull(requestId: int, t: FrameType, chunkSize: nat, pending: seq<Byte>, crc: Crc)
    returns (frames: seq<Frame>, rest: seq<Byte>, bytes: nat)
    requires chunkSize > 0 && crc.Valid()
    modifies crc`crc
    ensures crc.Valid() && rest == Remainder(pending, chunkSize)
    ensures Progress(frames, crc.crc, bytes) == Sent(requestId, t, old(crc.crc), FullChunks(pending, chunkSize))
  {
    frames, rest, bytes := [], pending, 0;
    ghost var chunks: seq<seq<Byte>> := [];
    while |rest| >= chunkSize
      invariant crc.Valid()
      invariant Progress(frames, crc.crc, bytes) == Sent(requestId, t, old(crc.crc), chunks)
      invariant chunks + FullChunks(rest, chunkSize) == FullChunks(pending, chunkSize)
      invariant Remainder(rest, chunkSize) == Remainder(pending, chunkSize)
    {
      var chunk := rest[..chunkSize];
      SentOneMore(requestId, t, old(crc.crc), chunks, chunk);
      OneMoreChunk(chunks, rest, chunkSize);
      crc.Add(chunk);
      bytes := bytes + |chunk|;
      frames := frames + [Frame(t, requestId, 0, None, Some(chunk))];
      rest := rest[chunkSize..];
      chunks := chunks + [chunk];
    }
    assert chunks == FullChunks(pending, chunkSize);
  }

  lemma SummaryOfParts(body: seq<Byte>, size: nat)
    requires size > 0
    ensures var chunks, last := FullChunks(body, size), Remainder(body, size);
            Summary(body) == Json(Some(|Concat(chunks)| + |last|),
              Some(Xor(Feed(Feed(ONES, Concat(chunks)), last), ONES)), "")
  {
    ChunksAndRemainder(body, size);
    FeedConcat(ONES, Concat(FullChunks(body, size)), Remainder(body, size));
  }

  /** `splitIntoFrames`: the frames depend on the bytes alone, not on how they were buffered. */
  method SplitIntoFrames(requestId: int, source: seq<seq<Byte>>, t: FrameType, chunkSize: nat)
    returns (frames: seq<Frame>)
    requires chunkSize > 0
    ensures frames == Frames(requestId, t, chunkSize, Concat(source))
  {
    var crc := new Crc();
    var total, pending;
    frames, total, pending := EmitSource(requestId, source, t, chunkSize, crc);
    SummaryOfParts(Concat(source), chunkSize);
    crc.Add(pending);
    total := total + |pending|;
    var value := crc.Value();
    frames := frames + [Frame(t, requestId, FLAG_FINAL, Some(Json(Some(total), Some(value), "")),
                              if pending == [] then None else Some(pending))];
  }

  /** The outer loop, over the buffers as they arrive. */
  method EmitSource(requestId: int, source: seq<seq<Byte>>, t: FrameType, chunkSize: nat, crc: Crc)
    returns (frames: seq<Frame>, total: nat, pending: seq<Byte>)
    requires chunkSize > 0 && crc.Valid()
    modifies crc`crc
    ensures crc.Valid() && pending == Remainder(Concat(source), chunkSize)
    ensures Progress(frames, crc.crc, total) == Sent(requestId, t, old(crc.crc), FullChunks(Concat(source), chunkSize))
  {
    frames, total, pending := [], 0, [];
    for i := 0 to |source|
      invariant crc.Valid() && pending == Remainder(Concat(source[..i]), chunkSize)
      invariant Progress(frames, crc.crc, total)
             == Sent(requestId, t, old(crc.crc), FullChunks(Concat(source[..i]), chunkSize))
    {
      ghost var body := Concat(source[..i]);
      assert source[..i + 1][..i] == source[..i];
      ChunksResume(body, source[i], chunkSize);
      SentThen(requestId, t, old(crc.crc), FullChunks(body, chunkSize), FullChunks(pending + source[i], chunkSize));
      assert [] + source[i] == source[i];
      pending := if pending == [] then source[i] else pending + source[i];
      var emitted, bytes;
      emitted, pending, bytes := EmitFull(requestId, t, chunkSize, pending, crc);
      frames, total := frames + emitted, total + bytes;
    }
    assert source[..|source|] == source;
  }

  predicate IsFinal(f: Frame) { f.flags % 2 == 1 }

  /** All frames but the last are full and not final; only the last is final, and it is not full. */
  lemma OnlyLastIsFinal(requestId: int, t: FrameType, size: nat, body: seq<Byte>)
    requires size > 0
    ensures var fs := Frames(requestId, t, size, body);
            && fs != []
            && (forall i :: 0 <= i < |fs| - 1 ==> |PayloadOf(fs[i])| == size && !IsFinal(fs[i]))
            && |PayloadOf(fs[|fs| - 1])| < size && IsFinal(fs[|fs| - 1])
  {
    ChunksAndRemainder(body, size);
  }

  // ----- Reassembly -----

  /** What `verify` accepts of a received body. */
  predicate Accepts(m: Option<Json>, received: nat, body: seq<Byte>) {
    m.Some? ==>
      && (m.value.length.Some? ==> m.value.length.value == received)
      && (m.value.crc32.Some? ==> m.value.crc32.value == Checksum(body))
  }

  class ChunkReassembler {
    const maxBytes: nat
    const crc: Crc
    var chunks: seq<seq<Byte>>
    var received: nat

    ghost predicate Valid()
      reads this, crc, crc.table
    {
      crc.Valid() && crc.crc == Feed(ONES, Concat(chunks)) && received >= |Concat(chunks)|
    }

    constructor (maxBytes: nat)
      ensures Valid() && fresh(crc) && fresh(crc.table)
      ensures this.maxBytes == maxBytes && chunks == [] && received == 0
    {
      this.maxBytes := maxBytes;
      crc := new Crc();
      chunks, received := [], 0;
    }

    /** An append that breaks the ceiling counts its bytes and keeps none of them. */
    method Append(payload: Option<seq<Byte>>) returns (r: Result<(), FrameError>)
      requires Valid()
      modifies this`chunks, this`received, crc`crc
      ensures Valid()
      ensures var bytes := if payload.Some? then payload.value else [];
              && received == old(received) + |bytes|
              && (r.Ok? <==> bytes == [] || received <= maxBytes)
              && Concat(chunks) == old(Concat(chunks)) + (if r.Ok? then bytes else [])
              && (r.Err? ==> r.error == BodyTooLarge)
    {
      if payload.None? || payload.value == [] { return Ok(()); }
      received := received + |payload.value|;
      if received > maxBytes { return Err(BodyTooLarge); }
      FeedConcat(ONES, Concat(chunks), payload.value);
      crc.Add(payload.value);
      assert (chunks + [payload.value])[..|chunks|] == chunks;
      chunks := chunks + [payload.value];
      r := Ok(());
    }

    method Verify(m: Option<Json>) returns (r: Result<(), FrameError>)
      requires Valid()
      ensures r.Ok? <==> Accepts(m, received, Concat(chunks))
    {
      if m.None? { return Ok(()); }
      if m.value.length.Some? && m.value.length.value != received { return Err(BodyLengthMismatch); }
      var value := crc.Value();
      if m.value.crc32.Some? && m.value.crc32.value != value { return Err(ChecksumMismatch); }
      r := Ok(());
    }

    /** `Buffer.concat` to the received length, padded with zeros where bytes were refused. */
    method Take() returns (body: seq<Byte>)
      requires Valid()
      ensures |body| == received && Concat(chunks) <= body
      ensures forall i :: |Concat(chunks)| <= i < |body| ==> body[i] == 0
    {
      body := [];
      for i := 0 to |chunks|
        invariant body == Concat(chunks[..i])
      {
        assert chunks[..i + 1][..i] == chunks[..i];
        body := body + chunks[i];
      }
      assert chunks[..|chunks|] == chunks;
      body := body + seq(received - |body|, _ => 0);
    }
  }

  // ----- End to end -----

  /** The two limits `encodeFrame` enforces. */
  predicate Sendable(json: JsonText, f: Frame) {
    |MetadataOf(json, f)| <= MAX_METADATA_LENGTH && |PayloadOf(f)| <= MAX_PAYLOAD_LENGTH
  }

  /** One frame over the wire. */
  method Wire(json: JsonText, f: Frame) returns (r: Result<Frame, FrameError>)
    requires Faithful(json)
    ensures if Sendable(json, f) then r == Ok(Canonical(f)) else r.Err?
  {
    var wire := EncodeFrame(json, f);
    if wire.Err? { return Err(wire.error); }
    FrameRoundTrip(json, f);
    r := Decode(json, wire.value);
  }

  /** A received frame: append, and verify if it is final. */
  method Receive(f: Frame, receiver: ChunkReassembler) returns (r: Result<bool, FrameError>)
    requires receiver.Valid() && receiver.received + |PayloadOf(f)| <= receiver.maxBytes
    modifies receiver`chunks, receiver`received, receiver.crc`crc
    ensures receiver.Valid()
    ensures receiver.received == old(receiver.received) + |PayloadOf(f)|
    ensures Concat(receiver.chunks) == old(Concat(receiver.chunks)) + PayloadOf(f)
    ensures r.Ok? <==> !IsFinal(f) || Accepts(f.metadata, receiver.received, Concat(receiver.chunks))
    ensures r.Ok? ==> r.value == IsFinal(f)
  {
    var appended := receiver.Append(f.payload);
    if IsFinal(f) {
      var verified := receiver.Verify(f.metadata);
      if verified.Err? { return Err(verified.error); }
    }
    r := Ok(IsFinal(f));
  }

  lemma PrefixConcat(chunks: seq<seq<Byte>>, k: nat)
    requires k < |chunks|
    ensures Concat(chunks[..k + 1]) == Concat(chunks[..k]) + chunks[k]
    ensures |Concat(chunks[..k + 1])| <= |Concat(chunks)|
  {
    ConcatSplit(chunks[..k + 1], chunks[k + 1..]);
    assert chunks[..k + 1] + chunks[k + 1..] == chunks;
    assert chunks[..k + 1][..k] == chunks[..k];
  }

  /** The frames before the final one. */
  method ReceiveChunks(json: JsonText, frames: seq<Frame>, receiver: ChunkReassembler, ghost chunks: seq<seq<Byte>>)
    requires Faithful(json) && receiver.Valid() && receiver.chunks == [] && receiver.received == 0
    requires |frames| == |chunks| && |Concat(chunks)| <= receiver.maxBytes
    requires forall i :: 0 <= i < |frames| ==>
      frames[i].payload == Some(chunks[i]) && frames[i].metadata == None && frames[i].flags == 0
    requires forall i :: 0 <= i < |chunks| ==> |chunks[i]| <= MAX_PAYLOAD_LENGTH
    modifies receiver`chunks, receiver`received, receiver.crc`crc
    ensures receiver.Valid() && Concat(receiver.chunks) == Concat(chunks) && receiver.received == |Concat(chunks)|
  {
    for i := 0 to |frames|
      invariant receiver.Valid()
      invariant Concat(receiver.chunks) == Concat(chunks[..i]) && receiver.received == |Concat(chunks[..i])|
    {
      PrefixConcat(chunks, i);
      var got := Wire(json, frames[i]);
      var r := Receive(got.value, receiver);
    }
    assert chunks[..|frames|] == chunks;
  }

  /** The final frame: it crosses the wire, completes the body and verifies. */
  method ReceiveFinal(json: JsonText, f: Frame, receiver: ChunkReassembler, ghost body: seq<Byte>)
    returns (verified: bool)
    requires Faithful(json) && receiver.Valid() && Sendable(json, f)
    requires IsFinal(f) && f.flags == FLAG_FINAL && f.metadata == Some(Summary(body))
    requires Concat(receiver.chunks) + PayloadOf(f) == body && receiver.received == |Concat(receiver.chunks)|
    requires |body| <= receiver.maxBytes
    modifies receiver`chunks, receiver`received, receiver.crc`crc
    ensures verified && receiver.Valid() && Concat(receiver.chunks) == body && receiver.received == |body|
  {
    var got := Wire(json, f);
    assert PayloadOf(got.value) == PayloadOf(f) && got.value.metadata == f.metadata && IsFinal(got.value);
    var r := Receive(got.value, receiver);
    verified := r == Ok(true);
  }

  /**
   * For every body, every way it arrives in buffers and every chunk size from one
   * byte to 64 KiB, splitting, encoding, decoding, appending, verifying and taking
   * gives back the body.
   */
  method Transfer(json: JsonText, requestId: int, t: FrameType, source: seq<seq<Byte>>, chunkSize: nat, maxBytes: nat)
    returns (body: seq<Byte>)
    requires Faithful(json) && 1 <= chunkSize <= MAX_PAYLOAD_LENGTH
    requires |Concat(source)| <= maxBytes && |json.stringify(Summary(Concat(source)))| <= MAX_METADATA_LENGTH
    ensures body == Concat(source)
  {
    ChunksAndRemainder(Concat(source), chunkSize);
    var frames := SplitIntoFrames(requestId, source, t, chunkSize);
    var receiver := new ChunkReassembler(maxBytes);
    var n := |frames| - 1;
    ReceiveChunks(json, frames[..n], receiver, FullChunks(Concat(source), chunkSize));
    var verified := ReceiveFinal(json, frames[n], receiver, Concat(source));
    body := receiver.Take();
  }

  /** A body damaged inside four consecutive bytes never passes the sender's metadata. */
  lemma DamageIsRejected(sent: seq<Byte>, got: seq<Byte>, from: nat, to: nat)
    requires |sent| == |got| && from <= to <= |sent| && to - from <= 4
    requires sent[..from] == got[..from] && sent[to..] == got[to..] && sent != got
    ensures !Accepts(Some(Summary(sent)), |got|, got)
  {
    ChecksumDetects(sent, got, from, to);
  }

  /** A dropped or duplicated chunk never passes the sender's metadata. */
  lemma WrongLengthIsRejected(sent: seq<Byte>, got: seq<Byte>)
    requires |sent| != |got|
    ensures !Accepts(Some(Summary(sent)), |got|, got)
  {
  }
}
