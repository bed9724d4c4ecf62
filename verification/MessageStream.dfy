/** How the host cuts the bytes of a client connection into messages. */
module MessageStream {
  import opened Bytes
  import opened Options
  import opened Framing
  import opened Arithmetic
  import Checksum

  const MAGIC := 0x58524B00
  const PROTOCOL_VERSION := 1
  const HEADER_FIXED_SIZE := 24
  const MIN_MESSAGE_SIZE := 28
  const CHECKSUM_SIZE := 4

  /** The fields that decide where a message ends. */
  datatype Header = Header(kind: nat, length: nat, sessionIdLen: nat)

  /** `MessageCodec::parseHeader`: the fixed header, the length of the session id, and the
      session id itself must be there. */
  function ParseHeader(data: Data): (r: Option<Header>)
    ensures r.Some? ==> HEADER_FIXED_SIZE + 4 <= |data|
  {
    if |data| < HEADER_FIXED_SIZE then None
    else if FromBE32(data[0..4]) != MAGIC then None
    else if FromBE32(data[4..8]) != PROTOCOL_VERSION then None
    else if |data| < HEADER_FIXED_SIZE + 4 then None
    else
      var header := Header(FromBE32(data[8..12]), FromBE32(data[12..16]), FromBE32(data[24..28]));
      if |data| < HEADER_FIXED_SIZE + 4 + header.sessionIdLen then None else Some(header)
  }

  function TotalSize(h: Header): nat {
    HEADER_FIXED_SIZE + 4 + h.sessionIdLen + h.length + CHECKSUM_SIZE
  }

  /** The size of the complete message at the front of the buffer, if there is one. */
  function FirstMessage(buffer: Data): (r: Option<nat>)
    ensures r.Some? ==> 0 < r.value <= |buffer|
  {
    if |buffer| < MIN_MESSAGE_SIZE then None else
      var header := ParseHeader(buffer);
      if header.None? || |buffer| < TotalSize(header.value) then None else Some(TotalSize(header.value))
  }

  /** `MessageCodec::verifyChecksum`. */
  predicate Verifies(message: Data) {
    && CHECKSUM_SIZE <= |message|
    && message[|message| - CHECKSUM_SIZE..] == BE32(Checksum.Sum(message[..|message| - CHECKSUM_SIZE]))
  }

  const HostCodec := Codec(FirstMessage, Verifies)

  /** The connection: the unconsumed bytes and the messages handed on so far. */
  class ClientConnection {
    var buffer: Data
    var processed: seq<Data>

    constructor ()
      ensures buffer == [] && processed == []
    {
      buffer, processed := [], [];
    }

    method OnClientDataReady(data: Data)
      modifies this
      ensures (processed, buffer) == Consume(HostCodec, old(processed), old(buffer) + data)
    {
      buffer := buffer + data;
      ProcessClientBuffer();
    }

    method ProcessClientBuffer()
      modifies this
      ensures (processed, buffer) == Consume(HostCodec, old(processed), old(buffer))
    {
      while |buffer| >= MIN_MESSAGE_SIZE
        invariant Consume(HostCodec, processed, buffer) == Consume(HostCodec, old(processed), old(buffer))
        decreases |buffer|
      {
        var header := ParseHeader(buffer);
        if header.None? {
          break;
        }
        var totalSize := TotalSize(header.value);
        if |buffer| < totalSize {
          break;
        }
        var messageData := buffer[..totalSize];
        buffer := buffer[totalSize..];
        if !Verifies(messageData) {
          assert processed + [] == processed;
          continue;
        }
        processed := processed + [messageData];
      }
    }
  }

  // ---- Streams ----

  /** Bytes that arrive later do not change a message that is already complete. */
  lemma HostCodecIsStable()
    ensures Stable(HostCodec)
  {
    forall a, b | HostCodec.first(a).Some? && a <= b ensures HostCodec.first(b) == HostCodec.first(a) {
      assert b[0..4] == a[0..4] && b[4..8] == a[4..8] && b[8..12] == a[8..12];
      assert b[12..16] == a[12..16] && b[24..28] == a[24..28];
    }
  }

  /** For any bytes at all, cut in any way: the connection hands on the messages and keeps the
      bytes that a single read would. */
  lemma HostIsIncremental(segments: seq<Data>)
    ensures ConsumeAll(HostCodec, [], [], segments) == Consume(HostCodec, [], Flatten(segments))
  {
    HostCodecIsStable();
    IncrementalIsBatch(HostCodec, [], [], segments);
    assert [] + Flatten(segments) == Flatten(segments);
  }

  /** Every split of a stream of messages, followed by part of another one, delivers exactly the
      messages with a correct checksum, in order, and keeps exactly the incomplete part: a
      corrupted message does not disturb the others. */
  lemma EveryMessageOnce(messages: seq<Data>, last: Data, k: nat, segments: seq<Data>)
    requires forall m | m in messages :: FirstMessage(m) == Some(|m|)
    requires FirstMessage(last) == Some(|last|) && k < |last|
    requires Flatten(segments) == Flatten(messages) + last[..k]
    ensures ConsumeAll(HostCodec, [], [], segments) == (Genuine(HostCodec, messages), last[..k])
    ensures (forall m | m in messages :: Verifies(m)) ==>
      ConsumeAll(HostCodec, [], [], segments) == (messages, last[..k])
  {
    if forall m | m in messages :: Verifies(m) {
      AllGenuine(HostCodec, messages);
    }
    HostCodecIsStable();
    forall m | m in messages ensures Framed(HostCodec, m) {
    }
    PrefixIsPartial(HostCodec, last, k);
    ConsumeFramed(HostCodec, [], messages, last[..k]);
    assert [] + Genuine(HostCodec, messages) == Genuine(HostCodec, messages);
    HostIsIncremental(segments);
  }

  // ---- Encoding ----

  /** The 28 bytes in front of the session id. */
  function Head(kind: nat, length: nat, timestamp: nat, sessionIdLen: nat): (r: Data)
    requires kind < TWO_32 && length < TWO_32 && timestamp < TWO_64 && sessionIdLen < TWO_32
    ensures |r| == HEADER_FIXED_SIZE + 4
    ensures r[0..4] == BE32(MAGIC) && r[4..8] == BE32(PROTOCOL_VERSION)
    ensures r[8..12] == BE32(kind) && r[12..16] == BE32(length) && r[24..28] == BE32(sessionIdLen)
  {
    BE32(MAGIC) + BE32(PROTOCOL_VERSION) + BE32(kind) + BE32(length)
    + BE32(timestamp / TWO_32) + BE32(timestamp % TWO_32) + BE32(sessionIdLen)
  }

  /** `MessageCodec::encode` up to the checksum; the two lengths are cast to 32 bits. */
  function Body(kind: nat, payload: Data, timestamp: nat, sessionId: Data): Data
    requires kind < TWO_32 && timestamp < TWO_64
  {
    Head(kind, |payload| % TWO_32, timestamp, |sessionId| % TWO_32) + sessionId + payload
  }

  function Encode(kind: nat, payload: Data, timestamp: nat, sessionId: Data): Data
    requires kind < TWO_32 && timestamp < TWO_64
  {
    var body := Body(kind, payload, timestamp, sessionId);
    body + BE32(Checksum.Sum(body))
  }

  /** `MessageCodec::decode`: the kind, the payload and the session id. */
  function Decode(data: Data): Option<(nat, Data, Data)> {
    var header := ParseHeader(data);
    if header.None? || |data| < MIN_MESSAGE_SIZE + header.value.length then None else
      var h := header.value;
      Some((h.kind, Mid(data, HEADER_FIXED_SIZE + 4 + h.sessionIdLen, h.length),
            Mid(data, HEADER_FIXED_SIZE + 4, h.sessionIdLen)))
  }

  /** `QByteArray::mid`: at most `n` bytes from `from` on. */
  function Mid(data: Data, from: nat, n: nat): Data {
    if |data| <= from then [] else if |data| - from <= n then data[from..] else data[from..from + n]
  }

  lemma ParseHead(kind: nat, length: nat, timestamp: nat, sessionIdLen: nat, rest: Data)
    requires kind < TWO_32 && length < TWO_32 && timestamp < TWO_64 && sessionIdLen <= |rest|
    requires sessionIdLen < TWO_32
    ensures ParseHeader(Head(kind, length, timestamp, sessionIdLen) + rest) == Some(Header(kind, length, sessionIdLen))
  {
    var head := Head(kind, length, timestamp, sessionIdLen);
    var data := head + rest;
    BE32RoundTrip(MAGIC);
    BE32RoundTrip(PROTOCOL_VERSION);
    BE32RoundTrip(kind);
    BE32RoundTrip(length);
    BE32RoundTrip(sessionIdLen);
    assert data[0..4] == head[0..4] && data[4..8] == head[4..8] && data[8..12] == head[8..12];
    assert data[12..16] == head[12..16] && data[24..28] == head[24..28];
  }

  /** An encoded message verifies. */
  lemma EncodedVerifies(kind: nat, payload: Data, timestamp: nat, sessionId: Data)
    requires kind < TWO_32 && timestamp < TWO_64
    ensures Verifies(Encode(kind, payload, timestamp, sessionId))
  {
    ClosingSum(Body(kind, payload, timestamp, sessionId));
  }

  /** An encoded message is one message, and decodes to what went in. */
  lemma EncodeRoundTrip(kind: nat, payload: Data, timestamp: nat, sessionId: Data)
    requires kind < TWO_32 && timestamp < TWO_64
    requires |payload| < TWO_32 && |sessionId| < TWO_32
    ensures
      var message := Encode(kind, payload, timestamp, sessionId);
      FirstMessage(message) == Some(|message|) && Decode(message) == Some((kind, payload, sessionId))
  {
    BodyParts(kind, payload, timestamp, sessionId);
    DecodeParts(kind, payload, timestamp, sessionId, BE32(Checksum.Sum(Body(kind, payload, timestamp, sessionId))));
  }

  lemma BodyParts(kind: nat, payload: Data, timestamp: nat, sessionId: Data)
    requires kind < TWO_32 && timestamp < TWO_64
    requires |payload| < TWO_32 && |sessionId| < TWO_32
    ensures Body(kind, payload, timestamp, sessionId)
         == Head(kind, |payload|, timestamp, |sessionId|) + sessionId + payload
  {
    assert |payload| % TWO_32 == |payload| && |sessionId| % TWO_32 == |sessionId|;
  }

  lemma ClosingSum(body: Data)
    ensures Verifies(body + BE32(Checksum.Sum(body)))
  {
    var sum := BE32(Checksum.Sum(body));
    assert (body + sum)[..|body|] == body && (body + sum)[|body|..] == sum;
  }

  lemma DecodeParts(kind: nat, payload: Data, timestamp: nat, sessionId: Data, sum: Data)
    requires kind < TWO_32 && timestamp < TWO_64
    requires |payload| < TWO_32 && |sessionId| < TWO_32 && |sum| == CHECKSUM_SIZE
    ensures
      var message := Head(kind, |payload|, timestamp, |sessionId|) + sessionId + payload + sum;
      FirstMessage(message) == Some(|message|) && Decode(message) == Some((kind, payload, sessionId))
  {
    var head := Head(kind, |payload|, timestamp, |sessionId|);
    var message := head + sessionId + payload + sum;
    var rest := sessionId + payload + sum;
    assert message == head + rest;
    ParseHead(kind, |payload|, timestamp, |sessionId|, rest);
    assert message[28..28 + |sessionId|] == sessionId;
    assert message[28 + |sessionId|..28 + |sessionId| + |payload|] == payload;
  }

  // ---- Altered messages ----

  lemma SameSum(a: Data, b: Data)
    ensures BE32(Checksum.Sum(a)) == BE32(Checksum.Sum(b)) <==> Checksum.Sum(a) == Checksum.Sum(b)
  {
    BE32RoundTrip(Checksum.Sum(a));
    BE32RoundTrip(Checksum.Sum(b));
  }

  lemma VerifiesWith(body: Data, sum: Data)
    requires |sum| == CHECKSUM_SIZE
    ensures Verifies(body + sum) <==> sum == BE32(Checksum.Sum(body))
  {
    assert (body + sum)[..|body|] == body && (body + sum)[|body|..] == sum;
  }

  /** Where the byte `i` of the payload stands in an encoded message. */
  function PayloadAt(sessionId: Data, i: nat): nat {
    HEADER_FIXED_SIZE + 4 + |sessionId| + i
  }

  /** How much a changed byte with `behind` bytes behind it moves the weighted sum. */
  function Moved(was: Byte, becomes: Byte, behind: nat): int {
    (becomes - was) * Pow2(behind)
  }

  lemma AlteredBody(kind: nat, payload: Data, timestamp: nat, sessionId: Data, i: nat, b: Byte)
    requires kind < TWO_32 && timestamp < TWO_64 && |payload| < TWO_32 && |sessionId| < TWO_32 && i < |payload|
    ensures
      var body := Body(kind, payload, timestamp, sessionId);
      var at := PayloadAt(sessionId, i);
      && at < |body| && body[at] == payload[i] && |body| - 1 - at == |payload| - 1 - i
      && body[at := b] == Body(kind, payload[i := b], timestamp, sessionId)
  {
    BodyParts(kind, payload, timestamp, sessionId);
    BodyParts(kind, payload[i := b], timestamp, sessionId);
  }

  /** A message that arrives altered, with its header intact: it is one message, and of it nothing
      is handed on, whatever follows, and nothing that follows is disturbed, unless it verifies. */
  lemma AlteredIsDropped(message: Data, processed: seq<Data>, more: Data)
    requires FirstMessage(message) == Some(|message|) && !Verifies(message)
    ensures Consume(HostCodec, processed, message + more) == Consume(HostCodec, processed, more)
  {
    HostCodecIsStable();
    ConsumeNext(HostCodec, processed, message, more);
    assert processed + [] == processed;
  }

  lemma AlteredMessage(kind: nat, payload: Data, timestamp: nat, sessionId: Data, i: nat, b: Byte)
    requires kind < TWO_32 && timestamp < TWO_64 && |payload| < TWO_32 && |sessionId| < TWO_32 && i < |payload|
    ensures
      var body := Body(kind, payload, timestamp, sessionId);
      && PayloadAt(sessionId, i) < |body|
      && Encode(kind, payload, timestamp, sessionId)[PayloadAt(sessionId, i) := b]
         == Body(kind, payload[i := b], timestamp, sessionId) + BE32(Checksum.Sum(body))
  {
    var body, at := Body(kind, payload, timestamp, sessionId), PayloadAt(sessionId, i);
    AlteredBody(kind, payload, timestamp, sessionId, i, b);
    var sum := BE32(Checksum.Sum(body));
    var message: Data, alteredBody: Data := body + sum, body[at := b];
    assert message[at := b] == alteredBody + sum;
  }

  lemma OneMessage(kind: nat, payload: Data, timestamp: nat, sessionId: Data, sum: Data)
    requires kind < TWO_32 && timestamp < TWO_64
    requires |payload| < TWO_32 && |sessionId| < TWO_32 && |sum| == CHECKSUM_SIZE
    ensures
      var message := Body(kind, payload, timestamp, sessionId) + sum;
      FirstMessage(message) == Some(|message|)
  {
    BodyParts(kind, payload, timestamp, sessionId);
    DecodeParts(kind, payload, timestamp, sessionId, sum);
  }

  lemma StillVerifies(body: Data, altered: Data)
    ensures Verifies(altered + BE32(Checksum.Sum(body))) <==> Checksum.Sum(altered) == Checksum.Sum(body)
  {
    VerifiesWith(altered, BE32(Checksum.Sum(body)));
    SameSum(altered, body);
  }

  /** An encoded message with one byte of its payload changed is still one message, and it is
      handed on if and only if the change, shifted by its distance from the end, is a multiple of
      2^32. */
  lemma AlteredPayloadExactly(kind: nat, payload: Data, timestamp: nat, sessionId: Data, i: nat, b: Byte)
    requires kind < TWO_32 && timestamp < TWO_64 && |payload| < TWO_32 && |sessionId| < TWO_32 && i < |payload|
    ensures
      var message := Encode(kind, payload, timestamp, sessionId);
      && PayloadAt(sessionId, i) < |message|
      && var altered := message[PayloadAt(sessionId, i) := b];
      && FirstMessage(altered) == Some(|altered|)
      && (Verifies(altered) <==> Moved(payload[i], b, |payload| - 1 - i) % TWO_32 == 0)
  {
    var body, altered := Body(kind, payload, timestamp, sessionId), Body(kind, payload[i := b], timestamp, sessionId);
    AlteredMessage(kind, payload, timestamp, sessionId, i, b);
    OneMessage(kind, payload[i := b], timestamp, sessionId, BE32(Checksum.Sum(body)));
    StillVerifies(body, altered);
    AlteredBody(kind, payload, timestamp, sessionId, i, b);
    SumMoved(body, PayloadAt(sessionId, i), b);
  }

  lemma SumMoved(body: Data, at: nat, b: Byte)
    requires at < |body|
    ensures Checksum.Sum(body) == Checksum.Sum(body[at := b]) <==> Moved(body[at], b, |body| - 1 - at) % TWO_32 == 0
  {
    Checksum.ChangeUnnoticed(body, at, b);
  }

  /** In particular any change of one of the last twenty-five bytes of the payload is noticed:
      nothing of the message is handed on, and what follows is not disturbed. */
  lemma AlteredPayloadIsDropped(kind: nat, payload: Data, timestamp: nat, sessionId: Data, i: nat, b: Byte,
                                processed: seq<Data>, more: Data)
    requires kind < TWO_32 && timestamp < TWO_64 && |payload| < TWO_32 && |sessionId| < TWO_32
    requires i < |payload| <= i + 25 && b != payload[i]
    ensures
      var message := Encode(kind, payload, timestamp, sessionId);
      && PayloadAt(sessionId, i) < |message|
      && var altered := message[PayloadAt(sessionId, i) := b];
      && !Verifies(altered)
      && Consume(HostCodec, processed, altered + more) == Consume(HostCodec, processed, more)
  {
    AlteredPayloadExactly(kind, payload, timestamp, sessionId, i, b);
    LastBytesMove(payload, i, b);
    AlteredIsDropped(Encode(kind, payload, timestamp, sessionId)[PayloadAt(sessionId, i) := b], processed, more);
  }

  lemma LastBytesMove(payload: Data, i: nat, b: Byte)
    requires i < |payload| <= i + 25 && b != payload[i]
    ensures Moved(payload[i], b, |payload| - 1 - i) % TWO_32 != 0
  {
    Checksum.LastBytesAreCovered(payload, i, b);
    SumMoved(payload, i, b);
  }

  /** A change of any of the four checksum bytes is noticed as well. */
  lemma AlteredChecksumIsDropped(kind: nat, payload: Data, timestamp: nat, sessionId: Data, i: nat, b: Byte,
                                 processed: seq<Data>, more: Data)
    requires kind < TWO_32 && timestamp < TWO_64 && |payload| < TWO_32 && |sessionId| < TWO_32
    requires
      var message := Encode(kind, payload, timestamp, sessionId);
      |message| - CHECKSUM_SIZE <= i < |message| && b != message[i]
    ensures
      var altered := Encode(kind, payload, timestamp, sessionId)[i := b];
      && !Verifies(altered)
      && Consume(HostCodec, processed, altered + more) == Consume(HostCodec, processed, more)
  {
    var body := Body(kind, payload, timestamp, sessionId);
    var sum := BE32(Checksum.Sum(body));
    var message: Data, altered: Data := body + sum, sum[i - |body| := b];
    assert message[i := b] == body + altered && altered[i - |body|] != sum[i - |body|];
    OneMessage(kind, payload, timestamp, sessionId, altered);
    VerifiesWith(body, altered);
    AlteredIsDropped(body + altered, processed, more);
  }

  // ---- The bytes on the wire ----

  lemma FieldBytes()
    ensures BE32(MAGIC) == [0x58, 0x52, 0x4B, 0] && BE32(PROTOCOL_VERSION) == [0, 0, 0, 1]
    ensures BE32(0x01020304) == [1, 2, 3, 4] && BE32(0x05060708) == [5, 6, 7, 8] && BE32(3) == [0, 0, 0, 3]
  {
  }

  /** One message, byte by byte: magic number, version, kind, length, time stamp, length of the
      session id, session id, payload; numbers most significant byte first. */
  lemma MessageBytes(payload: Data, sessionId: Data)
    requires |payload| == 3 && |sessionId| == 1
    ensures Body(0x01020304, payload, 0x0102_0304_0506_0708, sessionId)
         == [0x58, 0x52, 0x4B, 0] + [0, 0, 0, 1] + [1, 2, 3, 4] + [0, 0, 0, 3]
          + [1, 2, 3, 4] + [5, 6, 7, 8] + [0, 0, 0, 1] + sessionId + payload
  {
    FieldBytes();
  }

  // ---- Blocked connections ----

  /** The eight bytes that every message begins with. */
  function Preamble(): (r: Data)
    ensures |r| == 8
  {
    BE32(MAGIC) + BE32(PROTOCOL_VERSION)
  }

  /** The buffer begins as a message does, as far as it goes. */
  predicate OnTrack(buffer: Data) {
    buffer <= Preamble() || Preamble() <= buffer
  }

  lemma HeaderHasPreamble(data: Data)
    ensures ParseHeader(data).Some? ==> Preamble() <= data
    ensures Preamble() <= data && 28 <= |data| ==>
      (ParseHeader(data).Some? <==> 28 + FromBE32(data[24..28]) <= |data|)
  {
    BE32RoundTrip(MAGIC);
    BE32RoundTrip(PROTOCOL_VERSION);
    if 8 <= |data| {
      BE32Inverse(data[0..4]);
      BE32Inverse(data[4..8]);
      assert data[..8] == data[0..4] + data[4..8];
      if Preamble() <= data {
        assert data[0..4] == Preamble()[0..4] && data[4..8] == Preamble()[4..8];
      }
    }
  }

  /** Bytes that do not begin as a message does are never consumed. */
  lemma OffTrackStays(buffer: Data, more: Data)
    requires !OnTrack(buffer)
    ensures !Complete(HostCodec, buffer + more)
  {
    HeaderHasPreamble(buffer + more);
  }

  /** Such a connection is dead: whatever arrives, nothing is handed on any more. */
  lemma OffTrackBlocks(processed: seq<Data>, buffer: Data, segments: seq<Data>)
    requires !OnTrack(buffer)
    ensures ConsumeAll(HostCodec, processed, buffer, segments) == (processed, buffer + Flatten(segments))
  {
    HostCodecIsStable();
    OffTrackStays(buffer, []);
    assert buffer + [] == buffer;
    IncrementalIsBatch(HostCodec, processed, buffer, segments);
    OffTrackStays(buffer, Flatten(segments));
  }

  /** The buffer, filled up to a whole header. */
  lemma FillHeader(buffer: Data) returns (data: Data)
    requires OnTrack(buffer)
    ensures buffer <= data && Preamble() <= data && 28 <= |data|
    ensures !Complete(HostCodec, buffer) ==> !Complete(HostCodec, data)
  {
    if Preamble() <= buffer {
      data := if |buffer| < 28 then buffer + Zeros(28 - |buffer|) else buffer;
    } else {
      data := Preamble() + Zeros(20);
    }
  }

  /** Zeros up to the size that the header announces make one message of it. */
  lemma FillMessage(data: Data) returns (message: Data)
    requires Preamble() <= data && 28 <= |data| && !Complete(HostCodec, data)
    ensures data <= message && Framed(HostCodec, message)
  {
    var total := TotalSize(Header(FromBE32(data[8..12]), FromBE32(data[12..16]), FromBE32(data[24..28])));
    HeaderHasPreamble(data);
    assert |data| < total;
    message := data + Zeros(total - |data|);
    assert message[8..12] == data[8..12] && message[12..16] == data[12..16] && message[24..28] == data[24..28];
    HeaderHasPreamble(message);
  }

  lemma GenuineMessage() returns (message: Data)
    ensures Framed(HostCodec, message) && Verifies(message)
  {
    message := Encode(0, [], 0, []);
    EncodeRoundTrip(0, [], 0, []);
    EncodedVerifies(0, [], 0, []);
  }

  lemma SecondIsDelivered(processed: seq<Data>, first: Data, second: Data)
    requires Framed(HostCodec, first) && Framed(HostCodec, second) && Verifies(second)
    ensures Complete(HostCodec, first + second)
    ensures Consume(HostCodec, processed, first + second).0 == processed + Kept(HostCodec, first) + [second]
  {
    HostCodecIsStable();
    assert first <= first + second && HostCodec.first(first + second) == HostCodec.first(first);
    ConsumeNext(HostCodec, processed, first, second);
    assert second + [] == second;
    ConsumeNext(HostCodec, processed + Kept(HostCodec, first), second, []);
  }

  /** From a buffer on track, some bytes make the connection hand on a message again. */
  lemma OnTrackDelivers(processed: seq<Data>, buffer: Data) returns (more: Data)
    requires OnTrack(buffer) && !Complete(HostCodec, buffer)
    ensures Complete(HostCodec, buffer + more)
    ensures Consume(HostCodec, processed, buffer + more).0 != processed
  {
    var data := FillHeader(buffer);
    var first := FillMessage(data);
    var second := GenuineMessage();
    more := first[|buffer|..] + second;
    assert buffer + more == first + second;
    SecondIsDelivered(processed, first, second);
  }

  /** A connection can recover, that is, hand on a message again, if and only if what it has kept
      begins as a message does. A wrong magic number, a wrong version, or even one wrong first
      byte, blocks it for good. */
  lemma BlockedExactly(processed: seq<Data>, buffer: Data)
    requires !Complete(HostCodec, buffer)
    ensures (exists more: Data :: Complete(HostCodec, buffer + more)) <==> OnTrack(buffer)
    ensures (exists more: Data :: Consume(HostCodec, processed, buffer + more).0 != processed) <==> OnTrack(buffer)
  {
    if OnTrack(buffer) {
      var more := OnTrackDelivers(processed, buffer);
    } else {
      forall more: Data ensures !Complete(HostCodec, buffer + more) {
        OffTrackStays(buffer, more);
      }
    }
  }
}
