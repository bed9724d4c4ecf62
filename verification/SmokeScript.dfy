/**
 The smoke-check script's own reader of the message stream. Unlike the host it looks at neither
 magic number nor checksum.
 */
module SmokeScript {
  import opened Bytes
  import opened Options
  import opened Framing
  import Checksum
  import MessageStream

  const HEADER_FIXED := 24

  datatype Header = Header(magic: nat, version: nat, kind: nat, length: nat, sidLen: nat)

  function ParseHeader(data: Data): Option<Header> {
    if |data| < HEADER_FIXED + 4 then None else
      Some(Header(FromBE32(data[0..4]), FromBE32(data[4..8]), FromBE32(data[8..12]),
                  FromBE32(data[12..16]), FromBE32(data[24..28])))
  }

  function MessageSize(h: Header): nat {
    HEADER_FIXED + 4 + h.sidLen + h.length + 4
  }

  function FirstMessage(buf: Data): Option<nat> {
    var header := ParseHeader(buf);
    if header.None? || |buf| < MessageSize(header.value) then None else Some(MessageSize(header.value))
  }

  const ScriptCodec := Codec(FirstMessage, _ => true)

  /** The header and the payload of one message. */
  function Unpack(data: Data): (Header, Data)
    requires FirstMessage(data) == Some(|data|)
  {
    var h := ParseHeader(data).value;
    (h, data[HEADER_FIXED + 4 + h.sidLen..HEADER_FIXED + 4 + h.sidLen + h.length])
  }

  /** `msgs` is what the script returns for the messages it finds. */
  predicate Unpacked(messages: seq<Data>, msgs: seq<(Header, Data)>) {
    && |msgs| == |messages|
    && forall i | 0 <= i < |msgs| :: FirstMessage(messages[i]) == Some(|messages[i]|) && msgs[i] == Unpack(messages[i])
  }

  method ExtractMessages(data: Data) returns (msgs: seq<(Header, Data)>, buf: Data)
    ensures
      var (messages, rest) := Consume(ScriptCodec, [], data);
      buf == rest && Unpacked(messages, msgs)
  {
    msgs, buf := [], data;
    ghost var messages: seq<Data> := [];
    while |buf| >= HEADER_FIXED + 4
      invariant Consume(ScriptCodec, messages, buf) == Consume(ScriptCodec, [], data)
      invariant Unpacked(messages, msgs)
      decreases |buf|
    {
      var header := ParseHeader(buf);
      if header.None? {
        break;
      }
      var total := MessageSize(header.value);
      if |buf| < total {
        break;
      }
      var message := buf[..total];
      OneMessage(buf);
      msgs := msgs + [Unpack(message)];
      messages := messages + [message];
      buf := buf[total..];
    }
  }

  /** A message cut off the front of the buffer has the size its header says. */
  lemma OneMessage(buf: Data)
    requires FirstMessage(buf).Some?
    ensures
      var total := FirstMessage(buf).value;
      ParseHeader(buf[..total]) == ParseHeader(buf) && FirstMessage(buf[..total]) == Some(total)
  {
    SameHeader(buf[..FirstMessage(buf).value], buf);
  }

  lemma SameHeader(a: Data, b: Data)
    requires HEADER_FIXED + 4 <= |a| && a <= b
    ensures ParseHeader(a) == ParseHeader(b)
  {
    assert b[0..4] == a[0..4] && b[4..8] == a[4..8] && b[8..12] == a[8..12];
    assert b[12..16] == a[12..16] && b[24..28] == a[24..28];
  }

  lemma ScriptCodecIsStable()
    ensures Stable(ScriptCodec)
  {
    forall a, b | ScriptCodec.first(a).Some? && a <= b ensures ScriptCodec.first(b) == ScriptCodec.first(a) {
      SameHeader(a, b);
    }
  }

  // ---- When the script and the host agree ----

  /** The host sees the same message, or none when magic number or version are wrong. */
  lemma HostSeesTheSame(buf: Data)
    ensures MessageStream.FirstMessage(buf)
         == if MessageStream.Preamble() <= buf then FirstMessage(buf) else None
  {
    MessageStream.HeaderHasPreamble(buf);
  }

  /** What the host hands on: with right preamble and checksum. */
  predicate Accepted(message: Data) {
    MessageStream.Preamble() <= message && MessageStream.Verifies(message)
  }

  /** A message with a wrong preamble stops the host. */
  lemma HostStops(processed: seq<Data>, message: Data, more: Data)
    requires Framed(ScriptCodec, message) && !(MessageStream.Preamble() <= message)
    ensures Consume(MessageStream.HostCodec, processed, message + more) == (processed, message + more)
  {
    HostSeesTheSame(message + more);
    assert |MessageStream.Preamble()| <= |message|;
    assert (message + more)[..|message|] == message;
  }

  lemma HostTakes(processed: seq<Data>, message: Data, more: Data)
    requires Framed(ScriptCodec, message) && MessageStream.Preamble() <= message
    ensures Consume(MessageStream.HostCodec, processed, message + more)
         == Consume(MessageStream.HostCodec, processed + Kept(MessageStream.HostCodec, message), more)
  {
    HostSeesTheSame(message);
    MessageStream.HostCodecIsStable();
    ConsumeNext(MessageStream.HostCodec, processed, message, more);
  }

  predicate AllAccepted(messages: seq<Data>) {
    messages == [] || (Accepted(messages[0]) && AllAccepted(messages[1..]))
  }

  lemma {:induction false} AllAcceptedMeans(messages: seq<Data>)
    ensures AllAccepted(messages) <==> forall m | m in messages :: Accepted(m)
  {
    if messages != [] {
      AllAcceptedMeans(messages[1..]);
      assert messages == [messages[0]] + messages[1..];
    }
  }

  lemma HostTakesAll(processed: seq<Data>, messages: seq<Data>, tail: Data)
    requires forall m | m in messages :: Framed(ScriptCodec, m)
    requires FirstMessage(tail).None? && AllAccepted(messages)
    ensures Consume(MessageStream.HostCodec, processed, Flatten(messages) + tail) == (processed + messages, tail)
  {
    AllAcceptedMeans(messages);
    forall m | m in messages ensures Framed(MessageStream.HostCodec, m) && MessageStream.HostCodec.genuine(m) {
      HostSeesTheSame(m);
    }
    HostSeesTheSame(tail);
    MessageStream.HostCodecIsStable();
    AllGenuine(MessageStream.HostCodec, messages);
    ConsumeFramed(MessageStream.HostCodec, processed, messages, tail);
  }

  /** The host hands on every message, or fewer. */
  lemma {:induction false} HostTakesFewer(processed: seq<Data>, messages: seq<Data>, tail: Data)
    requires forall m | m in messages :: Framed(ScriptCodec, m)
    requires FirstMessage(tail).None? && !AllAccepted(messages)
    ensures |Consume(MessageStream.HostCodec, processed, Flatten(messages) + tail).0| < |processed| + |messages|
    decreases |messages|
  {
    var m, more := messages[0], Flatten(messages[1..]) + tail;
    assert Flatten(messages) + tail == m + more;
    if !(MessageStream.Preamble() <= m) {
      HostStops(processed, m, more);
    } else {
      var next := processed + Kept(MessageStream.HostCodec, m);
      HostTakes(processed, m, more);
      if AllAccepted(messages[1..]) {
        HostTakesAll(next, messages[1..], tail);
      } else {
        HostTakesFewer(next, messages[1..], tail);
      }
    }
  }

  /** For a stream of messages that the script can cut, whatever their magic numbers, versions and
      checksums: the script returns them all, and the host agrees with it if and only if every one
      of them has the right magic number and version and the right checksum. */
  lemma ScriptAgreesExactly(messages: seq<Data>, last: Data, k: nat, segments: seq<Data>)
    requires forall m | m in messages :: Framed(ScriptCodec, m)
    requires Framed(ScriptCodec, last) && k < |last|
    requires Flatten(segments) == Flatten(messages) + last[..k]
    ensures ConsumeAll(ScriptCodec, [], [], segments) == (messages, last[..k])
    ensures ConsumeAll(MessageStream.HostCodec, [], [], segments) == ConsumeAll(ScriptCodec, [], [], segments)
      <==> forall m | m in messages :: Accepted(m)
  {
    ScriptReads(messages, last, k, segments);
    MessageStream.HostIsIncremental(segments);
    AllAcceptedMeans(messages);
    if AllAccepted(messages) {
      HostTakesAll([], messages, last[..k]);
      assert [] + messages == messages;
    } else {
      HostTakesFewer([], messages, last[..k]);
    }
  }

  lemma ScriptReads(messages: seq<Data>, last: Data, k: nat, segments: seq<Data>)
    requires forall m | m in messages :: Framed(ScriptCodec, m)
    requires Framed(ScriptCodec, last) && k < |last|
    requires Flatten(segments) == Flatten(messages) + last[..k]
    ensures ConsumeAll(ScriptCodec, [], [], segments) == (messages, last[..k]) && FirstMessage(last[..k]).None?
  {
    ScriptCodecIsStable();
    PrefixIsPartial(ScriptCodec, last, k);
    ConsumeFramed(ScriptCodec, [], messages, last[..k]);
    AllGenuine(ScriptCodec, messages);
    IncrementalIsBatch(ScriptCodec, [], [], segments);
    assert [] + Flatten(segments) == Flatten(segments) && [] + messages == messages;
  }

  /** In particular for messages that the host sees as such: with correct checksums, cut in any
      way, the script finds exactly the messages that the host hands on, and keeps the same
      incomplete rest. */
  lemma ScriptReadsWhatTheHostReads(messages: seq<Data>, last: Data, k: nat, segments: seq<Data>)
    requires forall m | m in messages :: MessageStream.FirstMessage(m) == Some(|m|) && MessageStream.Verifies(m)
    requires MessageStream.FirstMessage(last) == Some(|last|) && k < |last|
    requires Flatten(segments) == Flatten(messages) + last[..k]
    ensures ConsumeAll(ScriptCodec, [], [], segments) == (messages, last[..k])
    ensures ConsumeAll(MessageStream.HostCodec, [], [], segments) == (messages, last[..k])
  {
    forall m | m in messages ensures Framed(ScriptCodec, m) && Accepted(m) {
      HostSeesTheSame(m);
    }
    HostSeesTheSame(last);
    ScriptAgreesExactly(messages, last, k, segments);
  }

  lemma HeaderComesBack(kind: nat, length: nat, timestamp: nat, sidLen: nat, rest: Data)
    requires kind < TWO_32 && length < TWO_32 && timestamp < TWO_64 && sidLen < TWO_32
    ensures ParseHeader(MessageStream.Head(kind, length, timestamp, sidLen) + rest)
         == Some(Header(MessageStream.MAGIC, MessageStream.PROTOCOL_VERSION, kind, length, sidLen))
  {
    var head := MessageStream.Head(kind, length, timestamp, sidLen);
    SameHeader(head, head + rest);
    BE32RoundTrip(MessageStream.MAGIC);
    BE32RoundTrip(MessageStream.PROTOCOL_VERSION);
    BE32RoundTrip(kind);
    BE32RoundTrip(length);
    BE32RoundTrip(sidLen);
  }

  lemma PayloadAt(head: Data, sessionId: Data, payload: Data, sum: Data)
    ensures
      var message := head + sessionId + payload + sum;
      message == head + (sessionId + payload + sum)
      && message[|head| + |sessionId|..|head| + |sessionId| + |payload|] == payload
  {
  }

  /** What the script encodes it unpacks again: every field of the header, and the payload. */
  lemma UnpackInvertsEncode(kind: nat, payload: Data, timestamp: nat, sessionId: Data)
    requires kind < TWO_32 && timestamp < TWO_64 && |payload| < TWO_32 && |sessionId| < TWO_32
    ensures
      var message := MessageStream.Encode(kind, payload, timestamp, sessionId);
      && FirstMessage(message) == Some(|message|)
      && Unpack(message)
         == (Header(MessageStream.MAGIC, MessageStream.PROTOCOL_VERSION, kind, |payload|, |sessionId|), payload)
  {
    MessageStream.BodyParts(kind, payload, timestamp, sessionId);
    var head := MessageStream.Head(kind, |payload|, timestamp, |sessionId|);
    var sum := BE32(Checksum.Sum(MessageStream.Body(kind, payload, timestamp, sessionId)));
    PayloadAt(head, sessionId, payload, sum);
    HeaderComesBack(kind, |payload|, timestamp, |sessionId|, sessionId + payload + sum);
  }
}
