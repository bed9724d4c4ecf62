/**
 Cutting a byte stream into messages, for any rule that finds the complete message at the front
 of a buffer.
 */
module Framing {
  import opened Bytes
  import opened Options
  import opened Sequences

  /** `first` is the size of the complete message at the front of a buffer, and `genuine` says
      which messages are handed on. */
  datatype Codec = Codec(first: Data -> Option<nat>, genuine: Data -> bool)

  /** A complete message stays the first message when more bytes arrive. */
  ghost predicate Stable(c: Codec) {
    forall a, b {:trigger c.first(a), c.first(b)} :: c.first(a).Some? && a <= b ==> c.first(b) == c.first(a)
  }

  predicate Complete(c: Codec, buffer: Data) {
    c.first(buffer).Some? && 0 < c.first(buffer).value <= |buffer|
  }

  function Kept(c: Codec, message: Data): seq<Data> {
    if c.genuine(message) then [message] else []
  }

  /** Handing on all complete genuine messages at the front of the buffer: the messages handed on
      altogether, and the bytes kept. */
  function Consume(c: Codec, processed: seq<Data>, buffer: Data): (seq<Data>, Data)
    decreases |buffer|
  {
    if !Complete(c, buffer) then (processed, buffer) else
      var size := c.first(buffer).value;
      Consume(c, processed + Kept(c, buffer[..size]), buffer[size..])
  }

  lemma {:induction false} ConsumeSplits(c: Codec, processed: seq<Data>, a: Data, b: Data)
    requires Stable(c)
    ensures
      var (first, rest) := Consume(c, processed, a);
      Consume(c, processed, a + b) == Consume(c, first, rest + b)
    decreases |a|
  {
    if Complete(c, a) {
      var size := c.first(a).value;
      assert c.first(a + b) == c.first(a);
      assert (a + b)[..size] == a[..size] && (a + b)[size..] == a[size..] + b;
      ConsumeSplits(c, processed + Kept(c, a[..size]), a[size..], b);
    }
  }

  /** What has been handed on, and what is kept, after the given reads. */
  function ConsumeAll(c: Codec, processed: seq<Data>, buffer: Data, segments: seq<Data>): (seq<Data>, Data)
    decreases |segments|
  {
    if segments == [] then (processed, buffer)
    else
      var (messages, rest) := Consume(c, processed, buffer + segments[0]);
      ConsumeAll(c, messages, rest, segments[1..])
  }

  /** Any bytes, cut in any way, give the messages and the rest of a single read. */
  lemma {:induction false} IncrementalIsBatch(c: Codec, processed: seq<Data>, buffer: Data, segments: seq<Data>)
    requires Stable(c) && !Complete(c, buffer)
    ensures ConsumeAll(c, processed, buffer, segments) == Consume(c, processed, buffer + Flatten(segments))
    decreases |segments|
  {
    if segments == [] {
      assert buffer + Flatten(segments) == buffer;
    } else {
      var r, more := segments[0], Flatten(segments[1..]);
      assert buffer + Flatten(segments) == (buffer + r) + more;
      ConsumeSplits(c, processed, buffer + r, more);
      RestIsPartial(c, processed, buffer + r);
      var (messages, rest) := Consume(c, processed, buffer + r);
      IncrementalIsBatch(c, messages, rest, segments[1..]);
    }
  }

  lemma {:induction false} RestIsPartial(c: Codec, processed: seq<Data>, buffer: Data)
    ensures !Complete(c, Consume(c, processed, buffer).1)
    decreases |buffer|
  {
    if Complete(c, buffer) {
      var size := c.first(buffer).value;
      RestIsPartial(c, processed + Kept(c, buffer[..size]), buffer[size..]);
    }
  }

  /** `message` is exactly one message; it may not be genuine. */
  predicate Framed(c: Codec, message: Data) {
    message != [] && c.first(message) == Some(|message|)
  }

  function Genuine(c: Codec, messages: seq<Data>): seq<Data> {
    if messages == [] then [] else Kept(c, messages[0]) + Genuine(c, messages[1..])
  }

  lemma {:induction false} AllGenuine(c: Codec, messages: seq<Data>)
    requires forall m | m in messages :: c.genuine(m)
    ensures Genuine(c, messages) == messages
  {
    if messages != [] {
      assert c.genuine(messages[0]);
      AllGenuine(c, messages[1..]);
    }
  }

  lemma ConsumeNext(c: Codec, processed: seq<Data>, m: Data, more: Data)
    requires Stable(c) && Framed(c, m)
    ensures Consume(c, processed, m + more) == Consume(c, processed + Kept(c, m), more)
  {
    assert m <= m + more && c.first(m + more) == c.first(m);
    assert (m + more)[..|m|] == m && (m + more)[|m|..] == more;
  }

  lemma {:induction false} ConsumeFramed(c: Codec, processed: seq<Data>, messages: seq<Data>, tail: Data)
    requires Stable(c)
    requires forall m | m in messages :: Framed(c, m)
    requires !Complete(c, tail)
    ensures Consume(c, processed, Flatten(messages) + tail) == (processed + Genuine(c, messages), tail)
    decreases |messages|
  {
    if messages == [] {
      assert Flatten(messages) + tail == tail;
      assert processed + Genuine(c, messages) == processed;
    } else {
      var m := messages[0];
      assert Framed(c, m);
      assert Flatten(messages) + tail == m + (Flatten(messages[1..]) + tail);
      ConsumeNext(c, processed, m, Flatten(messages[1..]) + tail);
      ConsumeFramed(c, processed + Kept(c, m), messages[1..], tail);
      Associate(processed, Kept(c, m), Genuine(c, messages[1..]));
    }
  }

  lemma PrefixIsPartial(c: Codec, message: Data, k: nat)
    requires Stable(c) && Framed(c, message) && k < |message|
    ensures !Complete(c, message[..k])
  {
    assert message[..k] <= message;
  }
}
