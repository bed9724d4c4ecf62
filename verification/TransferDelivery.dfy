/**
 Delivery: the data frames of a file may be cut into reads anywhere, and the receiver ends up
 in the state that the frames themselves determine.
 */
module TransferDelivery {
  import opened Bytes
  import opened Options
  import opened TransferWire
  import opened Receiver

  function WithBuffer(s: State, buffer: Data): State
    requires s.live.Some?
  {
    s.(live := Some(s.live.value.(buffer := buffer)))
  }

  /** Frame `n` carries `chunk` in a form the receiver of `l` takes and commits. */
  predicate Acceptable(c: Crypto, l: Context, n: nat, chunk: Data) {
    var payload := Payload(c, l.offer.encrypted, n, chunk);
    && l.received < l.offer.total
    && chunk != []
    && |payload| < TWO_31 - 4
    && (l.offer.encrypted ==> SEAL_MIN <= |payload| && c.open(payload) == chunk)
    && (l.chunkIndex < |l.offer.digests| ==> c.hash(chunk) == l.offer.digests[l.chunkIndex])
  }

  /** `chunks` are exactly the chunks still to be committed, and their frames start at `n`. */
  predicate Expects(c: Crypto, s: State, n: nat, chunks: seq<Data>)
    requires s.live.Some?
    decreases |chunks|
  {
    if chunks == [] then s.live.value.offer.total <= s.live.value.received
    else Acceptable(c, s.live.value, n, chunks[0]) && Expects(c, Commit(s, chunks[0], []), n + 1, chunks[1..])
  }

  function NextFrame(c: Crypto, s: State, n: nat, chunks: seq<Data>): Data
    requires s.live.Some? && chunks != []
  {
    Frame(Payload(c, s.live.value.offer.encrypted, n, chunks[0]))
  }

  function Frames(c: Crypto, s: State, n: nat, chunks: seq<Data>): Data
    requires s.live.Some?
  {
    Stream(c, s.live.value.offer.encrypted, n, chunks)
  }

  /** What the frames say, without any byte stream: every chunk whose frame has arrived in full
      is committed, and the bytes of the next frame wait in the buffer. */
  function Delivered(c: Crypto, s: State, n: nat, chunks: seq<Data>, arrived: Data): (r: State)
    requires s.live.Some?
    ensures r.live.Some?
    decreases |chunks|
  {
    if chunks == [] || |arrived| < |NextFrame(c, s, n, chunks)| then WithBuffer(s, arrived)
    else Delivered(c, Commit(s, chunks[0], []), n + 1, chunks[1..], arrived[|NextFrame(c, s, n, chunks)|..])
  }

  /** The buffer holds less than the next frame. */
  predicate Partial(c: Crypto, s: State, n: nat, chunks: seq<Data>)
    requires s.live.Some?
  {
    var buffer := s.live.value.buffer;
    if chunks == [] then buffer == [] else |buffer| < |NextFrame(c, s, n, chunks)|
  }

  /** A complete expected frame at the front of the buffer is consumed and committed. */
  lemma IterateExpected(c: Crypto, s: State, n: nat, chunk: Data, tail: Data)
    requires s.live.Some? && Acceptable(c, s.live.value, n, chunk)
    requires |Frame(Payload(c, s.live.value.offer.encrypted, n, chunk)) + tail| < TWO_32
    ensures
      var s' := WithBuffer(s, Frame(Payload(c, s.live.value.offer.encrypted, n, chunk)) + tail);
      Iterate(c, s') == Again(WithBuffer(Commit(s, chunk, []), tail))
  {
    var payload := Payload(c, s.live.value.offer.encrypted, n, chunk);
    TakeWhole(payload, tail);
    assert Commit(WithBuffer(s, Frame(payload) + tail), chunk, tail)
        == WithBuffer(Commit(s, chunk, []), tail);
  }

  /** One read that brings the buffer to `arrived` leaves what the frames say. */
  lemma {:induction false} DrainDelivers(c: Crypto, s: State, n: nat, chunks: seq<Data>, arrived: Data)
    requires s.live.Some? && Expects(c, s, n, chunks)
    requires arrived <= Frames(c, s, n, chunks) && |arrived| < TWO_32
    ensures Drain(c, WithBuffer(s, arrived)) == (Delivered(c, s, n, chunks, arrived), Waiting)
    decreases |chunks|
  {
    if chunks != [] {
      var payload := Payload(c, s.live.value.offer.encrypted, n, chunks[0]);
      var frame := Frame(payload);
      if |arrived| < |frame| {
        assert arrived <= frame;
        TakePartial(payload, arrived);
      } else {
        var tail := arrived[|frame|..];
        assert arrived == frame + tail;
        IterateExpected(c, s, n, chunks[0], tail);
        DrainDelivers(c, Commit(s, chunks[0], []), n + 1, chunks[1..], tail);
      }
    }
  }

  /** What has been delivered so far is a state from which the rest can be delivered. */
  lemma {:induction false} DeliveredSplits(c: Crypto, s: State, n: nat, chunks: seq<Data>, arrived: Data, more: Data)
      returns (n': nat, chunks': seq<Data>)
    requires s.live.Some? && Expects(c, s, n, chunks)
    requires arrived + more <= Frames(c, s, n, chunks)
    ensures
      var s' := Delivered(c, s, n, chunks, arrived);
      var pending := s'.live.value.buffer + more;
      && Expects(c, s', n', chunks') && Partial(c, s', n', chunks')
      && pending <= Frames(c, s', n', chunks')
      && (arrived + more == Frames(c, s, n, chunks) ==> pending == Frames(c, s', n', chunks'))
      && Delivered(c, s, n, chunks, arrived + more) == Delivered(c, s', n', chunks', pending)
    decreases |chunks|
  {
    n', chunks' := n, chunks;
    if chunks == [] {
      assert arrived == [] && more == [];
    } else {
      var frame := NextFrame(c, s, n, chunks);
      if |arrived| < |frame| {
        BufferIsFree(c, s, n, chunks, arrived, arrived + more);
      } else {
        var tail := arrived[|frame|..];
        assert (arrived + more)[|frame|..] == tail + more;
        n', chunks' := DeliveredSplits(c, Commit(s, chunks[0], []), n + 1, chunks[1..], tail, more);
      }
    }
  }

  /** The buffered bytes are the caller's business: the frames decide the rest. */
  lemma BufferIsFree(c: Crypto, s: State, n: nat, chunks: seq<Data>, buffer: Data, arrived: Data)
    requires s.live.Some?
    ensures Delivered(c, s, n, chunks, arrived) == Delivered(c, WithBuffer(s, buffer), n, chunks, arrived)
    ensures Expects(c, s, n, chunks) == Expects(c, WithBuffer(s, buffer), n, chunks)
  {
    if chunks != [] {
      assert Commit(s, chunks[0], []) == Commit(WithBuffer(s, buffer), chunks[0], []);
    }
  }

  function ReceiveAll(c: Crypto, s: State, segments: seq<Data>): State
    decreases |segments|
  {
    if segments == [] then s else ReceiveAll(c, Receive(c, s, segments[0]).0, segments[1..])
  }

  /** Segmentation independence: any way of cutting a prefix of the frame stream into reads
      leaves the same file, bookmark, counters and residual buffer. */
  lemma {:induction false} SegmentationIndependence(c: Crypto, s: State, n: nat, chunks: seq<Data>, segments: seq<Data>)
    requires s.live.Some? && Expects(c, s, n, chunks) && Partial(c, s, n, chunks)
    requires s.live.value.buffer + Flatten(segments) <= Frames(c, s, n, chunks)
    requires forall r | r in segments :: |r| < TWO_31
    ensures ReceiveAll(c, s, segments) == Delivered(c, s, n, chunks, s.live.value.buffer + Flatten(segments))
    decreases |segments|
  {
    var buffer := s.live.value.buffer;
    if segments == [] {
      assert buffer + Flatten(segments) == buffer;
    } else {
      var r, more := segments[0], Flatten(segments[1..]);
      assert r in segments;
      assert buffer + Flatten(segments) == (buffer + r) + more;
      assert buffer + r <= Frames(c, s, n, chunks);
      DrainDelivers(c, s, n, chunks, buffer + r);
      var n', chunks' := DeliveredSplits(c, s, n, chunks, buffer + r, more);
      SegmentationIndependence(c, Receive(c, s, r).0, n', chunks', segments[1..]);
    }
  }
}
