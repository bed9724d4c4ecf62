/**
 Both ends together: an offer that is accepted and then carried through leaves the target equal to
 the source, after any history of drops, restarts, corrupted bytes and other transfers, provided
 what the bookmark resumes onto is right.
 */
module TransferEndToEnd {
  import opened Bytes
  import opened Sequences
  import opened Options
  import opened TransferWire
  import opened Receiver
  import opened Downloads
  import opened TransferSafety
  import opened TransferDelivery
  import Sender

  /** The chunks the receiver lacks. */
  function Missing(source: Data, size: nat, l: Context): seq<Data>
    requires 0 < size && l.received <= |source|
  {
    Chunks(source[l.received..], size)
  }

  /** The receiver can be sent the rest of `source`. */
  ghost predicate Resumable(c: Crypto, size: nat, source: Data, s: State)
    requires 0 < size
  {
    && CollisionFree(c) && s.live.Some? && Aligned(c, size, source, s.mark, s.live)
    && (s.live.value.offer.encrypted ==> Opens(c))
  }

  /** The first chunk the receiver lacks is acceptable, and committing it leaves the others. */
  lemma NextChunkAcceptable(c: Crypto, size: nat, source: Data, s: State, n: nat)
    requires 0 < size < TWO_31 - SEAL_MAX - 4
    requires Resumable(c, size, source, s) && s.live.value.received < |source|
    ensures
      var l := s.live.value;
      var chunks := Missing(source, size, l);
      && chunks != [] && Acceptable(c, l, n, chunks[0])
      && l.received + |chunks[0]| <= |source| && chunks[0] == source[l.received..l.received + |chunks[0]|]
      && var next := Commit(s, chunks[0], []);
      && Resumable(c, size, source, next)
      && l.received < next.live.value.received <= |source|
      && chunks[1..] == Missing(source, size, next.live.value)
  {
    var l := s.live.value;
    Sender.FirstChunk(source, l.received, size);
    var chunk := Missing(source, size, l)[0];
    assert chunk == source[l.received..][..ReadSize(|source| - l.received, size)];
    assert l.offer.digests[l.chunkIndex..][0] == c.hash(chunk);
    CommitKeeps(c, size, source, s, chunk, []);
  }

  lemma DeliveredStep(c: Crypto, s: State, n: nat, chunks: seq<Data>)
    requires s.live.Some? && chunks != []
    ensures
      var next := Commit(s, chunks[0], []);
      Delivered(c, s, n, chunks, Frames(c, s, n, chunks))
      == Delivered(c, next, n + 1, chunks[1..], Frames(c, next, n + 1, chunks[1..]))
  {
    var frame, rest := NextFrame(c, s, n, chunks), Frames(c, Commit(s, chunks[0], []), n + 1, chunks[1..]);
    assert Frames(c, s, n, chunks) == frame + rest;
    assert (frame + rest)[|frame|..] == rest;
  }

  /** The target when everything from `pos` on has been written. */
  function Overwritten(disk: Data, source: Data, pos: nat): Data
    requires pos <= |source|
  {
    WriteAt(disk, pos, source[pos..])
  }

  /** What a write leaves in front of it, a gap being filled with zeros, and behind it. */
  function Front(disk: Data, pos: nat): (r: Data)
    ensures |r| == pos
  {
    if pos <= |disk| then disk[..pos] else disk + Zeros(pos - |disk|)
  }

  function Back(disk: Data, pos: nat): Data {
    if pos <= |disk| then disk[pos..] else []
  }

  lemma WriteParts(disk: Data, pos: nat, data: Data)
    requires data != []
    ensures WriteAt(disk, pos, data) == Front(disk, pos) + data + Back(disk, pos + |data|)
  {
  }

  lemma PartsOfWritten(disk: Data, pos: nat, data: Data, end: nat)
    requires data != [] && pos + |data| <= end
    ensures Front(WriteAt(disk, pos, data), pos + |data|) == Front(disk, pos) + data
    ensures Back(WriteAt(disk, pos, data), end) == Back(disk, end)
  {
    WriteParts(disk, pos, data);
    BackOfParts(Front(disk, pos) + data, disk, end);
  }

  lemma BackOfParts(front: Data, disk: Data, end: nat)
    requires |front| <= end
    ensures Back(front + Back(disk, |front|), end) == Back(disk, end)
  {
  }

  lemma WriteTwice(disk: Data, pos: nat, first: Data, second: Data)
    ensures WriteAt(WriteAt(disk, pos, first), pos + |first|, second) == WriteAt(disk, pos, first + second)
  {
    if first == [] {
      assert first + second == second;
    } else if second == [] {
      assert first + second == first;
    } else {
      PartsOfWritten(disk, pos, first, pos + |first| + |second|);
      WriteParts(WriteAt(disk, pos, first), pos + |first|, second);
      WriteParts(disk, pos, first + second);
      Associate(Front(disk, pos), first, second);
    }
  }

  lemma OverwriteStep(disk: Data, source: Data, pos: nat, next: nat, chunk: Data)
    requires pos <= next <= |source| && chunk == source[pos..next]
    ensures Overwritten(WriteAt(disk, pos, chunk), source, next) == Overwritten(disk, source, pos)
  {
    SplitAt(source, pos, next);
    WriteTwice(disk, pos, chunk, source[next..]);
  }

  lemma SplitAt(source: Data, pos: nat, next: nat)
    requires pos <= next <= |source|
    ensures source[pos..next] + source[next..] == source[pos..] && pos + |source[pos..next]| == next
  {
  }

  /** The receiver has everything and holds no stray byte. */
  predicate Complete(source: Data, l: Context) {
    l.received == |source| && l.buffer == []
  }

  /** What the frames of the rest leave behind. */
  predicate Delivers(c: Crypto, source: Data, s: State, n: nat, chunks: seq<Data>)
    requires s.live.Some? && s.live.value.received <= |source|
  {
    var done := Delivered(c, s, n, chunks, Frames(c, s, n, chunks));
    Complete(source, done.live.value) && done.disk == Overwritten(s.disk, source, s.live.value.received)
  }

  lemma OneMoreIsDelivered(c: Crypto, source: Data, s: State, n: nat, chunks: seq<Data>)
    requires s.live.Some? && chunks != [] && s.live.value.pos == s.live.value.received
    requires s.live.value.received + |chunks[0]| <= |source|
    requires chunks[0] == source[s.live.value.received..s.live.value.received + |chunks[0]|]
    requires Delivers(c, source, Commit(s, chunks[0], []), n + 1, chunks[1..])
    ensures Delivers(c, source, s, n, chunks)
  {
    var received := s.live.value.received;
    DeliveredStep(c, s, n, chunks);
    OverwriteStep(s.disk, source, received, received + |chunks[0]|, chunks[0]);
  }

  lemma {:induction false} RestIsDelivered(c: Crypto, size: nat, source: Data, s: State, n: nat)
    requires 0 < size < TWO_31 - SEAL_MAX - 4
    requires Resumable(c, size, source, s)
    ensures Expects(c, s, n, Missing(source, size, s.live.value))
    ensures Delivers(c, source, s, n, Missing(source, size, s.live.value))
    decreases |source| - s.live.value.received
  {
    if s.live.value.received < |source| {
      NextChunkAcceptable(c, size, source, s, n);
      var chunks := Missing(source, size, s.live.value);
      RestIsDelivered(c, size, source, Commit(s, chunks[0], []), n + 1);
      OneMoreIsDelivered(c, source, s, n, chunks);
    }
  }

  function Segments(id: Id, parts: seq<Data>): seq<Event> {
    seq(|parts|, i requires 0 <= i < |parts| => Segment(id, parts[i]))
  }

  lemma {:induction false} RunSegments(c: Crypto, size: nat, events: seq<Event>, id: Id, path: Path, parts: seq<Data>)
    requires 0 < size
    requires var t := Run(c, size, events); id in t.live ==> t.live[id].path == path
    ensures
      var t, t' := Run(c, size, events), Run(c, size, events + Segments(id, parts));
      && View(t', id, path) == ReceiveAll(c, View(t, id, path), parts)
      && (id in t'.live ==> t'.live[id].path == path)
    decreases |parts|
  {
    if parts == [] {
      assert events + Segments(id, parts) == events;
    } else {
      var first := events + [Segment(id, parts[0])];
      assert events + Segments(id, parts) == first + Segments(id, parts[1..]);
      assert first[..|first| - 1] == events;
      RunSegments(c, size, first, id, path, parts[1..]);
    }
  }

  // ---- Carrying a transfer through ----

  /** The target is right for a transfer that begins at `offset`: fresh transfers always are; with
      everything received already the target has to be the source, and otherwise its bytes in front
      of the offset, a gap counting as zeros, have to be the source's, and none may stand behind
      the source's end. */
  predicate RightStart(disk: Data, source: Data, offset: nat)
    requires offset <= |source|
  {
    offset == 0 ||
    if offset == |source| then disk == source
    else |disk| <= |source| && source[..offset] == Front(disk, offset)
  }

  /** What a finished transfer leaves is the source exactly when it began right. */
  lemma OverwrittenIsSource(disk: Data, source: Data, offset: nat)
    requires offset <= |source|
    ensures Overwritten(if offset == 0 then [] else disk, source, offset) == source <==> RightStart(disk, source, offset)
  {
    var after := Overwritten(if offset == 0 then [] else disk, source, offset);
    if offset == 0 {
      assert after == source[0..] == source;
    } else if offset < |source| {
      var front := Front(disk, offset);
      WriteParts(disk, offset, source[offset..]);
      assert after[..offset] == front;
      assert source == source[..offset] + source[offset..];
      assert |disk| <= |source| ==> after == front + source[offset..];
      assert |source| < |disk| ==> |after| == |disk|;
    }
  }

  /** The offer is accepted, and the sender runs to its end; the reads cut what it sent in any way. */
  predicate CarriedThrough(c: Crypto, size: nat, source: Data, encrypted: bool, offset: nat,
                           header: nat, acks: seq<nat>, parts: seq<Data>)
    requires 0 < size
  {
    var j := Sender.Job(c, source, encrypted, size);
    && Sender.Honest(j, offset, header, acks)
    && Sender.Schedule(j, offset, acks).finished
    && Flatten(parts) == Sender.Schedule(j, offset, acks).wire
    && forall part | part in parts :: |part| < TWO_31
  }

  /** The offset announced when `source` is accepted after `events`. */
  function Announced(c: Crypto, size: nat, events: seq<Event>, id: Id, source: Data, encrypted: bool): nat
    requires 0 < size
  {
    ResumeOffset(Mark(Run(c, size, events), id), OfferFor(c, source, size, encrypted))
  }

  lemma ViewOfAccepted(c: Crypto, size: nat, events: seq<Event>, id: Id, path: Path, source: Data, encrypted: bool)
    requires 0 < size && CollisionFree(c)
    ensures
      var t := Run(c, size, events + [Offered(id, path, source, encrypted)]);
      var s := Accept(View(Run(c, size, events), id, path), OfferFor(c, source, size, encrypted));
      && View(t, id, path) == s && id in t.live && t.live[id].path == path
      && Aligned(c, size, source, s.mark, s.live) && Announced(c, size, events, id, source, encrypted) <= |source|
  {
    var t := Run(c, size, events);
    RunIsAligned(c, size, events, id);
    AcceptKeeps(c, size, LastOffered(events, id), View(t, id, path), source, encrypted);
    assert (events + [Offered(id, path, source, encrypted)])[..|events|] == events;
  }

  /** End to end, after any history at all, of this transfer and of others: an accepted offer whose
      sender runs to its end is received completely, and leaves exactly the source on disk if and
      only if the target was right for the announced offset when the offer was accepted. */
  lemma CompletesExactly(c: Crypto, size: nat, events: seq<Event>, id: Id, path: Path, source: Data, encrypted: bool,
                         header: nat, acks: seq<nat>, parts: seq<Data>)
    requires 0 < size < TWO_31 - SEAL_MAX - 4
    requires CollisionFree(c) && (encrypted ==> Opens(c))
    requires CarriedThrough(c, size, source, encrypted, Announced(c, size, events, id, source, encrypted), header, acks, parts)
    ensures
      var offset := Announced(c, size, events, id, source, encrypted);
      var t := Run(c, size, events + [Offered(id, path, source, encrypted)] + Segments(id, parts));
      && offset <= |source|
      && id in t.live && t.live[id].path == path && Complete(source, t.live[id].context)
      && (Disk(t, path) == source <==> RightStart(Disk(Run(c, size, events), path), source, offset))
  {
    var offset := Announced(c, size, events, id, source, encrypted);
    var history := events + [Offered(id, path, source, encrypted)];
    ViewOfAccepted(c, size, events, id, path, source, encrypted);
    var s := View(Run(c, size, history), id, path);
    DeliveredByReads(c, size, source, encrypted, s, header, acks, parts);
    RunSegments(c, size, history, id, path, parts);
    OverwrittenIsSource(Disk(Run(c, size, events), path), source, offset);
  }

  lemma DeliveredByReads(c: Crypto, size: nat, source: Data, encrypted: bool, s: State,
                         header: nat, acks: seq<nat>, parts: seq<Data>)
    requires 0 < size < TWO_31 - SEAL_MAX - 4
    requires Resumable(c, size, source, s)
    requires s.live.value.buffer == [] && s.live.value.offer.encrypted == encrypted
    requires CarriedThrough(c, size, source, encrypted, s.live.value.received, header, acks, parts)
    ensures
      var done := ReceiveAll(c, s, parts);
      && done.live.Some? && Complete(source, done.live.value)
      && done.disk == Overwritten(s.disk, source, s.live.value.received)
  {
    var j, offset := Sender.Job(c, source, encrypted, size), s.live.value.received;
    RestIsDelivered(c, size, source, s, 0);
    Sender.WindowedSending(j, offset, header, acks);
    var chunks := Missing(source, size, s.live.value);
    assert s.live.value.buffer + Flatten(parts) == Frames(c, s, 0, chunks);
    SegmentationIndependence(c, s, 0, chunks, parts);
  }

  /** In particular it does when no other transfer meddled with the target since the file was first
      accepted onto it, or when the transfer begins anew. */
  lemma AcceptedTransferCompletes(c: Crypto, size: nat, events: seq<Event>, id: Id, path: Path, source: Data,
                                  encrypted: bool, header: nat, acks: seq<nat>, parts: seq<Data>)
    requires 0 < size < TWO_31 - SEAL_MAX - 4
    requires CollisionFree(c) && (encrypted ==> Opens(c))
    requires CarriedThrough(c, size, source, encrypted, Announced(c, size, events, id, source, encrypted), header, acks, parts)
    requires Intact(c, size, events, id, path) || Announced(c, size, events, id, source, encrypted) == 0
    ensures Disk(Run(c, size, events + [Offered(id, path, source, encrypted)] + Segments(id, parts)), path) == source
  {
    var t, offset := Run(c, size, events), Announced(c, size, events, id, source, encrypted);
    CompletesExactly(c, size, events, id, path, source, encrypted, header, acks, parts);
    if offset != 0 {
      RunIsAligned(c, size, events, id);
      RunIsOnDisk(c, size, events, id, path);
      AcceptKeeps(c, size, LastOffered(events, id), View(t, id, path), source, encrypted);
      PrefixesHold(Disk(t, path), source);
    }
  }

  // ---- What goes wrong ----

  lemma RunOne(c: Crypto, size: nat, events: seq<Event>, e: Event)
    requires 0 < size
    ensures Run(c, size, events + [e]) == Apply(c, size, Run(c, size, events), e)
  {
    assert (events + [e])[..|events|] == events;
  }

  lemma RunThree(c: Crypto, size: nat, events: seq<Event>, e: Event, f: Event, g: Event)
    requires 0 < size
    ensures Run(c, size, events + [e, f, g])
         == Apply(c, size, Apply(c, size, Apply(c, size, Run(c, size, events), e), f), g)
  {
    RunOne(c, size, events, e);
    RunOne(c, size, events + [e], f);
    RunOne(c, size, events + [e] + [f], g);
    assert events + [e] + [f] + [g] == events + [e, f, g];
  }

  /** A fresh plain accept and the first chunk: the chunk is on disk, and the bookmark behind it. */
  lemma FirstChunkArrives(c: Crypto, size: nat, t: Table, id: Id, path: Path, source: Data)
    requires 0 < size < TWO_31 - 4 && size < |source| && id !in t.marks
    ensures
      var accepted := AfterAccept(t, id, path, OfferFor(c, source, size, false));
      var after := AfterData(c, accepted, id, Frame(source[..size])).0;
      Disk(after, path) == source[..size] && after.marks == t.marks[id := Bookmark(|source|, c.hash(source), size)]
  {
    var offer := OfferFor(c, source, size, false);
    var accepted := AfterAccept(t, id, path, offer);
    assert Accept(View(t, id, path), offer) == Accept(Untouched, offer);
    ViewOfPut(t, id, path, Accept(Untouched, offer));
    FirstChunkIsCommitted(c, size, View(accepted, id, path), source);
  }

  lemma FirstChunkIsCommitted(c: Crypto, size: nat, s: State, source: Data)
    requires 0 < size < TWO_31 - 4 && size < |source| && s.live.Some?
    requires s == Accept(Untouched, OfferFor(c, source, size, false))
    ensures
      var next := Receive(c, s, Frame(source[..size])).0;
      next.disk == source[..size] && next.mark == Some(Bookmark(|source|, c.hash(source), size)) && next.live.Some?
  {
    var chunk := source[..size];
    assert Payload(c, false, 0, chunk) == chunk;
    assert Frame(chunk) + [] == Frame(chunk) == s.live.value.buffer + Frame(chunk);
    DigestsCons(c, source, size);
    IterateExpected(c, s, 0, chunk, []);
    var next := WithBuffer(Commit(s, chunk, []), []);
    assert TakeFrame(next.live.value.buffer).None?;
    assert Drain(c, next) == (next, Waiting);
  }

  /** The input: two files take turns on one target. The first resumes onto the second's bytes. */
  lemma TwoFilesOnOneTarget(c: Crypto, size: nat, a: Data, b: Data, idA: Id, idB: Id, path: Path)
    requires 0 < size < TWO_31 - 4 && size < |a| && size < |b| && idA != idB && CollisionFree(c)
    requires a[..size] != b[..size]
    ensures
      var events := [Offered(idA, path, a, false), Segment(idA, Frame(a[..size])), Restarted]
                  + [Offered(idB, path, b, false), Segment(idB, Frame(b[..size])), Restarted]
                  + [Offered(idA, path, a, false)];
      var t := Run(c, size, events);
      && idA in t.live && t.live[idA].path == path && t.live[idA].context.received == size
      && Disk(t, path) == b[..size] && !RightPrefix(Disk(t, path), a, size)
  {
    var first := [Offered(idA, path, a, false), Segment(idA, Frame(a[..size])), Restarted];
    var second := first + [Offered(idB, path, b, false), Segment(idB, Frame(b[..size])), Restarted];
    assert [] + first == first;
    RunThree(c, size, [], first[0], first[1], first[2]);
    FirstChunkArrives(c, size, NOTHING, idA, path, a);
    RunThree(c, size, first, second[3], second[4], second[5]);
    FirstChunkArrives(c, size, Run(c, size, first), idB, path, b);
    ViewOfAccepted(c, size, second, idA, path, a, false);
    assert b[..size][..size] == b[..size];
  }

  // ---- When a read of frames and a tail spins ----

  /** The frames of `chunks`, from frame `n` on, are committed one after the other. */
  predicate Accepts(c: Crypto, s: State, n: nat, chunks: seq<Data>)
    requires s.live.Some?
    decreases |chunks|
  {
    chunks == [] || (Acceptable(c, s.live.value, n, chunks[0]) && Accepts(c, Commit(s, chunks[0], []), n + 1, chunks[1..]))
  }

  function Committed(s: State, chunks: seq<Data>): (r: State)
    requires s.live.Some?
    ensures r.live.Some?
    decreases |chunks|
  {
    if chunks == [] then s else Committed(Commit(s, chunks[0], []), chunks[1..])
  }

  lemma {:induction false} FramesThenTail(c: Crypto, s: State, n: nat, chunks: seq<Data>, tail: Data)
    requires s.live.Some? && Accepts(c, s, n, chunks) && |Frames(c, s, n, chunks) + tail| < TWO_32
    ensures Drain(c, WithBuffer(s, Frames(c, s, n, chunks) + tail)) == Drain(c, WithBuffer(Committed(s, chunks), tail))
    decreases |chunks|
  {
    if chunks == [] {
      assert Frames(c, s, n, chunks) + tail == tail;
    } else {
      var next := Commit(s, chunks[0], []);
      var rest := Frames(c, next, n + 1, chunks[1..]);
      assert Frames(c, s, n, chunks) + tail == NextFrame(c, s, n, chunks) + (rest + tail);
      IterateExpected(c, s, n, chunks[0], rest + tail);
      FramesThenTail(c, next, n + 1, chunks[1..], tail);
    }
  }

  lemma {:induction false} CommittedIsAligned(c: Crypto, size: nat, source: Data, s: State, n: nat, chunks: seq<Data>)
    requires 0 < size && CollisionFree(c) && s.live.Some? && Accepts(c, s, n, chunks)
    requires Aligned(c, size, source, s.mark, s.live)
    ensures Aligned(c, size, source, Committed(s, chunks).mark, Committed(s, chunks).live)
    decreases |chunks|
  {
    if chunks != [] {
      CommitKeeps(c, size, source, s, chunks[0], []);
      CommittedIsAligned(c, size, source, Commit(s, chunks[0], []), n + 1, chunks[1..]);
    }
  }

  /** Told from the bytes before the read: a read that makes the buffer frames that are committed,
      and a tail with which the loop does not go on, spins if and only if chunks are still missing
      and the tail is a sealed transfer's prefix 2^32 - 4 with fewer than 28 bytes behind it. */
  lemma SpinsOnTail(c: Crypto, size: nat, source: Data, s: State, n: nat, chunks: seq<Data>, tail: Data, data: Data)
    requires 0 < size && CollisionFree(c) && s.live.Some? && Aligned(c, size, source, s.mark, s.live)
    requires Accepts(c, s, n, chunks) && s.live.value.buffer + data == Frames(c, s, n, chunks) + tail
    requires |s.live.value.buffer + data| < TWO_32
    requires
      var after := WithBuffer(Committed(s, chunks), tail);
      after.live.value.received < after.live.value.offer.total ==> !Iterate(c, after).Again?
    ensures Receive(c, s, data).1 == Hung <==> Spinning(WithBuffer(Committed(s, chunks), tail))
  {
    var after := WithBuffer(Committed(s, chunks), tail);
    FramesThenTail(c, s, n, chunks, tail);
    CommittedIsAligned(c, size, source, s, n, chunks);
    if after.live.value.received < |source| {
      SpinsExactly(c, size, source, after);
    }
  }

  // ---- What stands behind the frames ----

  /** Bytes behind the last data frame are handed on as a command, all of them, and are gone from
      the buffer. */
  lemma TrailerIsHandedOn(c: Crypto, s: State, n: nat, chunks: seq<Data>, tail: Data, data: Data)
    requires s.live.Some? && Accepts(c, s, n, chunks)
    requires s.live.value.buffer + data == Frames(c, s, n, chunks) + tail && |s.live.value.buffer + data| < TWO_32
    requires tail != [] && Committed(s, chunks).live.value.offer.total <= Committed(s, chunks).live.value.received
    ensures Receive(c, s, data) == (WithBuffer(Committed(s, chunks), []), Trailer(tail))
  {
    FramesThenTail(c, s, n, chunks, tail);
  }

  lemma {:induction false} ExpectedIsAccepted(c: Crypto, s: State, n: nat, chunks: seq<Data>)
    requires s.live.Some? && Expects(c, s, n, chunks)
    ensures Accepts(c, s, n, chunks)
    ensures Committed(s, chunks).live.value.offer.total <= Committed(s, chunks).live.value.received
    decreases |chunks|
  {
    if chunks != [] {
      ExpectedIsAccepted(c, Commit(s, chunks[0], []), n + 1, chunks[1..]);
    }
  }

  /** The command behind the frames arrives with the last of their bytes, or after them. */
  lemma LastReadHandsOn(c: Crypto, s: State, n: nat, chunks: seq<Data>, parts: seq<Data>, last: Data, tail: Data)
    requires s.live.Some? && s.live.value.buffer == [] && Expects(c, s, n, chunks)
    requires Flatten(parts) + last == Frames(c, s, n, chunks) && tail != []
    requires (forall part | part in parts :: |part| < TWO_31) && |last + tail| < TWO_31
    ensures Receive(c, ReceiveAll(c, s, parts), last + tail).1 == Trailer(tail)
  {
    var arrived := Flatten(parts);
    assert s.live.value.buffer + arrived == arrived <= arrived + last;
    assert Partial(c, s, n, chunks);
    SegmentationIndependence(c, s, n, chunks, parts);
    var n', chunks' := DeliveredSplits(c, s, n, chunks, arrived, last);
    var s' := Delivered(c, s, n, chunks, arrived);
    ExpectedIsAccepted(c, s', n', chunks');
    Associate(s'.live.value.buffer, last, tail);
    TrailerIsHandedOn(c, s', n', chunks', tail, last + tail);
  }

  /** After any history, and whatever the reads: the command that the sender writes behind its last
      frame, FILE_VERIFY, is handed on when it arrives in one read, with or without frame bytes in
      front of it. */
  lemma VerifyIsHandedOn(c: Crypto, size: nat, events: seq<Event>, id: Id, path: Path, source: Data, encrypted: bool,
                         header: nat, acks: seq<nat>, parts: seq<Data>, last: Data, tail: Data)
    requires 0 < size < TWO_31 - SEAL_MAX - 4
    requires CollisionFree(c) && (encrypted ==> Opens(c))
    requires CarriedThrough(c, size, source, encrypted, Announced(c, size, events, id, source, encrypted), header, acks, parts + [last])
    requires tail != [] && |last + tail| < TWO_31
    ensures
      var t := Run(c, size, events + [Offered(id, path, source, encrypted)] + Segments(id, parts));
      AfterData(c, t, id, last + tail).1 == Trailer(tail)
  {
    var history := events + [Offered(id, path, source, encrypted)];
    ViewOfAccepted(c, size, events, id, path, source, encrypted);
    var s := View(Run(c, size, history), id, path);
    var j, offset := Sender.Job(c, source, encrypted, size), s.live.value.received;
    RestIsDelivered(c, size, source, s, 0);
    Sender.WindowedSending(j, offset, header, acks);
    FlattenLast(parts, last);
    forall part | part in parts ensures |part| < TWO_31 {
      assert part in parts + [last];
    }
    LastReadHandsOn(c, s, 0, Missing(source, size, s.live.value), parts, last, tail);
    RunSegments(c, size, history, id, path, parts);
  }

  lemma {:induction false} FlattenLast(parts: seq<Data>, last: Data)
    ensures Flatten(parts + [last]) == Flatten(parts) + last
  {
    if parts == [] {
      assert [last][1..] == [] && parts + [last] == [last];
    } else {
      assert (parts + [last])[1..] == parts[1..] + [last];
      FlattenLast(parts[1..], last);
      Associate(parts[0], Flatten(parts[1..]), last);
    }
  }

  /** A chunk that fails its digest, behind others that did not: it is reported, it is not written,
      and bookmark and context are gone. */
  lemma BadChunkIsRejected(c: Crypto, s: State, n: nat, chunks: seq<Data>, bad: Data, rest: Data, data: Data)
    requires s.live.Some? && Accepts(c, s, n, chunks)
    requires
      var l := Committed(s, chunks).live.value;
      var payload := Payload(c, l.offer.encrypted, n + |chunks|, bad);
      && l.received < l.offer.total && |payload| < TWO_31 - 4 && bad != []
      && (l.offer.encrypted ==> SEAL_MIN <= |payload| && c.open(payload) == bad)
      && l.chunkIndex < |l.offer.digests| && c.hash(bad) != l.offer.digests[l.chunkIndex]
      && s.live.value.buffer + data == Frames(c, s, n, chunks) + (Frame(payload) + rest)
      && |s.live.value.buffer + data| < TWO_32
    ensures Receive(c, s, data) == (State(Committed(s, chunks).disk, None, None), ChunkRejected)
  {
    var after := Committed(s, chunks);
    var payload := Payload(c, after.live.value.offer.encrypted, n + |chunks|, bad);
    FramesThenTail(c, s, n, chunks, Frame(payload) + rest);
    TakeWhole(payload, rest);
  }

  /** A sealed frame that does not open ends the read, is dropped, and leaves everything else. */
  lemma ForeignFrameIsDropped(c: Crypto, s: State, n: nat, chunks: seq<Data>, payload: Data, rest: Data, data: Data)
    requires s.live.Some? && Accepts(c, s, n, chunks)
    requires
      var l := Committed(s, chunks).live.value;
      && l.received < l.offer.total && l.offer.encrypted
      && SEAL_MIN <= |payload| < TWO_31 - 4 && c.open(payload) == []
      && s.live.value.buffer + data == Frames(c, s, n, chunks) + (Frame(payload) + rest)
      && |s.live.value.buffer + data| < TWO_32
    ensures Receive(c, s, data) == (WithBuffer(Committed(s, chunks), rest), DecryptFailed)
  {
    FramesThenTail(c, s, n, chunks, Frame(payload) + rest);
    TakeWhole(payload, rest);
  }

  /** One too short to be sealed is skipped, and the loop goes on behind it. */
  lemma ShortFrameIsSkipped(c: Crypto, s: State, payload: Data, rest: Data)
    requires s.live.Some? && s.live.value.received < s.live.value.offer.total && s.live.value.offer.encrypted
    requires |payload| < SEAL_MIN && |Frame(payload) + rest| < TWO_32
    ensures Drain(c, WithBuffer(s, Frame(payload) + rest)) == Drain(c, WithBuffer(s, rest))
  {
    TakeWhole(payload, rest);
  }

  // ---- Without digests ----

  /** Chunks of any contents that can be framed, and together have the size offered. */
  predicate Framable(c: Crypto, encrypted: bool, n: nat, chunks: seq<Data>)
    decreases |chunks|
  {
    chunks == [] || (chunks[0] != [] && |Payload(c, encrypted, n, chunks[0])| < TWO_31 - 4
                     && Framable(c, encrypted, n + 1, chunks[1..]))
  }

  lemma {:induction false} UncheckedIsDelivered(c: Crypto, s: State, n: nat, chunks: seq<Data>)
    requires s.live.Some?
    requires
      var l := s.live.value;
      && l.offer.digests == [] && (l.offer.encrypted ==> Opens(c)) && Framable(c, l.offer.encrypted, n, chunks)
      && l.pos == |s.disk| && l.received + |Flatten(chunks)| == l.offer.total
    ensures Expects(c, s, n, chunks)
    ensures Delivered(c, s, n, chunks, Frames(c, s, n, chunks)).disk == s.disk + Flatten(chunks)
    decreases |chunks|
  {
    if chunks == [] {
      assert s.disk + Flatten(chunks) == s.disk;
    } else {
      var next := Commit(s, chunks[0], []);
      assert next.disk == s.disk + chunks[0];
      UncheckedIsDelivered(c, next, n + 1, chunks[1..]);
      DeliveredStep(c, s, n, chunks);
      Associate(s.disk, chunks[0], Flatten(chunks[1..]));
    }
  }

  /** Without digests no chunk is checked: whatever chunks the frames carry, plain or sealed, as
      long as their sizes add up, the file ends up as those chunks, however the stream is cut. */
  lemma NoChunkIsChecked(c: Crypto, offer: Offer, chunks: seq<Data>, parts: seq<Data>)
    requires 0 < offer.chunkSize && offer.digests == [] && (offer.encrypted ==> Opens(c))
    requires Framable(c, offer.encrypted, 0, chunks) && chunks != [] && |Flatten(chunks)| == offer.total
    requires Flatten(parts) == Stream(c, offer.encrypted, 0, chunks)
    requires forall part | part in parts :: |part| < TWO_31
    ensures ReceiveAll(c, Accept(Untouched, offer), parts).disk == Flatten(chunks)
  {
    var s := Accept(Untouched, offer);
    UncheckedIsDelivered(c, s, 0, chunks);
    assert s.live.value.buffer + Flatten(parts) == Flatten(parts);
    SegmentationIndependence(c, s, 0, chunks, parts);
    assert s.disk + Flatten(chunks) == Flatten(chunks);
  }
}
