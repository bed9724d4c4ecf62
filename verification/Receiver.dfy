/**
 The receiving end of one file transfer, as its handlers see it: the file on disk and the resume
 bookmark, which survive a restart, and the receive context, which does not.
 */
module Receiver {
  import opened Bytes
  import opened Options
  import opened TransferWire

  /** The persisted bookmark (`IPMsgTransferState` of a receiver). */
  datatype Bookmark = Bookmark(total: nat, md5: Data, lastOffset: nat)

  /** The part of `RecvContext` that a restart loses. `pos` is the position of the open file. */
  datatype Context = Context(offer: Offer, pos: nat, received: nat, chunkIndex: nat, buffer: Data)

  datatype State = State(disk: Data, mark: Option<Bookmark>, live: Option<Context>)

  const Untouched := State([], None, None)

  /** How one call of `writeReceivedData` ends. */
  datatype Outcome =
    | Idle                    // no context: nothing happens
    | Waiting                 // the frame loop ran out of complete frames, or of bytes to expect
    | Trailer(command: Data)  // bytes after the last data frame, handed to `processTcpCommand`
    | DecryptFailed
    | ChunkRejected           // digest mismatch: `finishReceive(false)`
    | Hung                    // the C++ loop repeats forever without consuming anything

  // ---- Accepting an offer ----

  /** `resumeOffsetFor`: the bookmark counts only for a file of the same size and digest. */
  function ResumeOffset(mark: Option<Bookmark>, offer: Offer): nat {
    if mark.None? then 0
    else if mark.value.total != offer.total then 0
    else if mark.value.md5 != [] && offer.md5 != [] && mark.value.md5 != offer.md5 then 0
    else mark.value.lastOffset
  }

  /** A fresh accept truncates the target, a resumed one keeps it and seeks. */
  function Accept(s: State, offer: Offer): State
    requires 0 < offer.chunkSize
  {
    var offset := ResumeOffset(s.mark, offer);
    State(if 0 < offset then s.disk else [],
          Some(Bookmark(offer.total, offer.md5, offset)),
          Some(Context(offer, offset, offset, offset / offer.chunkSize, [])))
  }

  // ---- Receiving bytes ----

  /** The first frame of the buffer and what stays behind it. The frame end is computed in
      32 bits and the length is cast to `int`: a length of 2^31 or more takes the whole rest of
      the buffer as the frame, and removes only `4 + length - 2^32` bytes if that is positive. */
  function TakeFrame(buffer: Data): (r: Option<(Data, Data)>)
    ensures r.Some? ==> |r.value.1| <= |buffer| && |r.value.0| <= |buffer| - 4
  {
    if |buffer| < 4 then None else
      var len := FromLE32(buffer[..4]);
      if |buffer| % TWO_32 < (4 + len) % TWO_32 then None
      else if len < TWO_31 then Some((buffer[4..4 + len], buffer[4 + len..]))
      else Some((buffer[4..], if TWO_32 - 4 < len then buffer[4 + len - TWO_32..] else buffer))
  }

  /** A frame that has arrived in full is taken, whatever follows it. */
  lemma TakeWhole(payload: Data, tail: Data)
    requires |payload| < TWO_31 - 4 && |Frame(payload) + tail| < TWO_32
    ensures TakeFrame(Frame(payload) + tail) == Some((payload, tail))
  {
    var buffer := Frame(payload) + tail;
    LE32RoundTrip(|payload|);
    assert buffer[..4] == LE32(|payload|);
    assert buffer[4..4 + |payload|] == payload;
    assert buffer[4 + |payload|..] == tail;
  }

  /** A frame that has not is waited for. */
  lemma TakePartial(payload: Data, buffer: Data)
    requires |payload| < TWO_31 - 4 && buffer <= Frame(payload) && buffer != Frame(payload)
    ensures TakeFrame(buffer).None?
  {
    if 4 <= |buffer| {
      LE32RoundTrip(|payload|);
      assert buffer[..4] == Frame(payload)[..4] == LE32(|payload|);
    }
  }

  /** The one length prefix that takes a frame too short to open and consumes nothing. */
  lemma TakeNothing(buffer: Data)
    ensures (TakeFrame(buffer).Some? && |TakeFrame(buffer).value.0| < SEAL_MIN
             && |TakeFrame(buffer).value.1| == |buffer|)
       <==> (4 <= |buffer| < 4 + SEAL_MIN && FromLE32(buffer[..4]) == TWO_32 - 4)
  {
  }

  /** The bookmark moves on once a whole chunk has been committed since the last one, or when
      it still is at zero. */
  function Checkpoint(mark: Option<Bookmark>, offer: Offer, received: nat): Option<Bookmark> {
    var st := if mark.Some? then mark.value else Bookmark(offer.total, offer.md5, 0);
    if received - st.lastOffset >= offer.chunkSize || st.lastOffset == 0
    then Some(st.(lastOffset := received)) else mark
  }

  /** A verified chunk is written, counted and checkpointed. */
  function Commit(s: State, plaintext: Data, rest: Data): State
    requires s.live.Some?
  {
    var l := s.live.value;
    var received := l.received + |plaintext|;
    State(WriteAt(s.disk, l.pos, plaintext),
          Checkpoint(s.mark, l.offer, received),
          Some(Context(l.offer, l.pos + |plaintext|, received, l.chunkIndex + 1, rest)))
  }

  /** `finishReceive`: the context and the bookmark go, the file stays. */
  function Finish(s: State): State {
    State(s.disk, None, None)
  }

  /** What the bytes left to receive, the buffered bytes and the digests left to check say
      about the frame loop: an iteration that lowers none of them repeats forever. */
  function Left(s: State): (nat, nat, nat)
    requires s.live.Some?
  {
    var l := s.live.value;
    (if l.received < l.offer.total then l.offer.total - l.received else 0,
     |l.buffer|,
     if l.chunkIndex < |l.offer.digests| then |l.offer.digests| - l.chunkIndex else 0)
  }

  predicate Less(a: (nat, nat, nat), b: (nat, nat, nat)) {
    a.0 < b.0 || (a.0 == b.0 && (a.1 < b.1 || (a.1 == b.1 && a.2 < b.2)))
  }

  datatype Iteration = Again(next: State) | Stop(last: State, why: Outcome)

  /** One turn of the frame loop. */
  function Iterate(c: Crypto, s: State): (r: Iteration)
    requires s.live.Some? && s.live.value.received < s.live.value.offer.total
    ensures r.Again? ==> r.next.live.Some? && Less(Left(r.next), Left(s))
  {
    var l := s.live.value;
    var taken := TakeFrame(l.buffer);
    if taken.None? then Stop(s, Waiting) else
      var (framed, rest) := taken.value;
      if l.offer.encrypted && |framed| < SEAL_MIN then
        if |rest| == |l.buffer| then Stop(s, Hung) else Again(s.(live := Some(l.(buffer := rest))))
      else
        var plaintext := if l.offer.encrypted then c.open(framed) else framed;
        if l.offer.encrypted && plaintext == [] then
          Stop(s.(live := Some(l.(buffer := rest))), DecryptFailed)
        else if l.chunkIndex < |l.offer.digests| && c.hash(plaintext) != l.offer.digests[l.chunkIndex] then
          Stop(Finish(s), ChunkRejected)
        else
          var next := Commit(s, plaintext, rest);
          if plaintext == [] && |rest| == |l.buffer| && |l.offer.digests| <= l.chunkIndex
          then Stop(next, Hung) else Again(next)
  }

  /** The frame loop from a given buffer, and the control bytes behind the last frame. */
  function Drain(c: Crypto, s: State): (r: (State, Outcome))
    requires s.live.Some?
    decreases Left(s).0, Left(s).1, Left(s).2
  {
    var l := s.live.value;
    if l.offer.total <= l.received then
      if l.buffer == [] then (s, Waiting)
      else (s.(live := Some(l.(buffer := []))), Trailer(l.buffer))
    else
      var turn := Iterate(c, s);
      if turn.Again? then Drain(c, turn.next) else (turn.last, turn.why)
  }

  function Receive(c: Crypto, s: State, data: Data): (State, Outcome) {
    if s.live.None? then (s, Idle) else
      var l := s.live.value;
      Drain(c, s.(live := Some(l.(buffer := l.buffer + data))))
  }
}
