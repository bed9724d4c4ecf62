/**
 The sending end of one file transfer: a window of at most `MAX_IN_FLIGHT` unacknowledged
 bytes, refilled whenever the socket reports bytes written.
 */
module Sender {
  import opened Bytes
  import opened Sequences
  import opened TransferWire

  const MAX_IN_FLIGHT := 4 * 1024 * 1024

  /** What FILE_ACCEPT fixes: the file, the session and the chunk size. */
  datatype Job = Job(c: Crypto, source: Data, encrypted: bool, size: nat)

  /** `wire` is everything handed to the socket since FILE_ACCEPT, trailer excluded; `frames`
      counts the frames in it. */
  datatype State = State(pos: nat, transferred: nat, frames: nat, inFlight: nat, wire: Data, finished: bool)

  /** Reading one chunk and writing it as a frame. */
  function SendChunk(j: Job, s: State): State
    requires 0 < j.size && s.pos < |j.source|
  {
    var chunk := j.source[s.pos..s.pos + ReadSize(|j.source| - s.pos, j.size)];
    var frame := Frame(Payload(j.c, j.encrypted, s.frames, chunk));
    State(s.pos + |chunk|, s.transferred + |chunk|, s.frames + 1, s.inFlight + |frame|, s.wire + frame, false)
  }

  /** `pumpSender`: fill the window, and finish once the file is at its end. */
  function Pump(j: Job, s: State): State
    requires 0 < j.size
    decreases if s.pos < |j.source| then |j.source| - s.pos else 0
  {
    if s.finished then s
    else if |j.source| <= s.pos then s.(finished := true)
    else if s.inFlight < MAX_IN_FLIGHT then Pump(j, SendChunk(j, s))
    else s
  }

  /** FILE_ACCEPT: seek to the receiver's offset and start pumping. */
  function Start(j: Job, offset: nat): State
    requires 0 < j.size
  {
    Pump(j, State(offset, offset, 0, 0, [], false))
  }

  /** The window once `bytes` bytes have been reported as written. */
  function Freed(s: State, bytes: nat): State {
    s.(inFlight := if bytes < s.inFlight then s.inFlight - bytes else 0)
  }

  /** `onSendChunkWritten`: the socket reports `bytes` more bytes written. */
  function Written(j: Job, s: State, bytes: nat): State
    requires 0 < j.size
  {
    if s.finished then s
    else Pump(j, Freed(s, bytes))
  }

  class SendContext {
    const job: Job
    var pos: nat
    var transferred: nat
    var inFlight: nat
    var finished: bool
    var frames: nat
    var wire: Data

    ghost function AsState(): State
      reads this
    {
      State(pos, transferred, frames, inFlight, wire, finished)
    }

    constructor (job: Job, offset: nat)
      requires 0 < job.size
      ensures this.job == job && AsState() == Start(job, offset)
    {
      this.job := job;
      pos, transferred := offset, offset;
      inFlight, finished, frames, wire := 0, false, 0, [];
      new;
      PumpSender();
    }

    /** The body of the pump loop: one chunk read, framed and written. */
    method WriteFrame()
      requires 0 < job.size && pos < |job.source| && !finished
      modifies this
      ensures AsState() == SendChunk(job, old(AsState()))
    {
      var chunk := job.source[pos..pos + ReadSize(|job.source| - pos, job.size)];
      var frame := Frame(Payload(job.c, job.encrypted, frames, chunk));
      wire := wire + frame;
      inFlight := inFlight + |frame|;
      transferred := transferred + |chunk|;
      frames := frames + 1;
      pos := pos + |chunk|;
    }

    method PumpSender()
      requires 0 < job.size
      modifies this
      ensures AsState() == Pump(job, old(AsState()))
    {
      if finished {
        return;
      }
      ghost var result := Pump(job, AsState());
      while inFlight < MAX_IN_FLIGHT && pos < |job.source|
        invariant !finished
        invariant Pump(job, AsState()) == result
        decreases |job.source| - pos
      {
        WriteFrame();
      }
      if |job.source| <= pos {
        finished := true;
      }
    }

    method OnSendChunkWritten(bytes: nat)
      requires 0 < job.size
      modifies this
      ensures AsState() == Written(job, old(AsState()), bytes)
    {
      if finished {
        return;
      }
      inFlight := if bytes < inFlight then inFlight - bytes else 0;
      PumpSender();
    }
  }

  // ---- Every schedule of acknowledgements ----

  function FrameMax(j: Job): nat {
    4 + j.size + (if j.encrypted then SEAL_MAX else 0)
  }

  /** The frames of everything from `pos` on, when frame `n` is the next. */
  function FramesFrom(j: Job, n: nat, pos: nat): Data
    requires 0 < j.size
    decreases if pos < |j.source| then |j.source| - pos else 0
  {
    if |j.source| <= pos then [] else
      var k := ReadSize(|j.source| - pos, j.size);
      Frame(Payload(j.c, j.encrypted, n, j.source[pos..pos + k])) + FramesFrom(j, n + 1, pos + k)
  }

  /** From `pos` on the frames are those of the chunks whose digests the offer lists. */
  predicate SendsTheChunks(j: Job, n: nat, pos: nat)
    requires 0 < j.size && pos <= |j.source|
  {
    FramesFrom(j, n, pos) == Stream(j.c, j.encrypted, n, Chunks(j.source[pos..], j.size))
  }

  lemma {:induction false} FramesAreTheChunks(j: Job, n: nat, pos: nat)
    requires 0 < j.size && pos <= |j.source|
    ensures SendsTheChunks(j, n, pos)
    decreases |j.source| - pos
  {
    if pos < |j.source| {
      var k := ReadSize(|j.source| - pos, j.size);
      FramesAreTheChunks(j, n + 1, pos + k);
      FramesStep(j, n, pos, k);
    }
  }

  lemma FramesNext(j: Job, n: nat, pos: nat, k: nat)
    requires 0 < j.size && pos < |j.source| && k == ReadSize(|j.source| - pos, j.size)
    ensures FramesFrom(j, n, pos)
         == Frame(Payload(j.c, j.encrypted, n, j.source[pos..pos + k])) + FramesFrom(j, n + 1, pos + k)
  {
  }

  lemma FramesStep(j: Job, n: nat, pos: nat, k: nat)
    requires 0 < j.size && pos < |j.source| && k == ReadSize(|j.source| - pos, j.size)
    requires SendsTheChunks(j, n + 1, pos + k)
    ensures SendsTheChunks(j, n, pos)
  {
    var first, rest := j.source[pos..pos + k], Chunks(j.source[pos + k..], j.size);
    FramesNext(j, n, pos, k);
    assert Chunks(j.source[pos..], j.size) == [first] + rest by {
      FirstChunk(j.source, pos, j.size);
    }
    assert Stream(j.c, j.encrypted, n, [first] + rest)
        == Frame(Payload(j.c, j.encrypted, n, first)) + Stream(j.c, j.encrypted, n + 1, rest) by {
      StreamCons(j.c, j.encrypted, n, first, rest);
    }
  }

  lemma FirstChunk(source: Data, pos: nat, size: nat)
    requires 0 < size && pos < |source|
    ensures
      var k := ReadSize(|source| - pos, size);
      Chunks(source[pos..], size) == [source[pos..pos + k]] + Chunks(source[pos + k..], size)
  {
    var left := source[pos..];
    var k := ReadSize(|left|, size);
    assert left[..k] == source[pos..pos + k] && left[k..] == source[pos + k..];
  }

  lemma StreamCons(c: Crypto, encrypted: bool, n: nat, first: Data, rest: seq<Data>)
    ensures Stream(c, encrypted, n, [first] + rest)
         == Frame(Payload(c, encrypted, n, first)) + Stream(c, encrypted, n + 1, rest)
  {
    assert ([first] + rest)[1..] == rest;
  }

  /** What is on the wire and what is to come are together the frames from `offset` on. */
  predicate OnWire(j: Job, offset: nat, s: State)
    requires 0 < j.size
  {
    s.wire + FramesFrom(j, s.frames, s.pos) == FramesFrom(j, 0, offset)
  }

  /** What every pump and every acknowledgement keeps. `outstanding` is what the socket has
      accepted and not yet reported as written: the FILE_START header may still be part of it. */
  ghost predicate InWindow(j: Job, offset: nat, header: nat, s: State, outstanding: int)
    requires 0 < j.size && offset <= |j.source|
  {
    && s.transferred == s.pos <= |j.source|
    && OnWire(j, offset, s)
    && (!s.finished ==> s.inFlight <= outstanding) && outstanding <= header + s.inFlight
    && s.inFlight < MAX_IN_FLIGHT + FrameMax(j)
    && (s.finished ==> s.pos == |j.source|)
  }

  lemma FrameSize(j: Job, n: nat, chunk: Data)
    requires j.encrypted ==> Opens(j.c)
    requires 0 < |chunk| <= j.size
    ensures |Frame(Payload(j.c, j.encrypted, n, chunk))| <= FrameMax(j)
  {
  }

  lemma ChunkSent(j: Job, s: State, k: nat)
    requires 0 < j.size && s.pos < |j.source| && k == ReadSize(|j.source| - s.pos, j.size)
    ensures
      var s' := SendChunk(j, s);
      && s'.pos == s.pos + k && s'.frames == s.frames + 1
      && s'.wire == s.wire + Frame(Payload(j.c, j.encrypted, s.frames, j.source[s.pos..s.pos + k]))
  {
  }

  lemma WireGrows(j: Job, wire: Data, n: nat, pos: nat, k: nat)
    requires 0 < j.size && pos < |j.source| && k == ReadSize(|j.source| - pos, j.size)
    ensures (wire + Frame(Payload(j.c, j.encrypted, n, j.source[pos..pos + k]))) + FramesFrom(j, n + 1, pos + k)
         == wire + FramesFrom(j, n, pos)
  {
    Associate(wire, Frame(Payload(j.c, j.encrypted, n, j.source[pos..pos + k])), FramesFrom(j, n + 1, pos + k));
  }

  lemma ChunkOnWire(j: Job, offset: nat, s: State, s': State, k: nat)
    requires 0 < j.size && s.pos < |j.source| && k == ReadSize(|j.source| - s.pos, j.size)
    requires s'.pos == s.pos + k && s'.frames == s.frames + 1
    requires s'.wire == s.wire + Frame(Payload(j.c, j.encrypted, s.frames, j.source[s.pos..s.pos + k]))
    requires OnWire(j, offset, s)
    ensures OnWire(j, offset, s')
  {
    WireGrows(j, s.wire, s.frames, s.pos, k);
  }

  lemma ChunkGrows(j: Job, s: State)
    requires 0 < j.size && s.pos < |j.source| && (j.encrypted ==> Opens(j.c))
    ensures
      var s' := SendChunk(j, s);
      && |s'.wire| - |s.wire| == s'.inFlight - s.inFlight && 0 <= s'.inFlight - s.inFlight <= FrameMax(j)
      && s'.transferred - s.transferred == s'.pos - s.pos && s'.pos <= |j.source| && !s'.finished
  {
    FrameSize(j, s.frames, j.source[s.pos..s.pos + ReadSize(|j.source| - s.pos, j.size)]);
  }

  lemma SendChunkKeeps(j: Job, offset: nat, header: nat, s: State, outstanding: int)
    requires 0 < j.size && offset <= |j.source| && (j.encrypted ==> Opens(j.c))
    requires InWindow(j, offset, header, s, outstanding) && s.pos < |j.source| && s.inFlight < MAX_IN_FLIGHT
    ensures
      var s' := SendChunk(j, s);
      InWindow(j, offset, header, s', outstanding + |s'.wire| - |s.wire|)
  {
    var k := ReadSize(|j.source| - s.pos, j.size);
    ChunkSent(j, s, k);
    ChunkOnWire(j, offset, s, SendChunk(j, s), k);
    ChunkGrows(j, s);
  }

  ghost predicate Refilled(j: Job, offset: nat, header: nat, s: State, s': State, outstanding: int)
    requires 0 < j.size && offset <= |j.source|
  {
    && |s.wire| <= |s'.wire|
    && InWindow(j, offset, header, s', outstanding + |s'.wire| - |s.wire|)
    && (!s'.finished ==> MAX_IN_FLIGHT <= s'.inFlight)
  }

  /** After a pump the sender is done, or the window is full. */
  lemma {:induction false} PumpKeeps(j: Job, offset: nat, header: nat, s: State, outstanding: int)
    requires 0 < j.size && offset <= |j.source| && (j.encrypted ==> Opens(j.c))
    requires InWindow(j, offset, header, s, outstanding)
    ensures Refilled(j, offset, header, s, Pump(j, s), outstanding)
    decreases |j.source| - s.pos
  {
    if !s.finished && s.pos < |j.source| && s.inFlight < MAX_IN_FLIGHT {
      SendChunkKeeps(j, offset, header, s, outstanding);
      var s1 := SendChunk(j, s);
      PumpKeeps(j, offset, header, s1, outstanding + |s1.wire| - |s.wire|);
    }
  }

  lemma WrittenKeeps(j: Job, offset: nat, header: nat, s: State, outstanding: int, bytes: nat)
    requires 0 < j.size && offset <= |j.source| && (j.encrypted ==> Opens(j.c))
    requires InWindow(j, offset, header, s, outstanding) && bytes <= outstanding
    ensures Refilled(j, offset, header, s, Written(j, s, bytes), outstanding - bytes)
  {
    if !s.finished {
      FreedInWindow(j, offset, header, s, outstanding, bytes);
      PumpKeeps(j, offset, header, Freed(s, bytes), outstanding - bytes);
    }
  }

  lemma FreedInWindow(j: Job, offset: nat, header: nat, s: State, outstanding: int, bytes: nat)
    requires 0 < j.size && offset <= |j.source| && !s.finished
    requires InWindow(j, offset, header, s, outstanding) && bytes <= outstanding
    ensures
      InWindow(j, offset, header, Freed(s, bytes), outstanding - bytes)
  {
  }

  /** What the socket has accepted and not yet reported as written, after `acks`. */
  function Outstanding(j: Job, offset: nat, header: nat, acks: seq<nat>): int
    requires 0 < j.size
  {
    header + |Schedule(j, offset, acks).wire| - Sum(acks)
  }

  function Sum(acks: seq<nat>): nat {
    if acks == [] then 0 else Sum(acks[..|acks| - 1]) + acks[|acks| - 1]
  }

  function Schedule(j: Job, offset: nat, acks: seq<nat>): State
    requires 0 < j.size
  {
    if acks == [] then Start(j, offset)
    else Written(j, Schedule(j, offset, acks[..|acks| - 1]), acks[|acks| - 1])
  }

  /** The socket never reports more bytes than it was given: `header` bytes of FILE_START and
      the frames so far. */
  predicate Honest(j: Job, offset: nat, header: nat, acks: seq<nat>)
    requires 0 < j.size
  {
    acks == [] ||
    var before := acks[..|acks| - 1];
    Honest(j, offset, header, before) && acks[|acks| - 1] <= Outstanding(j, offset, header, before)
  }

  lemma {:induction false} ScheduleInWindow(j: Job, offset: nat, header: nat, acks: seq<nat>)
    requires 0 < j.size && offset <= |j.source| && (j.encrypted ==> Opens(j.c))
    requires Honest(j, offset, header, acks)
    ensures InWindow(j, offset, header, Schedule(j, offset, acks), Outstanding(j, offset, header, acks))
    ensures !Schedule(j, offset, acks).finished ==> MAX_IN_FLIGHT <= Schedule(j, offset, acks).inFlight
  {
    if acks == [] {
      PumpKeeps(j, offset, header, State(offset, offset, 0, 0, [], false), header);
    } else {
      var before, bytes := acks[..|acks| - 1], acks[|acks| - 1];
      ScheduleInWindow(j, offset, header, before);
      WrittenKeeps(j, offset, header, Schedule(j, offset, before), Outstanding(j, offset, header, before), bytes);
    }
  }

  /** For every schedule of acknowledgements: what has been written is a prefix of the frames of
      the file from the accepted offset; the window stays bounded and never exceeds what is
      really outstanding, which in turn exceeds it by no more than the header; and an unfinished
      sender has a full window, so that a further acknowledgement is due: the transfer cannot
      stall. */
  lemma WindowedSending(j: Job, offset: nat, header: nat, acks: seq<nat>)
    requires 0 < j.size && offset <= |j.source| && (j.encrypted ==> Opens(j.c))
    requires Honest(j, offset, header, acks)
    ensures
      var s := Schedule(j, offset, acks);
      var whole := Stream(j.c, j.encrypted, 0, Chunks(j.source[offset..], j.size));
      && s.wire <= whole
      && s.inFlight < MAX_IN_FLIGHT + FrameMax(j)
      && (s.finished ==> s.wire == whole)
      && (!s.finished ==> MAX_IN_FLIGHT <= s.inFlight <= Outstanding(j, offset, header, acks))
      && Outstanding(j, offset, header, acks) <= header + s.inFlight < header + MAX_IN_FLIGHT + FrameMax(j)
  {
    ScheduleInWindow(j, offset, header, acks);
    FramesAreTheChunks(j, 0, offset);
  }
}
