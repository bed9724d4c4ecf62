/**
 Safety of the receiving end over whole runs: whatever bytes arrive, however often the program
 restarts, and whatever other files are received, what a digest check let through is the next
 chunk of its source; and as long as no other transfer meddles with the target, what counts as
 received is what the sender's file holds.
 */
module TransferSafety {
  import opened Arithmetic
  import opened Bytes
  import opened Options
  import opened TransferWire
  import opened Receiver
  import opened Downloads

  /** What can happen. `Offered` is a FILE_START for `source` that the user, or the automatic
      resume, accepts onto `path`; the id is the sender's choice. `Segment` is one read from the
      socket of `id`, with any bytes at all. `Ended` is FILE_VERIFY, or a cancel or removal. */
  datatype Event =
    | Offered(id: Id, path: Path, source: Data, encrypted: bool)
    | Segment(id: Id, data: Data)
    | Restarted
    | Ended(id: Id)

  function Apply(c: Crypto, size: nat, t: Table, e: Event): Table
    requires 0 < size
  {
    match e
    case Offered(id, path, source, encrypted) => AfterAccept(t, id, path, OfferFor(c, source, size, encrypted))
    case Segment(id, data) => AfterData(c, t, id, data).0
    case Restarted => AfterRestart(t)
    case Ended(id) => AfterFinish(t, id)
  }

  function Run(c: Crypto, size: nat, events: seq<Event>): Table
    requires 0 < size
  {
    if events == [] then NOTHING
    else Apply(c, size, Run(c, size, events[..|events| - 1]), events[|events| - 1])
  }

  /** The file most recently offered under `id`. */
  function LastOffered(events: seq<Event>, id: Id): Data {
    if events == [] then []
    else
      var e := events[|events| - 1];
      if e.Offered? && e.id == id then e.source else LastOffered(events[..|events| - 1], id)
  }

  // ---- What holds whatever happens to the target ----

  ghost predicate Boundary(source: Data, size: nat, n: nat)
    requires 0 < size
  {
    n <= |source| && (n % size == 0 || n == |source|)
  }

  ghost predicate MarkOk(c: Crypto, size: nat, source: Data, m: Bookmark)
    requires 0 < size
  {
    m.total == |source| && m.md5 == c.hash(source) && Boundary(source, size, m.lastOffset)
  }

  ghost predicate LiveOk(c: Crypto, size: nat, source: Data, l: Context)
    requires 0 < size
  {
    && l.offer == OfferFor(c, source, size, l.offer.encrypted)
    && l.pos == l.received
    && Boundary(source, size, l.received)
    && (l.received < |source| ==>
          && l.chunkIndex <= |l.offer.digests|
          && l.offer.digests[l.chunkIndex..] == Digests(c, source[l.received..], size))
  }

  /** Bookmark and context agree with the source and with each other. */
  ghost predicate Aligned(c: Crypto, size: nat, source: Data, mark: Option<Bookmark>, live: Option<Context>)
    requires 0 < size
  {
    && (mark.Some? ==> MarkOk(c, size, source, mark.value))
    && (live.Some? ==>
          && LiveOk(c, size, source, live.value)
          && mark.Some? && mark.value.lastOffset <= live.value.received < mark.value.lastOffset + size)
  }

  /** The heart of the matter: a chunk that passes the digest check is the next chunk of the
      source, so that committing it keeps everything aligned. */
  lemma CommitKeeps(c: Crypto, size: nat, source: Data, s: State, plaintext: Data, rest: Data)
    requires 0 < size && CollisionFree(c)
    requires Aligned(c, size, source, s.mark, s.live) && s.live.Some?
    requires s.live.value.received < |source|
    requires
      var l := s.live.value;
      l.chunkIndex < |l.offer.digests| ==> c.hash(plaintext) == l.offer.digests[l.chunkIndex]
    ensures
      var next := Commit(s, plaintext, rest);
      Aligned(c, size, source, next.mark, next.live)
    ensures
      var received := s.live.value.received;
      plaintext == source[received..][..ReadSize(|source| - received, size)] != []
  {
    var l := s.live.value;
    var left := source[l.received..];
    var k := ReadSize(|left|, size);
    assert l.offer.digests[l.chunkIndex] == l.offer.digests[l.chunkIndex..][0] == c.hash(left[..k]);
    assert plaintext == left[..k];
    var received := l.received + k;
    assert left[k..] == source[received..];
    assert l.offer.digests[l.chunkIndex + 1..] == l.offer.digests[l.chunkIndex..][1..];
    if k == size {
      NextMultiple(l.received, size);
    } else {
      assert received == |source|;
    }
  }

  /** Accepting an offer resumes only onto the file the bookmark was made for, with the digest
      index of the chunk that comes next. */
  lemma AcceptKeeps(c: Crypto, size: nat, before: Data, s: State, source: Data, encrypted: bool)
    requires 0 < size && CollisionFree(c)
    requires Aligned(c, size, before, s.mark, None)
    ensures
      var next := Accept(s, OfferFor(c, source, size, encrypted));
      Aligned(c, size, source, next.mark, next.live)
    ensures 0 < ResumeOffset(s.mark, OfferFor(c, source, size, encrypted)) ==> before == source
  {
    var offset := ResumeOffset(s.mark, OfferFor(c, source, size, encrypted));
    if 0 < offset {
      assert before == source;
      if offset < |source| {
        DigestIndex(c, source, size, offset);
      }
    } else {
      DigestIndex(c, source, size, 0);
    }
  }

  /** A bookmark resumes exactly the offers of its size whose digest is not known to differ; any
      other offer starts over, on an empty target. */
  lemma ResumesExactly(t: Table, id: Id, path: Path, offer: Offer)
    requires 0 < offer.chunkSize && id in t.marks
    ensures
      var (m, after) := (t.marks[id], AfterAccept(t, id, path, offer));
      && id in after.live && after.marks[id].lastOffset == after.live[id].context.received == after.live[id].context.pos
      && var offset := after.marks[id].lastOffset;
      && (m.total == offer.total && (m.md5 == offer.md5 || m.md5 == [] || offer.md5 == [])
          ==> offset == m.lastOffset && (0 < offset ==> Disk(after, path) == Disk(t, path)))
      && (m.total != offer.total || (m.md5 != [] && offer.md5 != [] && m.md5 != offer.md5)
          ==> offset == 0 && Disk(after, path) == [])
  {
  }

  /** The first committed chunk is bookmarked at once, however short it is. */
  lemma FirstChunkIsMarked(s: State, plaintext: Data, rest: Data)
    requires s.live.Some? && (s.mark.None? || s.mark.value.lastOffset == 0)
    ensures
      var next := Commit(s, plaintext, rest);
      next.mark.Some? && next.mark.value.lastOffset == next.live.value.received == s.live.value.received + |plaintext|
  {
  }

  // ---- What holds of the target ----

  /** The target holds the first `n` bytes of `source`, and nothing that is not of `source`. */
  predicate Holds(disk: Data, source: Data, n: nat) {
    n <= |disk| && disk <= source
  }

  predicate OnDisk(source: Data, s: State) {
    && (s.live.Some? ==> Holds(s.disk, source, s.live.value.received))
    && (s.mark.Some? && 0 < s.mark.value.lastOffset ==> Holds(s.disk, source, s.mark.value.lastOffset))
  }

  lemma WriteNext(disk: Data, source: Data, n: nat, k: nat)
    requires Holds(disk, source, n) && n + k <= |source|
    ensures Holds(WriteAt(disk, n, source[n..][..k]), source, n + k)
    ensures |disk| <= |WriteAt(disk, n, source[n..][..k])|
  {
    var data := source[n..][..k];
    var after := WriteAt(disk, n, data);
    if data != [] {
      assert after[..n + k] == disk[..n] + data;
      assert source[..n + k] == source[..n] + data;
      assert n + k <= |disk| ==> after == disk;
    }
  }

  lemma CommitKeepsDisk(source: Data, s: State, k: nat, rest: Data)
    requires s.live.Some? && OnDisk(source, s) && s.live.value.pos == s.live.value.received
    requires s.live.value.received + k <= |source|
    ensures OnDisk(source, Commit(s, source[s.live.value.received..][..k], rest))
  {
    WriteNext(s.disk, source, s.live.value.received, k);
  }

  lemma IterateKeeps(c: Crypto, size: nat, source: Data, s: State)
    requires 0 < size && CollisionFree(c)
    requires Aligned(c, size, source, s.mark, s.live) && s.live.Some? && s.live.value.received < |source|
    ensures
      var turn := Iterate(c, s);
      var next := if turn.Again? then turn.next else turn.last;
      Aligned(c, size, source, next.mark, next.live) && (OnDisk(source, s) ==> OnDisk(source, next))
  {
    var l := s.live.value;
    var taken := TakeFrame(l.buffer);
    if taken.Some? {
      var (framed, rest) := taken.value;
      if !(l.offer.encrypted && |framed| < SEAL_MIN) {
        var plaintext := if l.offer.encrypted then c.open(framed) else framed;
        if !(l.offer.encrypted && plaintext == [])
           && !(l.chunkIndex < |l.offer.digests| && c.hash(plaintext) != l.offer.digests[l.chunkIndex]) {
          CommitKeeps(c, size, source, s, plaintext, rest);
          if OnDisk(source, s) {
            CommitKeepsDisk(source, s, ReadSize(|source| - l.received, size), rest);
          }
        }
      }
    }
  }

  lemma {:induction false} DrainKeeps(c: Crypto, size: nat, source: Data, s: State)
    requires 0 < size && CollisionFree(c)
    requires Aligned(c, size, source, s.mark, s.live) && s.live.Some?
    ensures
      var next := Drain(c, s).0;
      Aligned(c, size, source, next.mark, next.live) && (OnDisk(source, s) ==> OnDisk(source, next))
    decreases Left(s).0, Left(s).1, Left(s).2
  {
    if s.live.value.received < |source| {
      IterateKeeps(c, size, source, s);
      var turn := Iterate(c, s);
      if turn.Again? {
        DrainKeeps(c, size, source, turn.next);
      }
    }
  }

  lemma ReceiveKeeps(c: Crypto, size: nat, source: Data, s: State, data: Data)
    requires 0 < size && CollisionFree(c)
    requires Aligned(c, size, source, s.mark, s.live)
    ensures
      var next := Receive(c, s, data).0;
      Aligned(c, size, source, next.mark, next.live) && (OnDisk(source, s) ==> OnDisk(source, next))
  {
    if s.live.Some? {
      var l := s.live.value;
      DrainKeeps(c, size, source, s.(live := Some(l.(buffer := l.buffer + data))));
    }
  }

  // ---- Every run ----

  /** The context of `id`, on whatever target. */
  function Receiving(t: Table, id: Id): Option<Context> {
    if id in t.live then Some(t.live[id].context) else None
  }

  ghost predicate TableAligned(c: Crypto, size: nat, events: seq<Event>, id: Id)
    requires 0 < size
  {
    var t := Run(c, size, events);
    Aligned(c, size, LastOffered(events, id), Mark(t, id), Receiving(t, id))
  }

  lemma {:induction false} RunIsAligned(c: Crypto, size: nat, events: seq<Event>, id: Id)
    requires 0 < size && CollisionFree(c)
    ensures TableAligned(c, size, events, id)
  {
    if events != [] {
      var before, e := events[..|events| - 1], events[|events| - 1];
      RunIsAligned(c, size, before, id);
      var t := Run(c, size, before);
      match e
      case Offered(other, path, source, encrypted) =>
        if other == id {
          AcceptKeeps(c, size, LastOffered(before, id), View(t, id, path), source, encrypted);
        }
      case Segment(other, data) =>
        if other == id && id in t.live {
          ReceiveKeeps(c, size, LastOffered(before, id), View(t, id, t.live[id].path), data);
        }
      case Restarted =>
      case Ended(other) =>
    }
  }

  /** What `id` has to do with `path` is its own doing: since the last accept that began anew it
      has been accepted onto no other target, and no other transfer has been accepted onto this
      one or received anything for it. All of it can be read off the handlers' calls. */
  predicate Intact(c: Crypto, size: nat, events: seq<Event>, id: Id, path: Path)
    requires 0 < size
  {
    events == [] ||
    var before, e := events[..|events| - 1], events[|events| - 1];
    var t := Run(c, size, before);
    match e
    case Offered(other, target, source, encrypted) =>
      if other != id then Intact(c, size, before, id, path) && target != path
      else target == path && (Intact(c, size, before, id, path)
                              || ResumeOffset(Mark(t, id), OfferFor(c, source, size, encrypted)) == 0)
    case Segment(other, _) =>
      Intact(c, size, before, id, path) && (other == id || other !in t.live || t.live[other].path != path)
    case Restarted => Intact(c, size, before, id, path)
    case Ended(other) => other == id || Intact(c, size, before, id, path)
  }

  /** The target of `id` is as it should be, and `id` is received onto no other. */
  predicate TableOnDisk(t: Table, source: Data, id: Id, path: Path) {
    OnDisk(source, View(t, id, path)) && (id in t.live ==> t.live[id].path == path)
  }

  lemma AcceptKeepsDisk(c: Crypto, size: nat, before: Data, t: Table, e: Event, id: Id, path: Path)
    requires 0 < size && CollisionFree(c) && e.Offered? && e.id == id && e.path == path
    requires Aligned(c, size, before, Mark(t, id), None)
    requires OnDisk(before, View(t, id, path)) || ResumeOffset(Mark(t, id), OfferFor(c, e.source, size, e.encrypted)) == 0
    ensures TableOnDisk(Apply(c, size, t, e), e.source, id, path)
  {
    var offer := OfferFor(c, e.source, size, e.encrypted);
    AcceptKeeps(c, size, before, View(t, id, path), e.source, e.encrypted);
    ViewOfPut(t, id, path, Accept(View(t, id, path), offer));
  }

  lemma SegmentKeepsDisk(c: Crypto, size: nat, source: Data, t: Table, e: Event, id: Id, path: Path)
    requires 0 < size && CollisionFree(c) && e.Segment?
    requires Aligned(c, size, source, Mark(t, id), Receiving(t, id)) && TableOnDisk(t, source, id, path)
    requires e.id == id || e.id !in t.live || t.live[e.id].path != path
    ensures TableOnDisk(Apply(c, size, t, e), source, id, path)
  {
    if e.id in t.live {
      var target := t.live[e.id].path;
      var s := Receive(c, View(t, e.id, target), e.data).0;
      if e.id == id {
        ReceiveKeeps(c, size, source, View(t, id, path), e.data);
        ViewOfPut(t, id, path, s);
      } else {
        PutElsewhere(t, e.id, target, s, id, path);
      }
    }
  }

  lemma {:induction false} RunIsOnDisk(c: Crypto, size: nat, events: seq<Event>, id: Id, path: Path)
    requires 0 < size && CollisionFree(c) && Intact(c, size, events, id, path)
    ensures TableOnDisk(Run(c, size, events), LastOffered(events, id), id, path)
  {
    if events != [] {
      var before, e := events[..|events| - 1], events[|events| - 1];
      var t := Run(c, size, before);
      RunIsAligned(c, size, before, id);
      if Intact(c, size, before, id, path) {
        RunIsOnDisk(c, size, before, id, path);
      }
      match e
      case Offered(other, target, source, encrypted) =>
        if other == id {
          AcceptKeepsDisk(c, size, LastOffered(before, id), t, e, id, path);
        } else {
          PutElsewhere(t, other, target, Accept(View(t, other, target), OfferFor(c, source, size, encrypted)), id, path);
        }
      case Segment(other, data) => SegmentKeepsDisk(c, size, LastOffered(before, id), t, e, id, path);
      case Restarted =>
      case Ended(other) =>
    }
  }

  /** Over every run, whatever is received besides: the bookmark of a file never runs ahead of what
      was received, is less than a chunk behind and always sits on a chunk boundary. And as long as
      no other transfer meddled with the target, the received prefix on disk is the source's, and
      once everything counts as received the file is the source, so that the final digest check of
      FILE_VERIFY succeeds. */
  lemma ReceivedPrefixIsTheSources(c: Crypto, size: nat, events: seq<Event>, id: Id, path: Path)
    requires 0 < size && CollisionFree(c)
    ensures
      var t, source := Run(c, size, events), LastOffered(events, id);
      && (id in t.marks ==>
            var offset := t.marks[id].lastOffset;
            offset <= |source| && (offset % size == 0 || offset == |source|))
      && (id in t.live ==>
            var received := t.live[id].context.received;
            received <= |source| && id in t.marks && t.marks[id].lastOffset <= received < t.marks[id].lastOffset + size)
    ensures
      var t, source := Run(c, size, events), LastOffered(events, id);
      Intact(c, size, events, id, path) ==>
        var disk := Disk(t, path);
        && (id in t.marks && 0 < t.marks[id].lastOffset ==>
              t.marks[id].lastOffset <= |disk| && disk[..t.marks[id].lastOffset] == source[..t.marks[id].lastOffset])
        && (id in t.live ==>
              var received := t.live[id].context.received;
              && t.live[id].path == path
              && received <= |disk| <= |source| && disk[..received] == source[..received]
              && (received == |source| ==> disk == source && c.hash(disk) == t.live[id].context.offer.md5))
  {
    RunIsAligned(c, size, events, id);
    if Intact(c, size, events, id, path) {
      RunIsOnDisk(c, size, events, id, path);
      PrefixesHold(Disk(Run(c, size, events), path), LastOffered(events, id));
    }
  }

  lemma PrefixesHold(disk: Data, source: Data)
    ensures disk <= source ==> forall n | 0 <= n <= |disk| :: disk[..n] == source[..n]
    ensures disk <= source && |source| <= |disk| ==> disk == source
  {
    if disk <= source {
      assert disk == source[..|disk|];
      assert |source| <= |disk| ==> source[..|disk|] == source;
    }
  }

  /** Resuming works: after a restart, or just a dropped connection, the same file offered again
      under its id goes on where it was, less than one chunk short. */
  lemma ResumeKeepsProgress(c: Crypto, size: nat, events: seq<Event>, id: Id, restarted: bool, path: Path, encrypted: bool)
    requires 0 < size && CollisionFree(c)
    requires id in Run(c, size, events).live
    ensures
      var source, before := LastOffered(events, id), Run(c, size, events).live[id].context.received;
      var dropped := if restarted then events + [Restarted] else events;
      var again := Receiving(Run(c, size, dropped + [Offered(id, path, source, encrypted)]), id);
      again.Some? && again.value.received <= before < again.value.received + size
  {
    RunIsAligned(c, size, events, id);
    var t, source := Run(c, size, events), LastOffered(events, id);
    var dropped := if restarted then events + [Restarted] else events;
    assert (events + [Restarted])[..|events|] == events;
    assert (dropped + [Offered(id, path, source, encrypted)])[..|dropped|] == dropped;
    assert Run(c, size, dropped).marks == t.marks;
  }

  // ---- Another file on the target ----

  /** The bytes in front of the offset are those of the source. */
  predicate RightPrefix(disk: Data, source: Data, offset: nat)
    requires offset <= |source|
  {
    offset <= |disk| && disk[..offset] == source[..offset]
  }

  /** When the target has come to hold bytes of another file: the bookmark resumes onto them, and
      the resumed prefix is right if and only if there are enough of them and they are those of
      the source. */
  lemma ResumedOntoAnother(c: Crypto, size: nat, events: seq<Event>, id: Id, path: Path, other: Data,
                           source: Data, encrypted: bool)
    requires 0 < size && CollisionFree(c) && Disk(Run(c, size, events), path) <= other
    requires 0 < ResumeOffset(Mark(Run(c, size, events), id), OfferFor(c, source, size, encrypted))
    ensures
      var t := Run(c, size, events);
      var offset := ResumeOffset(Mark(t, id), OfferFor(c, source, size, encrypted));
      var after := Run(c, size, events + [Offered(id, path, source, encrypted)]);
      && Receiving(after, id).Some? && Receiving(after, id).value.received == offset <= |source|
      && (RightPrefix(Disk(after, path), source, offset)
          <==> offset <= |Disk(t, path)| && RightPrefix(other, source, offset))
  {
    var t := Run(c, size, events);
    RunIsAligned(c, size, events, id);
    AcceptKeeps(c, size, LastOffered(events, id), View(t, id, path), source, encrypted);
    PrefixesHold(Disk(t, path), other);
    assert (events + [Offered(id, path, source, encrypted)])[..|events|] == events;
  }

  /** And it does hold bytes of another file while that is being received onto it. */
  lemma TargetIsTheOthers(c: Crypto, size: nat, events: seq<Event>, other: Id, path: Path)
    requires 0 < size && CollisionFree(c)
    requires Intact(c, size, events, other, path) && other in Run(c, size, events).live
    ensures Disk(Run(c, size, events), path) <= LastOffered(events, other)
  {
    RunIsOnDisk(c, size, events, other, path);
  }

  // ---- When the frame loop spins ----

  /** When the frame loop spins. With the sender's digests in place a plain transfer never does;
      a sealed one does exactly on the length prefix 2^32 - 4, whose frame end wraps to zero,
      with too few bytes behind it for a nonce and a tag. */
  lemma SpinsExactly(c: Crypto, size: nat, source: Data, s: State)
    requires 0 < size && CollisionFree(c)
    requires Aligned(c, size, source, s.mark, s.live) && s.live.Some? && s.live.value.received < |source|
    ensures
      var turn, l := Iterate(c, s), s.live.value;
      (turn.Stop? && turn.why == Hung)
      <==> (l.offer.encrypted && 4 <= |l.buffer| < 4 + SEAL_MIN && FromLE32(l.buffer[..4]) == TWO_32 - 4)
  {
    var l := s.live.value;
    var taken := TakeFrame(l.buffer);
    TakeNothing(l.buffer);
    if taken.Some? && !(l.offer.encrypted && |taken.value.0| < SEAL_MIN) {
      var plaintext := if l.offer.encrypted then c.open(taken.value.0) else taken.value.0;
      if !(l.chunkIndex < |l.offer.digests| && c.hash(plaintext) != l.offer.digests[l.chunkIndex]) {
        CommitKeeps(c, size, source, s, plaintext, taken.value.1);
      }
    }
  }

  /** The bytes from which the frame loop goes on forever. */
  predicate Spinning(s: State) {
    s.live.Some? &&
    var l := s.live.value;
    && l.received < l.offer.total && l.offer.encrypted
    && 4 <= |l.buffer| < 4 + SEAL_MIN && FromLE32(l.buffer[..4]) == TWO_32 - 4
  }

  lemma {:induction false} DrainSpinsExactly(c: Crypto, size: nat, source: Data, s: State)
    requires 0 < size && CollisionFree(c)
    requires Aligned(c, size, source, s.mark, s.live) && s.live.Some?
    ensures Drain(c, s).1 == Hung <==> Spinning(Drain(c, s).0) && Drain(c, s).1 != DecryptFailed
    decreases Left(s).0, Left(s).1, Left(s).2
  {
    if s.live.value.received < |source| {
      var turn := Iterate(c, s);
      SpinsExactly(c, size, source, s);
      IterateKeeps(c, size, source, s);
      if turn.Again? {
        DrainSpinsExactly(c, size, source, turn.next);
      } else {
        TakeNothing(s.live.value.buffer);
      }
    }
  }

  /** When a whole read spins: over every run a read that does not end in a failed decryption spins
      if and only if it comes to these bytes. */
  lemma ReadSpinsExactly(c: Crypto, size: nat, events: seq<Event>, id: Id, data: Data)
    requires 0 < size && CollisionFree(c) && id in Run(c, size, events).live
    ensures
      var t := Run(c, size, events);
      var (t', outcome) := AfterData(c, t, id, data);
      outcome == Hung <==> Spinning(View(t', id, t.live[id].path)) && outcome != DecryptFailed
  {
    RunIsAligned(c, size, events, id);
    var t := Run(c, size, events);
    var s := View(t, id, t.live[id].path);
    var l := s.live.value;
    DrainSpinsExactly(c, size, LastOffered(events, id), s.(live := Some(l.(buffer := l.buffer + data))));
    ViewOfPut(t, id, t.live[id].path, Receive(c, s, data).0);
  }

  /** The shortest such read: a sealed offer is accepted, and these four bytes arrive. */
  lemma FourBytesSpin(c: Crypto, size: nat, source: Data, id: Id, path: Path)
    requires 0 < size && source != []
    ensures AfterData(c, Run(c, size, [Offered(id, path, source, true)]), id, [252, 255, 255, 255]).1 == Hung
  {
    var events := [Offered(id, path, source, true)];
    var bytes: Data := [252, 255, 255, 255];
    assert events[..0] == [];
    var s := Accept(Untouched, OfferFor(c, source, size, true));
    assert View(NOTHING, id, path) == Untouched;
    assert View(Run(c, size, events), id, path) == s;
    assert s.live.value.buffer + bytes == bytes && bytes[..4] == bytes;
    var s' := s.(live := Some(s.live.value.(buffer := bytes)));
    TakeNothing(bytes);
    assert Iterate(c, s') == Stop(s', Hung);
  }

  /** The digests are what safety rests on: an offer without them (a manual retry builds one)
      lets the first frame of a plain transfer into the file, whatever it carries. */
  lemma UncheckedWithoutDigests(c: Crypto, offer: Offer, payload: Data)
    requires 0 < offer.chunkSize && offer.digests == [] && !offer.encrypted
    requires 0 < |payload| < TWO_31 - 4 && |payload| <= offer.total
    ensures Receive(c, Accept(Untouched, offer), Frame(payload)).0.disk == payload
  {
    var s := Accept(Untouched, offer);
    var s' := s.(live := Some(s.live.value.(buffer := Frame(payload))));
    assert s.live.value.buffer + Frame(payload) == Frame(payload) == Frame(payload) + [];
    TakeWhole(payload, []);
    var next := Commit(s', payload, []);
    assert Iterate(c, s') == Again(next);
    assert next.disk == payload && next.live.value.buffer == [];
    assert Drain(c, next) == (next, Waiting);
  }
}
