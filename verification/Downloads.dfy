/**
 All receiving transfers: the bookmarks and the receive contexts are kept by file id, while the
 files on disk belong to nobody. Transfers with different ids may share a target.
 */
module Downloads {
  import opened Bytes
  import opened Options
  import opened TransferWire
  import opened Receiver

  type Id = string
  type Path = string

  /** A receive context and the file it has open. */
  datatype Live = Live(path: Path, context: Context)

  datatype Table = Table(disks: map<Path, Data>, marks: map<Id, Bookmark>, live: map<Id, Live>)

  const NOTHING := Table(map[], map[], map[])

  /** A file that is not there reads as an empty one, which opening it makes it. */
  function Disk(t: Table, path: Path): Data {
    if path in t.disks then t.disks[path] else []
  }

  function Mark(t: Table, id: Id): Option<Bookmark> {
    if id in t.marks then Some(t.marks[id]) else None
  }

  /** The context of `id`, if it is on `path`. */
  function On(t: Table, id: Id, path: Path): Option<Context> {
    if id in t.live && t.live[id].path == path then Some(t.live[id].context) else None
  }

  /** What the handlers of `id` see when its target is `path`. */
  function View(t: Table, id: Id, path: Path): State {
    State(Disk(t, path), Mark(t, id), On(t, id, path))
  }

  /** And what they leave. */
  function Put(t: Table, id: Id, path: Path, s: State): Table {
    Table(t.disks[path := s.disk],
          if s.mark.Some? then t.marks[id := s.mark.value] else t.marks - {id},
          if s.live.Some? then t.live[id := Live(path, s.live.value)] else t.live - {id})
  }

  lemma ViewOfPut(t: Table, id: Id, path: Path, s: State)
    ensures View(Put(t, id, path, s), id, path) == s
  {
  }

  /** The handlers of one id leave the bookmark, the context and the other targets of another. */
  lemma PutElsewhere(t: Table, id: Id, path: Path, s: State, id': Id, path': Path)
    ensures path' != path ==> Disk(Put(t, id, path, s), path') == Disk(t, path')
    ensures id' != id ==> Mark(Put(t, id, path, s), id') == Mark(t, id') && On(Put(t, id, path, s), id', path') == On(t, id', path')
  {
  }

  // ---- The handlers ----

  function AfterAccept(t: Table, id: Id, path: Path, offer: Offer): Table
    requires 0 < offer.chunkSize
  {
    Put(t, id, path, Accept(View(t, id, path), offer))
  }

  /** `writeReceivedData`. */
  function AfterData(c: Crypto, t: Table, id: Id, data: Data): (Table, Outcome) {
    if id !in t.live then (t, Idle) else
      var path := t.live[id].path;
      var (s, outcome) := Receive(c, View(t, id, path), data);
      (Put(t, id, path, s), outcome)
  }

  /** `finishReceive`: only the bookmark and the context of `id` go. */
  function AfterFinish(t: Table, id: Id): Table {
    t.(marks := t.marks - {id}, live := t.live - {id})
  }

  /** A restart of the program: the files and the bookmarks survive. */
  function AfterRestart(t: Table): Table {
    t.(live := map[])
  }

  class Manager {
    var disks: map<Path, Data>
    var transferStates: map<Id, Bookmark>
    var recvContexts: map<Id, Live>

    ghost function AsTable(): Table
      reads this
    {
      Table(disks, transferStates, recvContexts)
    }

    /** Every file being received is there. */
    ghost predicate Valid()
      reads this
    {
      forall id | id in recvContexts :: recvContexts[id].path in disks
    }

    constructor ()
      ensures Valid() && AsTable() == NOTHING
    {
      disks, transferStates, recvContexts := map[], map[], map[];
    }

    /** Returns the offset announced to the sender in FILE_ACCEPT. */
    method AcceptFile(id: Id, path: Path, offered: Offer) returns (offset: nat)
      requires Valid() && 0 < offered.chunkSize
      modifies this
      ensures Valid() && AsTable() == AfterAccept(old(AsTable()), id, path, offered)
      ensures offset == ResumeOffset(Mark(old(AsTable()), id), offered)
    {
      offset := ResumeOffset(if id in transferStates then Some(transferStates[id]) else None, offered);
      if offset == 0 || path !in disks {
        disks := disks[path := []];
      }
      transferStates := transferStates[id := Bookmark(offered.total, offered.md5, offset)];
      recvContexts := recvContexts[id := Live(path, Context(offered, offset, offset, offset / offered.chunkSize, []))];
    }

    method FinishReceive(id: Id)
      requires Valid()
      modifies this
      ensures Valid() && disks == old(disks)
      ensures AsTable() == AfterFinish(old(AsTable()), id)
    {
      recvContexts := recvContexts - {id};
      transferStates := transferStates - {id};
    }

    method Restart()
      modifies this
      ensures Valid() && AsTable() == AfterRestart(old(AsTable()))
    {
      recvContexts := map[];
    }

    method SetBuffer(id: Id, buffer: Data)
      requires Valid() && id in recvContexts
      modifies this
      ensures Valid() && id in recvContexts && recvContexts[id].path == old(recvContexts[id].path)
      ensures
        var path, s := old(recvContexts[id].path), View(old(AsTable()), id, old(recvContexts[id].path));
        AsTable() == Put(old(AsTable()), id, path, s.(live := Some(s.live.value.(buffer := buffer))))
    {
      PutBack(AsTable(), id, recvContexts[id].path);
      var l := recvContexts[id].context;
      recvContexts := recvContexts[id := recvContexts[id].(context := l.(buffer := buffer))];
    }

    method CommitChunk(id: Id, plaintext: Data, rest: Data)
      requires Valid() && id in recvContexts
      modifies this
      ensures Valid() && id in recvContexts && recvContexts[id].path == old(recvContexts[id].path)
      ensures
        var path := old(recvContexts[id].path);
        AsTable() == Put(old(AsTable()), id, path, Commit(View(old(AsTable()), id, path), plaintext, rest))
    {
      var path, l := recvContexts[id].path, recvContexts[id].context;
      var received := l.received + |plaintext|;
      disks := disks[path := WriteAt(disks[path], l.pos, plaintext)];
      recvContexts := recvContexts[id := Live(path, Context(l.offer, l.pos + |plaintext|, received, l.chunkIndex + 1, rest))];
      var mark := Checkpoint(if id in transferStates then Some(transferStates[id]) else None, l.offer, received);
      if mark.Some? {
        transferStates := transferStates[id := mark.value];
      }
    }

    /** The body of the frame loop; `outcome` says how the loop ends when it does not go on. */
    method ProcessFrame(c: Crypto, id: Id) returns (again: bool, outcome: Outcome)
      requires Valid() && id in recvContexts
      requires recvContexts[id].context.received < recvContexts[id].context.offer.total
      modifies this
      ensures Valid()
      ensures
        var path := old(recvContexts[id].path);
        var s := View(AsTable(), id, path);
        && AsTable() == Put(old(AsTable()), id, path, s)
        && Iterate(c, View(old(AsTable()), id, path)) == if again then Again(s) else Stop(s, outcome)
      ensures again ==> id in recvContexts && recvContexts[id].path == old(recvContexts[id].path)
    {
      var path, l := recvContexts[id].path, recvContexts[id].context;
      var taken := TakeFrame(l.buffer);
      if taken.None? {
        return false, Waiting;
      }
      var (framed, rest) := taken.value;
      var plaintext := framed;
      if l.offer.encrypted {
        if |framed| < SEAL_MIN {
          if |rest| == |l.buffer| {
            return false, Hung;
          }
          SetBuffer(id, rest);
          return true, Waiting;
        }
        plaintext := c.open(framed);
        if plaintext == [] {
          SetBuffer(id, rest);
          return false, DecryptFailed;
        }
      }
      if l.chunkIndex < |l.offer.digests| && c.hash(plaintext) != l.offer.digests[l.chunkIndex] {
        FinishReceive(id);
        return false, ChunkRejected;
      }
      var stuck := plaintext == [] && |rest| == |l.buffer| && |l.offer.digests| <= l.chunkIndex;
      CommitChunk(id, plaintext, rest);
      return !stuck, Hung;
    }

    /** The frame loop; `stopped` says that it ended before everything was received. */
    method DrainFrames(c: Crypto, id: Id) returns (stopped: bool, outcome: Outcome)
      requires Valid() && id in recvContexts
      modifies this
      ensures Valid()
      ensures
        var path := old(recvContexts[id].path);
        var s := View(AsTable(), id, path);
        && AsTable() == Put(old(AsTable()), id, path, s)
        && (if stopped then Drain(c, View(old(AsTable()), id, path)) == (s, outcome)
            else s.live.Some? && s.live.value.offer.total <= s.live.value.received
                 && Drain(c, View(old(AsTable()), id, path)) == Drain(c, s))
    {
      var path := recvContexts[id].path;
      ghost var before, s := AsTable(), View(AsTable(), id, path);
      PutBack(before, id, path);
      while recvContexts[id].context.received < recvContexts[id].context.offer.total
        invariant Valid() && id in recvContexts && recvContexts[id].path == path
        invariant s == View(AsTable(), id, path) && AsTable() == Put(before, id, path, s)
        invariant Drain(c, s) == Drain(c, View(before, id, path))
        decreases Left(s).0, Left(s).1, Left(s).2
      {
        var again: bool;
        again, outcome := ProcessFrame(c, id);
        PutTwice(before, id, path, s, View(AsTable(), id, path));
        s := View(AsTable(), id, path);
        if !again {
          return true, outcome;
        }
      }
      return false, Waiting;
    }

    /** The control bytes behind the last frame. */
    method TakeTrailer(id: Id) returns (outcome: Outcome)
      requires Valid() && id in recvContexts
      requires recvContexts[id].context.offer.total <= recvContexts[id].context.received
      modifies this
      ensures Valid()
      ensures
        var path := old(recvContexts[id].path);
        var s := View(AsTable(), id, path);
        && AsTable() == Put(old(AsTable()), id, path, s)
        && forall c :: Drain(c, View(old(AsTable()), id, path)) == (s, outcome)
    {
      var path, l := recvContexts[id].path, recvContexts[id].context;
      PutBack(AsTable(), id, path);
      if l.buffer == [] {
        return Waiting;
      }
      SetBuffer(id, []);
      return Trailer(l.buffer);
    }

    method WriteReceivedData(c: Crypto, id: Id, data: Data) returns (outcome: Outcome)
      requires Valid()
      modifies this
      ensures Valid() && (AsTable(), outcome) == AfterData(c, old(AsTable()), id, data)
    {
      if id !in recvContexts {
        return Idle;
      }
      ghost var before, path := AsTable(), recvContexts[id].path;
      SetBuffer(id, recvContexts[id].context.buffer + data);
      ghost var filled := View(AsTable(), id, path);
      var stopped: bool;
      stopped, outcome := DrainFrames(c, id);
      ghost var drained := View(AsTable(), id, path);
      PutTwice(before, id, path, filled, drained);
      if !stopped {
        outcome := TakeTrailer(id);
        PutTwice(before, id, path, drained, View(AsTable(), id, path));
      }
    }
  }

  lemma PutBack(t: Table, id: Id, path: Path)
    requires path in t.disks && id in t.live && t.live[id].path == path
    ensures Put(t, id, path, View(t, id, path)) == t
  {
    assert id !in t.marks ==> t.marks - {id} == t.marks;
  }

  lemma PutTwice(t: Table, id: Id, path: Path, s: State, s': State)
    ensures Put(Put(t, id, path, s), id, path, s') == Put(t, id, path, s')
  {
  }
}
