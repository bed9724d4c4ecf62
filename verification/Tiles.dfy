/**
 The controller's tile accounting. Tiles arrive on the main thread, wait in a bounded queue and
 are decoded on another thread; acknowledgements and resend requests read the counters in between.
 */
module Tiles {
  import opened Bytes
  import opened Options
  import Feedback

  const QUEUE_SIZE := 256

  /** A position as `QPoint` holds it: `int`s cast from 32-bit unsigned numbers. */
  datatype Point = Point(x: int, y: int)

  function ToInt(n: nat): int {
    if n % TWO_32 < TWO_31 then n % TWO_32 else n % TWO_32 - TWO_32
  }

  datatype Tile = Tile(x: nat, y: nat, w: nat, h: nat, frameWidth: nat, frameHeight: nat, hash: Data, data: Data)

  /** Decryption, when it is set up, the tile layout, the digest, and whether the pixels decode. */
  datatype Codec = Codec(open: Option<Data -> Data>, decode: Data -> Tile, hash: Data -> Data, drawable: Tile -> bool)

  /** What `applyTile` makes of one tile. */
  datatype Verdict = Painted | Lost | Corrupt(at: Point)

  function Judge(k: Codec, data: Data): Verdict {
    var plain := if k.open.Some? then k.open.value(data) else data;
    if k.open.Some? && plain == [] then Lost else
      var t := k.decode(plain);
      if t.w == 0 || t.h == 0 || t.data == [] || t.frameWidth == 0 || t.frameHeight == 0 then Lost
      else if t.hash != [] && k.hash(t.data) != t.hash then Corrupt(Point(ToInt(t.x), ToInt(t.y)))
      else if k.drawable(t) then Painted else Lost
  }

  /** Where the decode thread is in the handling of one tile. */
  datatype Hand =
    | Free
    | Holding(data: Data)   // taken from the queue
    | Mismatched(at: Point) // counted as lost, not yet on the resend list
    | Listed                // on the list, the timer's start not yet posted

  datatype Ack = Ack(tilesReceived: nat, tilesLost: nat, bufferLevel: nat)

  /** A resend list taken by the timer; it goes out only while the session is active. */
  datatype Batch = Batch(tiles: seq<Point>, sent: bool)

  /** A 32-bit counter, and how often it has wrapped around. */
  datatype Counter = Counter(value: nat, wraps: nat)

  /** `fetch_add(1)`. */
  function Bump(c: Counter): Counter {
    if c.value + 1 < TWO_32 then Counter(c.value + 1, c.wraps) else Counter(0, c.wraps + 1)
  }

  /** The resend list, its single-shot timer, and a log of the lists taken. */
  datatype Resend = Resend(pending: seq<Point>, starts: nat, armed: bool, batches: seq<Batch>)

  /** The tiles accepted into the queue, those of them the decode thread is done with, and the
      number that found the queue full. */
  datatype Log = Log(accepted: seq<Data>, done: seq<Data>, dropped: nat)

  /** One session. `half` is the received count of an acknowledgement whose lost count has not
      been read yet; `acks` is a log of those sent. */
  datatype State = State(queue: seq<Data>, hand: Hand, received: Counter, lost: Counter, half: Option<nat>,
                         resend: Resend, acks: seq<Ack>, log: Log)

  function Begin(): State {
    State([], Free, Counter(0, 0), Counter(0, 0), None, Resend([], 0, false, []), [], Log([], [], 0))
  }

  // ---- The atomic actions ----

  datatype Event =
    | Arrived(data: Data) // handleScreenTile
    | Decoded             // one action of the decode thread
    | AckStarted          // sendScreenAck of an active session, up to the first exchange
    | AckSent             // the rest of it
    | TimerStarted        // the posted start of the NACK timer
    | TimerFired(active: bool)

  /** The main thread finishes an acknowledgement before it does anything else. */
  predicate Enabled(s: State, e: Event) {
    match e
    case Decoded => true
    case AckSent => s.half.Some?
    case TimerStarted => s.half.None? && 0 < s.resend.starts
    case TimerFired(_) => s.half.None? && s.resend.armed
    case _ => s.half.None?
  }

  function Level(size: nat): nat {
    if size * 100 / QUEUE_SIZE < 100 then size * 100 / QUEUE_SIZE else 100
  }

  function Enqueue(s: State, data: Data): State {
    if |s.queue| < QUEUE_SIZE then s.(queue := s.queue + [data], log := s.log.(accepted := s.log.accepted + [data]))
    else s.(lost := Bump(s.lost), log := s.log.(dropped := s.log.dropped + 1))
  }

  /** An empty tile looks like an empty queue to the decode loop. */
  function Take(s: State): State {
    if s.queue == [] then s
    else if s.queue[0] == [] then s.(queue := s.queue[1..], log := s.log.(done := s.log.done + [s.queue[0]]))
    else s.(queue := s.queue[1..], hand := Holding(s.queue[0]))
  }

  function Count(s: State, data: Data, verdict: Verdict): State {
    var log := s.log.(done := s.log.done + [data]);
    match verdict
    case Painted => s.(received := Bump(s.received), hand := Free, log := log)
    case Lost => s.(lost := Bump(s.lost), hand := Free, log := log)
    case Corrupt(at) => s.(lost := Bump(s.lost), hand := Mismatched(at), log := log)
  }

  function Decode(k: Codec, s: State): State {
    match s.hand
    case Free => Take(s)
    case Holding(data) => Count(s, data, Judge(k, data))
    case Mismatched(at) => s.(hand := Listed, resend := s.resend.(pending := s.resend.pending + [at]))
    case Listed => s.(hand := Free, resend := s.resend.(starts := s.resend.starts + 1))
  }

  function StartAck(s: State): State {
    s.(half := Some(s.received.value), received := s.received.(value := 0))
  }

  function FinishAck(s: State): State
    requires s.half.Some?
  {
    s.(half := None, lost := s.lost.(value := 0), acks := s.acks + [Ack(s.half.value, s.lost.value, Level(|s.queue|))])
  }

  function Fire(r: Resend, active: bool): Resend {
    if r.pending == [] then r.(armed := false)
    else Resend([], r.starts, false, r.batches + [Batch(r.pending, active)])
  }

  function Step(k: Codec, s: State, e: Event): State
    requires Enabled(s, e)
  {
    match e
    case Arrived(data) => Enqueue(s, data)
    case Decoded => Decode(k, s)
    case AckStarted => StartAck(s)
    case AckSent => FinishAck(s)
    case TimerStarted => s.(resend := s.resend.(starts := s.resend.starts - 1, armed := true))
    case TimerFired(active) => s.(resend := Fire(s.resend, active))
  }

  // ---- The methods ----

  /** The controller's fields, and the logs as ghost fields. Its acknowledgements are methods here,
      and so never half done. */
  class TileReceiver {
    const codec: Codec
    var tileQueue: seq<Data>
    var hand: Hand
    var tilesReceived: nat
    var tilesLost: nat
    var pendingNack: seq<Point>
    var postedStarts: nat
    var nackTimerActive: bool
    ghost var receivedWraps: nat
    ghost var lostWraps: nat
    ghost var acks: seq<Ack>
    ghost var batches: seq<Batch>
    ghost var log: Log

    ghost function AsState(): State
      reads this
    {
      State(tileQueue, hand, Counter(tilesReceived, receivedWraps), Counter(tilesLost, lostWraps), None,
            Resend(pendingNack, postedStarts, nackTimerActive, batches), acks, log)
    }

    constructor (codec: Codec)
      ensures this.codec == codec && AsState() == Begin()
    {
      this.codec := codec;
      tileQueue, hand, tilesReceived, tilesLost := [], Free, 0, 0;
      pendingNack, postedStarts, nackTimerActive := [], 0, false;
      receivedWraps, lostWraps, acks, batches, log := 0, 0, [], [], Log([], [], 0);
    }

    method CountReceived()
      modifies this`tilesReceived, this`receivedWraps
      ensures Counter(tilesReceived, receivedWraps) == Bump(old(Counter(tilesReceived, receivedWraps)))
    {
      if tilesReceived + 1 < TWO_32 {
        tilesReceived := tilesReceived + 1;
      } else {
        tilesReceived, receivedWraps := 0, receivedWraps + 1;
      }
    }

    method CountLost()
      modifies this`tilesLost, this`lostWraps
      ensures Counter(tilesLost, lostWraps) == Bump(old(Counter(tilesLost, lostWraps)))
    {
      if tilesLost + 1 < TWO_32 {
        tilesLost := tilesLost + 1;
      } else {
        tilesLost, lostWraps := 0, lostWraps + 1;
      }
    }

    method HandleScreenTile(data: Data)
      modifies this
      ensures AsState() == Step(codec, old(AsState()), Arrived(data))
    {
      if |tileQueue| < QUEUE_SIZE {
        tileQueue := tileQueue + [data];
        log := log.(accepted := log.accepted + [data]);
      } else {
        CountLost();
        log := log.(dropped := log.dropped + 1);
      }
    }

    /** The decode loop's `dequeue`. */
    method TakeTile()
      requires hand.Free?
      modifies this
      ensures AsState() == Step(codec, old(AsState()), Decoded)
    {
      if tileQueue == [] {
        return;
      }
      var data := tileQueue[0];
      tileQueue := tileQueue[1..];
      if data == [] {
        log := log.(done := log.done + [data]);
      } else {
        hand := Holding(data);
      }
    }

    /** `applyTile` for the tile the decode thread has taken, when nothing comes in between. */
    method ApplyTile()
      requires hand.Holding?
      modifies this
      ensures hand == Free
      ensures
        var once := Decode(codec, old(AsState()));
        AsState() == if once.hand == Free then once else Decode(codec, Decode(codec, once))
    {
      log := log.(done := log.done + [hand.data]);
      match Judge(codec, hand.data) {
        case Painted =>
          CountReceived();
        case Lost =>
          CountLost();
        case Corrupt(at) =>
          CountLost();
          pendingNack := pendingNack + [at];
          postedStarts := postedStarts + 1;
      }
      hand := Free;
    }

    method SendScreenAck() returns (ack: Ack)
      modifies this
      ensures AsState() == Step(codec, Step(codec, old(AsState()), AckStarted), AckSent)
      ensures ack.tilesReceived == old(tilesReceived) && ack.tilesLost == old(tilesLost)
    {
      var received := tilesReceived;
      tilesReceived := 0;
      var lost := tilesLost;
      tilesLost := 0;
      ack := Ack(received, lost, Level(|tileQueue|));
      acks := acks + [ack];
    }

    method StartNackTimer()
      requires 0 < postedStarts
      modifies this
      ensures AsState() == Step(codec, old(AsState()), TimerStarted)
    {
      postedStarts, nackTimerActive := postedStarts - 1, true;
    }

    /** The timer is single-shot. Returns the tiles asked for again. */
    method SendPendingNack(active: bool) returns (requested: seq<Point>)
      requires nackTimerActive
      modifies this
      ensures AsState() == Step(codec, old(AsState()), TimerFired(active))
      ensures requested == if active then old(pendingNack) else []
    {
      nackTimerActive := false;
      if pendingNack == [] {
        return [];
      }
      var batch := pendingNack;
      pendingNack := [];
      batches := batches + [Batch(batch, active)];
      requested := if active then batch else [];
    }
  }

  // ---- What the logs say ----

  /** `None` when some event could not happen. */
  function Run(k: Codec, events: seq<Event>): Option<State> {
    if events == [] then Some(Begin()) else
      var before := Run(k, events[..|events| - 1]);
      if before.Some? && Enabled(before.value, events[|events| - 1])
      then Some(Step(k, before.value, events[|events| - 1])) else None
  }

  function Arrivals(events: seq<Event>): nat {
    if events == [] then 0
    else Arrivals(events[..|events| - 1]) + if events[|events| - 1].Arrived? then 1 else 0
  }

  function AckedReceived(acks: seq<Ack>): nat {
    if acks == [] then 0 else AckedReceived(acks[..|acks| - 1]) + acks[|acks| - 1].tilesReceived
  }

  function AckedLost(acks: seq<Ack>): nat {
    if acks == [] then 0 else AckedLost(acks[..|acks| - 1]) + acks[|acks| - 1].tilesLost
  }

  /** The tiles among `tiles` that were painted, that were not, and that were empty: those the
      decode loop takes for an empty queue. */
  function Good(k: Codec, tiles: seq<Data>): nat {
    if tiles == [] then 0
    else Good(k, tiles[..|tiles| - 1]) + if tiles[|tiles| - 1] != [] && Judge(k, tiles[|tiles| - 1]).Painted? then 1 else 0
  }

  function Bad(k: Codec, tiles: seq<Data>): nat {
    if tiles == [] then 0
    else Bad(k, tiles[..|tiles| - 1]) + if tiles[|tiles| - 1] != [] && !Judge(k, tiles[|tiles| - 1]).Painted? then 1 else 0
  }

  function Empty(tiles: seq<Data>): nat {
    if tiles == [] then 0 else Empty(tiles[..|tiles| - 1]) + if tiles[|tiles| - 1] == [] then 1 else 0
  }

  /** The positions of the corrupt tiles, in order. */
  function Corrupted(k: Codec, tiles: seq<Data>): seq<Point> {
    if tiles == [] then [] else
      var before, tile := Corrupted(k, tiles[..|tiles| - 1]), tiles[|tiles| - 1];
      if tile != [] && Judge(k, tile).Corrupt? then before + [Judge(k, tile).at] else before
  }

  function Batched(batches: seq<Batch>): seq<Point> {
    if batches == [] then [] else Batched(batches[..|batches| - 1]) + batches[|batches| - 1].tiles
  }

  function InHand(hand: Hand): seq<Data> {
    if hand.Holding? then [hand.data] else []
  }

  function ToList(hand: Hand): seq<Point> {
    if hand.Mismatched? then [hand.at] else []
  }

  function Half(half: Option<nat>): nat {
    if half.Some? then half.value else 0
  }

  /** The true number of things counted, when `acked` have been reported. */
  function Total(acked: nat, c: Counter): nat {
    acked + c.value + TWO_32 * c.wraps
  }

  predicate InOrder(queue: seq<Data>, hand: Hand, log: Log) {
    |queue| <= QUEUE_SIZE && log.accepted == log.done + (InHand(hand) + queue) && (hand.Holding? ==> hand.data != [])
  }

  predicate ReceivedCounted(k: Codec, acks: seq<Ack>, half: Option<nat>, c: Counter, done: seq<Data>) {
    Total(AckedReceived(acks) + Half(half), c) == Good(k, done)
  }

  predicate LostCounted(k: Codec, acks: seq<Ack>, c: Counter, log: Log) {
    Total(AckedLost(acks), c) == log.dropped + Bad(k, log.done)
  }

  predicate Requested(k: Codec, resend: Resend, hand: Hand, done: seq<Data>) {
    Batched(resend.batches) + resend.pending + ToList(hand) == Corrupted(k, done)
  }

  predicate TimerRuns(r: Resend, hand: Hand) {
    r.pending != [] ==> r.armed || 0 < r.starts || hand.Listed?
  }

  /** All that holds of a session while it runs. */
  predicate Kept(k: Codec, s: State) {
    && s.received.value < TWO_32 && s.lost.value < TWO_32
    && InOrder(s.queue, s.hand, s.log)
    && ReceivedCounted(k, s.acks, s.half, s.received, s.log.done)
    && LostCounted(k, s.acks, s.lost, s.log)
    && Requested(k, s.resend, s.hand, s.log.done)
    && TimerRuns(s.resend, s.hand)
  }

  // ---- Every action keeps the books ----

  lemma BumpCounts(acked: nat, c: Counter)
    requires c.value < TWO_32
    ensures Total(acked, Bump(c)) == Total(acked, c) + 1 && Bump(c).value < TWO_32
  {
  }

  lemma ReportCounts(acked: nat, c: Counter)
    ensures Total(acked + c.value, c.(value := 0)) == Total(acked, c)
  {
  }

  lemma OneMore(k: Codec, tiles: seq<Data>, tile: Data)
    ensures Good(k, tiles + [tile]) == Good(k, tiles) + if tile != [] && Judge(k, tile).Painted? then 1 else 0
    ensures Bad(k, tiles + [tile]) == Bad(k, tiles) + if tile != [] && !Judge(k, tile).Painted? then 1 else 0
    ensures Corrupted(k, tiles + [tile])
         == Corrupted(k, tiles) + if tile != [] && Judge(k, tile).Corrupt? then [Judge(k, tile).at] else []
  {
    assert (tiles + [tile])[..|tiles|] == tiles;
  }

  lemma OneMoreAck(acks: seq<Ack>, ack: Ack)
    ensures AckedReceived(acks + [ack]) == AckedReceived(acks) + ack.tilesReceived
    ensures AckedLost(acks + [ack]) == AckedLost(acks) + ack.tilesLost
  {
    assert (acks + [ack])[..|acks|] == acks;
  }

  lemma OneMoreBatch(batches: seq<Batch>, batch: Batch)
    ensures Batched(batches + [batch]) + [] == Batched(batches) + batch.tiles
  {
    assert (batches + [batch])[..|batches|] == batches;
  }

  lemma QueueOrder(done: seq<Data>, hand: seq<Data>, queue: seq<Data>, tile: Data)
    ensures done + (hand + queue) + [tile] == done + (hand + (queue + [tile]))
  {
  }

  lemma HandOrder(done: seq<Data>, queue: seq<Data>, tile: Data)
    ensures done + ([tile] + queue) == (done + [tile]) + ([] + queue)
  {
  }

  lemma HeadOrder(queue: seq<Data>)
    requires queue != []
    ensures [] + queue == [queue[0]] + queue[1..]
  {
  }

  lemma EnqueueKeeps(k: Codec, s: State, data: Data)
    requires Kept(k, s)
    ensures Kept(k, Enqueue(s, data))
  {
    QueueOrder(s.log.done, InHand(s.hand), s.queue, data);
    BumpCounts(AckedLost(s.acks), s.lost);
  }

  lemma TakeKeeps(k: Codec, s: State)
    requires Kept(k, s) && s.hand.Free?
    ensures Kept(k, Take(s))
  {
    if s.queue != [] {
      HeadOrder(s.queue);
      HandOrder(s.log.done, s.queue[1..], s.queue[0]);
      OneMore(k, s.log.done, s.queue[0]);
    }
  }

  lemma CountKeeps(k: Codec, s: State, data: Data)
    requires Kept(k, s) && s.hand == Holding(data)
    ensures Kept(k, Count(s, data, Judge(k, data)))
  {
    HandOrder(s.log.done, s.queue, data);
    OneMore(k, s.log.done, data);
    BumpCounts(AckedReceived(s.acks) + Half(s.half), s.received);
    BumpCounts(AckedLost(s.acks), s.lost);
  }

  lemma DecodeKeeps(k: Codec, s: State)
    requires Kept(k, s)
    ensures Kept(k, Decode(k, s))
  {
    match s.hand
    case Free => TakeKeeps(k, s);
    case Holding(data) => CountKeeps(k, s, data);
    case Mismatched(at) =>
      assert Batched(s.resend.batches) + (s.resend.pending + [at]) + [] == Batched(s.resend.batches) + s.resend.pending + [at];
    case Listed =>
  }

  lemma StartAckKeeps(k: Codec, s: State)
    requires Kept(k, s) && s.half.None?
    ensures Kept(k, StartAck(s))
  {
    ReportCounts(AckedReceived(s.acks), s.received);
  }

  lemma FinishAckKeeps(k: Codec, s: State)
    requires Kept(k, s) && s.half.Some?
    ensures Kept(k, FinishAck(s))
  {
    OneMoreAck(s.acks, Ack(s.half.value, s.lost.value, Level(|s.queue|)));
    ReportCounts(AckedLost(s.acks), s.lost);
  }

  lemma FireKeeps(k: Codec, s: State, active: bool)
    requires Kept(k, s)
    ensures Kept(k, s.(resend := Fire(s.resend, active)))
  {
    OneMoreBatch(s.resend.batches, Batch(s.resend.pending, active));
  }

  lemma StepKeeps(k: Codec, s: State, e: Event)
    requires Kept(k, s) && Enabled(s, e)
    ensures Kept(k, Step(k, s, e))
  {
    match e
    case Arrived(data) => EnqueueKeeps(k, s, data);
    case Decoded => DecodeKeeps(k, s);
    case AckStarted => StartAckKeeps(k, s);
    case AckSent => FinishAckKeeps(k, s);
    case TimerStarted =>
    case TimerFired(active) => FireKeeps(k, s, active);
  }

  lemma {:induction false} RunKeeps(k: Codec, events: seq<Event>)
    requires Run(k, events).Some?
    ensures Kept(k, Run(k, events).value)
    decreases |events|
  {
    if events != [] {
      var before := events[..|events| - 1];
      RunKeeps(k, before);
      StepKeeps(k, Run(k, before).value, events[|events| - 1]);
    }
  }

  lemma StepLogsArrivals(k: Codec, s: State, e: Event)
    requires Enabled(s, e)
    ensures
      var t := Step(k, s, e);
      |t.log.accepted| + t.log.dropped == |s.log.accepted| + s.log.dropped + if e.Arrived? then 1 else 0
  {
  }

  lemma {:induction false} EveryArrivalIsLogged(k: Codec, events: seq<Event>)
    requires Run(k, events).Some?
    ensures Arrivals(events) == |Run(k, events).value.log.accepted| + Run(k, events).value.log.dropped
    decreases |events|
  {
    if events != [] {
      EveryArrivalIsLogged(k, events[..|events| - 1]);
      StepLogsArrivals(k, Run(k, events[..|events| - 1]).value, events[|events| - 1]);
    }
  }

  lemma {:induction false} EveryTileIsOneOf(k: Codec, tiles: seq<Data>)
    ensures Good(k, tiles) + Bad(k, tiles) + Empty(tiles) == |tiles|
  {
    if tiles != [] {
      EveryTileIsOneOf(k, tiles[..|tiles| - 1]);
    }
  }

  lemma PaintedBalance(k: Codec, s: State)
    requires Kept(k, s)
    ensures Total(AckedReceived(s.acks) + Half(s.half), s.received) == Good(k, s.log.done)
  {
  }

  lemma LostBalance(k: Codec, s: State)
    requires Kept(k, s)
    ensures Total(AckedLost(s.acks), s.lost) == s.log.dropped + Bad(k, s.log.done)
  {
  }

  lemma AcceptedInOrder(k: Codec, s: State)
    requires Kept(k, s)
    ensures s.log.accepted == s.log.done + (InHand(s.hand) + s.queue)
  {
  }

  lemma AcceptedBalance(k: Codec, s: State)
    requires Kept(k, s)
    ensures |s.log.accepted| == Good(k, s.log.done) + Bad(k, s.log.done) + Empty(s.log.done) + |InHand(s.hand)| + |s.queue|
  {
    AcceptedInOrder(k, s);
    EveryTileIsOneOf(k, s.log.done);
  }

  /** Of the tiles that arrived, every one is acknowledged, counted, queued or in the decode
      thread's hand exactly once, except the empty ones the decode loop has taken, and what a
      counter lost by wrapping around. */
  lemma TilesAreConserved(k: Codec, events: seq<Event>, s: State)
    requires Run(k, events) == Some(s)
    ensures Total(AckedReceived(s.acks) + Half(s.half), s.received) + Total(AckedLost(s.acks), s.lost)
            + |InHand(s.hand)| + |s.queue| + Empty(s.log.done) == Arrivals(events)
  {
    RunKeeps(k, events);
    EveryArrivalIsLogged(k, events);
    PaintedBalance(k, s);
    LostBalance(k, s);
    AcceptedBalance(k, s);
  }

  /** Each side by itself: painted tiles are what is acknowledged as received, and tiles that
      found the queue full or could not be painted are what is acknowledged as lost; tiles leave
      the queue in the order they came. */
  lemma AcksTellPaintedFromLost(k: Codec, events: seq<Event>, s: State)
    requires Run(k, events) == Some(s)
    ensures Total(AckedReceived(s.acks) + Half(s.half), s.received) == Good(k, s.log.done)
    ensures Total(AckedLost(s.acks), s.lost) == s.log.dropped + Bad(k, s.log.done)
    ensures s.log.accepted == s.log.done + (InHand(s.hand) + s.queue)
  {
    RunKeeps(k, events);
    PaintedBalance(k, s);
    LostBalance(k, s);
    AcceptedInOrder(k, s);
  }

  /** The tiles that have really been asked for again. */
  function Requests(batches: seq<Batch>): seq<Point> {
    if batches == [] then []
    else Requests(batches[..|batches| - 1]) + if batches[|batches| - 1].sent then batches[|batches| - 1].tiles else []
  }

  predicate NoneEmpty(batches: seq<Batch>) {
    forall b | b in batches :: b.tiles != []
  }

  lemma {:induction false} RequestsAndLists(batches: seq<Batch>)
    requires NoneEmpty(batches)
    ensures |Requests(batches)| <= |Batched(batches)|
    ensures if forall b | b in batches :: b.sent then Requests(batches) == Batched(batches)
            else |Requests(batches)| < |Batched(batches)|
  {
    if batches != [] {
      var before, last := batches[..|batches| - 1], batches[|batches| - 1];
      RequestsAndLists(before);
      assert batches == before + [last];
    }
  }

  lemma StepListsNoneEmpty(k: Codec, s: State, e: Event)
    requires NoneEmpty(s.resend.batches) && Enabled(s, e)
    ensures NoneEmpty(Step(k, s, e).resend.batches)
  {
  }

  lemma {:induction false} ListsAreNotEmpty(k: Codec, events: seq<Event>)
    requires Run(k, events).Some?
    ensures NoneEmpty(Run(k, events).value.resend.batches)
    decreases |events|
  {
    if events != [] {
      var before := events[..|events| - 1];
      ListsAreNotEmpty(k, before);
      StepListsNoneEmpty(k, Run(k, before).value, events[|events| - 1]);
    }
  }

  /** The corrupt tiles have all been asked for again, apart from those still to come, if and only
      if no list was taken while the session was inactive: such a list is lost. */
  lemma RequestedExactly(k: Codec, events: seq<Event>, s: State)
    requires Run(k, events) == Some(s)
    ensures Requests(s.resend.batches) + s.resend.pending + ToList(s.hand) == Corrupted(k, s.log.done)
      <==> forall b | b in s.resend.batches :: b.sent
  {
    EveryCorruptTileIsListedOnce(k, events, s);
    ListsAreNotEmpty(k, events);
    RequestsAndLists(s.resend.batches);
  }

  lemma RunOn(k: Codec, events: seq<Event>, s: State, e: Event)
    requires Run(k, events) == Some(s) && Enabled(s, e)
    ensures Run(k, events + [e]) == Some(Step(k, s, e))
  {
    assert (events + [e])[..|events|] == events;
  }

  /** One corrupt tile: arrived, taken, found corrupt, listed, and the timer's start posted. */
  function AfterCorrupt(data: Data, resend: Resend): State {
    State([], Free, Counter(0, 0), Counter(1, 0), None, resend, [], Log([data], [data], 0))
  }

  lemma CorruptTileIsListed(k: Codec, data: Data, at: Point)
    requires data != [] && Judge(k, data) == Corrupt(at)
    ensures Decode(k, Decode(k, Decode(k, Decode(k, Enqueue(Begin(), data))))) == AfterCorrupt(data, Resend([at], 1, false, []))
  {
    var taken := Decode(k, Enqueue(Begin(), data));
    assert taken == Begin().(hand := Holding(data), log := Log([data], [], 0));
    var judged := Decode(k, taken);
    assert judged == AfterCorrupt(data, Resend([], 0, false, [])).(hand := Mismatched(at));
  }

  lemma RunDecodes(k: Codec, events: seq<Event>, s: State)
    requires Run(k, events) == Some(s)
    ensures Run(k, events + [Decoded, Decoded]) == Some(Decode(k, Decode(k, s)))
  {
    RunOn(k, events, s, Decoded);
    RunOn(k, events + [Decoded], Decode(k, s), Decoded);
    assert events + [Decoded] + [Decoded] == events + [Decoded, Decoded];
  }

  /** The input: one corrupt tile is listed, the timer is started, and it fires while the session
      is inactive. Nothing is left to ask for the tile again. */
  lemma InactiveTimerLosesTile(k: Codec, data: Data, at: Point)
    requires data != [] && Judge(k, data) == Corrupt(at)
    ensures
      var s := AfterCorrupt(data, Resend([], 0, false, [Batch([at], false)]));
      && Run(k, [Arrived(data)] + [Decoded, Decoded] + [Decoded, Decoded] + [TimerStarted] + [TimerFired(false)]) == Some(s)
      && Requests(s.resend.batches) == [] && Corrupted(k, s.log.done) == [at]
  {
    var events, s := [Arrived(data)], Enqueue(Begin(), data);
    assert [] + events == events;
    RunOn(k, [], Begin(), Arrived(data));
    RunDecodes(k, events, s);
    RunDecodes(k, events + [Decoded, Decoded], Decode(k, Decode(k, s)));
    CorruptTileIsListed(k, data, at);
    events, s := events + [Decoded, Decoded] + [Decoded, Decoded], AfterCorrupt(data, Resend([at], 1, false, []));
    var armed := AfterCorrupt(data, Resend([at], 0, true, []));
    RunOn(k, events, s, TimerStarted);
    assert Step(k, s, TimerStarted) == armed;
    RunOn(k, events + [TimerStarted], armed, TimerFired(false));
    assert Fire(armed.resend, false) == Resend([], 0, false, [Batch([at], false)]);
    LastIsCorrupted(k, data, at);
  }

  lemma LastIsCorrupted(k: Codec, data: Data, at: Point)
    requires data != [] && Judge(k, data) == Corrupt(at)
    ensures Corrupted(k, [data]) == [at] && Requests([Batch([at], false)]) == []
  {
    assert [] + [data] == [data];
    OneMore(k, [], data);
  }

  /** Every corrupt tile is on exactly one resend list, in the order of arrival: on one of those
      taken so far, on the one that waits, or about to be; and a list that waits has a timer
      running, or the start of one under way. */
  lemma EveryCorruptTileIsListedOnce(k: Codec, events: seq<Event>, s: State)
    requires Run(k, events) == Some(s)
    ensures Batched(s.resend.batches) + s.resend.pending + ToList(s.hand) == Corrupted(k, s.log.done)
    ensures s.resend.pending != [] ==> s.resend.armed || 0 < s.resend.starts || s.hand.Listed?
  {
    RunKeeps(k, events);
  }

  /** The backlog reaches the host: at 182 waiting tiles or more an acknowledgement makes its
      viewer a struggling one, and from 77 on it keeps the budget from growing; with fewer the
      backlog does neither. */
  lemma BacklogSlowsTheHost(c: Feedback.Client, ack: Feedback.Ack, now: nat, waiting: nat)
    requires waiting <= QUEUE_SIZE && ack.bufferLevel == Level(waiting)
    ensures
      var viewer := Feedback.Acknowledged(c, ack, now);
      && (viewer.bufferLevel > 70 <==> 182 <= waiting) && (182 <= waiting ==> Feedback.Struggles(viewer))
      && (viewer.bufferLevel < 30 <==> waiting < 77) && (77 <= waiting ==> !Feedback.Fine(viewer))
  {
  }
  // ---- Intact and altered tiles ----

  /** The tile that `data` carries, if it can be opened. */
  function Content(k: Codec, data: Data): Option<Tile> {
    if k.open.None? then Some(k.decode(data))
    else if k.open.value(data) == [] then None else Some(k.decode(k.open.value(data)))
  }

  /** The tile as it was sent: none of its parts is empty, and its digest is that of its data. */
  predicate Sealed(k: Codec, t: Tile) {
    && 0 < t.w && 0 < t.h && 0 < t.frameWidth && 0 < t.frameHeight && t.data != []
    && t.hash != [] && k.hash(t.data) == t.hash
  }

  predicate Intact(k: Codec, data: Data) {
    data != [] && Content(k, data).Some? && Sealed(k, Content(k, data).value) && k.drawable(Content(k, data).value)
  }

  /** `data` carries `t` with other bytes for its data, and the digest tells. */
  predicate Altered(k: Codec, data: Data, t: Tile) {
    && data != [] && Sealed(k, t) && Content(k, data).Some?
    && var u := Content(k, data).value;
    && u == t.(data := u.data) && u.data != [] && k.hash(u.data) != k.hash(t.data)
  }

  /** Anything left to draw. */
  predicate Filled(t: Tile) {
    0 < t.w && 0 < t.h && 0 < t.frameWidth && 0 < t.frameHeight && t.data != []
  }

  /** The digest, if there is one, is that of the data. */
  predicate Agrees(k: Codec, t: Tile) {
    t.hash == [] || t.hash == k.hash(t.data)
  }

  /** A tile is painted exactly when it can be opened, is filled, agrees with its digest and can
      be drawn, and asked for again exactly when the digest alone is to blame. */
  lemma JudgedExactly(k: Codec, data: Data)
    ensures
      var t := Content(k, data);
      && (Judge(k, data).Painted? <==> t.Some? && Filled(t.value) && Agrees(k, t.value) && k.drawable(t.value))
      && (Judge(k, data).Corrupt? <==> t.Some? && Filled(t.value) && !Agrees(k, t.value))
  {
  }

  lemma IntactIsPainted(k: Codec, data: Data)
    requires Intact(k, data)
    ensures Judge(k, data) == Painted
  {
  }

  lemma AlteredIsCorrupt(k: Codec, data: Data, t: Tile)
    requires Altered(k, data, t) && t.x < TWO_31 && t.y < TWO_31
    ensures Judge(k, data) == Corrupt(Point(t.x, t.y))
  {
  }

  lemma {:induction false} CorruptedHas(k: Codec, tiles: seq<Data>, i: nat)
    requires i < |tiles| && tiles[i] != [] && Judge(k, tiles[i]).Corrupt?
    ensures Judge(k, tiles[i]).at in Corrupted(k, tiles)
  {
    if i < |tiles| - 1 {
      CorruptedHas(k, tiles[..|tiles| - 1], i);
    }
  }

  /** An altered tile is never painted, over every run: its position is on a resend list already
      taken, on the one that waits, or about to be. */
  lemma AlteredIsListed(k: Codec, events: seq<Event>, s: State, i: nat, t: Tile)
    requires Run(k, events) == Some(s) && i < |s.log.done|
    requires Altered(k, s.log.done[i], t) && t.x < TWO_31 && t.y < TWO_31
    ensures !Judge(k, s.log.done[i]).Painted?
    ensures Point(t.x, t.y) in Batched(s.resend.batches) + s.resend.pending + ToList(s.hand)
  {
    AlteredIsCorrupt(k, s.log.done[i], t);
    CorruptedHas(k, s.log.done, i);
    EveryCorruptTileIsListedOnce(k, events, s);
  }

  lemma {:induction false} IntactAreGood(k: Codec, tiles: seq<Data>)
    requires forall d | d in tiles :: Intact(k, d)
    ensures Good(k, tiles) == |tiles| && Bad(k, tiles) == 0 && Corrupted(k, tiles) == []
  {
    if tiles != [] {
      var before, last := tiles[..|tiles| - 1], tiles[|tiles| - 1];
      IntactAreGood(k, before);
      assert last in tiles;
      IntactIsPainted(k, last);
    }
  }

  /** Intact tiles are all painted and acknowledged as received: none is lost but those that found
      the queue full, and none is asked for again. */
  lemma IntactAreAllPainted(k: Codec, events: seq<Event>, s: State)
    requires Run(k, events) == Some(s) && forall d | d in s.log.done :: Intact(k, d)
    ensures Total(AckedReceived(s.acks) + Half(s.half), s.received) == |s.log.done|
    ensures Total(AckedLost(s.acks), s.lost) == s.log.dropped
    ensures Batched(s.resend.batches) + s.resend.pending + ToList(s.hand) == []
  {
    IntactAreGood(k, s.log.done);
    AcksTellPaintedFromLost(k, events, s);
    EveryCorruptTileIsListedOnce(k, events, s);
  }

  lemma StepDrops(k: Codec, s: State, e: Event)
    requires Enabled(s, e)
    ensures Step(k, s, e).log.dropped == s.log.dropped + if e.Arrived? && QUEUE_SIZE <= |s.queue| then 1 else 0
  {
  }

  lemma QueueIsAccepted(k: Codec, events: seq<Event>)
    requires Run(k, events).Some?
    ensures |Run(k, events).value.queue| <= Arrivals(events)
  {
    RunKeeps(k, events);
    AcceptedInOrder(k, Run(k, events).value);
    EveryArrivalIsLogged(k, events);
  }

  /** However slowly they are decoded, the first 256 tiles all find room in the queue. */
  lemma {:induction false} FirstTilesFindRoom(k: Codec, events: seq<Event>)
    requires Run(k, events).Some? && Arrivals(events) <= QUEUE_SIZE
    ensures Run(k, events).value.log.dropped == 0
    decreases |events|
  {
    if events != [] {
      var before := events[..|events| - 1];
      FirstTilesFindRoom(k, before);
      QueueIsAccepted(k, before);
      StepDrops(k, Run(k, before).value, events[|events| - 1]);
    }
  }
}
