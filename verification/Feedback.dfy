/**
 The feedback loop of tiled streaming: viewers acknowledge tiles, the host smooths what they
 report and adapts the number of tiles a frame may carry.
 */
module Feedback {
  import opened Bytes
  import opened Arithmetic

  const TILE_BUDGET_MIN := 24
  const TILE_BUDGET_MAX := 512
  const RTT_CEILING := 60000

  datatype Client = Client(authenticated: bool, rttMs: nat, lossPercent: nat, bufferLevel: nat, lastAckMs: nat)

  datatype Ack = Ack(timestamp: nat, roundTripMs: int, tilesReceived: nat, tilesLost: nat, bufferLevel: nat)

  // ---- One acknowledgement ----

  /** The viewer's own measurement, or the age of the frame it echoes. */
  function RttSample(ack: Ack, now: nat): int {
    if ack.roundTripMs <= 0 && 0 < ack.timestamp then now - ack.timestamp else ack.roundTripMs
  }

  /** The percentage is computed in 32 bits before the division. */
  function LossSample(ack: Ack): nat
    requires 0 < ack.tilesReceived + ack.tilesLost
  {
    Div(ack.tilesLost * 100 % TWO_32, ack.tilesReceived + ack.tilesLost)
  }

  /** `handleScreenAck`: both averages give the new sample a quarter of the weight. */
  function Acknowledged(c: Client, ack: Ack, now: nat): Client {
    var rtt := RttSample(ack, now);
    c.(rttMs := if 0 < rtt < RTT_CEILING then (if 0 < c.rttMs then (c.rttMs * 3 + rtt) / 4 else rtt) else c.rttMs,
       lossPercent := if 0 < ack.tilesReceived + ack.tilesLost then (c.lossPercent * 3 + LossSample(ack)) / 4 else c.lossPercent,
       bufferLevel := if ack.bufferLevel < 100 then ack.bufferLevel else 100,
       lastAckMs := now)
  }

  // ---- One tick ----

  type Clients = map<string, Client>

  /** The viewers whose feedback counts. */
  predicate Counts(c: Client) {
    c.authenticated && c.lastAckMs != 0
  }

  ghost predicate HaveFeedback(clients: Clients) {
    exists id :: id in clients && Counts(clients[id])
  }

  predicate Struggles(c: Client) {
    c.rttMs > 250 || c.lossPercent > 3 || c.bufferLevel > 70
  }

  predicate Fine(c: Client) {
    c.rttMs < 120 && c.lossPercent == 0 && c.bufferLevel < 30
  }

  ghost predicate Congested(clients: Clients) {
    exists id :: id in clients && Counts(clients[id]) && Struggles(clients[id])
  }

  ghost predicate Healthy(clients: Clients) {
    forall id :: id in clients && Counts(clients[id]) ==> Fine(clients[id])
  }

  function Bound(budget: int): (r: nat)
    ensures TILE_BUDGET_MIN <= r <= TILE_BUDGET_MAX
  {
    if budget < TILE_BUDGET_MIN then TILE_BUDGET_MIN
    else if TILE_BUDGET_MAX < budget then TILE_BUDGET_MAX else budget
  }

  /** `cap` is what the encoder is told; zero means no cap. */
  datatype Host = Host(clients: Clients, tiled: bool, budget: nat, cap: nat)

  function WithBudget(h: Host, budget: nat): Host {
    h.(budget := budget, cap := if TILE_BUDGET_MAX <= budget then 0 else budget)
  }

  /** `applyTileBudget`: halve when any viewer struggles, add when all are fine. */
  ghost function ApplyTileBudget(h: Host): Host {
    if !h.tiled then h.(budget := 0, cap := 0)
    else if !HaveFeedback(h.clients) then h.(budget := TILE_BUDGET_MAX, cap := 0)
    else
      var budget := if 0 < h.budget then h.budget else TILE_BUDGET_MAX;
      WithBudget(h, Bound(if Congested(h.clients) then budget / 2
                          else if Healthy(h.clients) then budget + TILE_BUDGET_MIN else budget))
  }

  class HostLoop {
    var clients: Clients
    var tiledTransport: bool
    var tileBudget: nat
    var maxTilesPerFrame: nat

    ghost function AsHost(): Host
      reads this
    {
      Host(clients, tiledTransport, tileBudget, maxTilesPerFrame)
    }

    constructor ()
      ensures AsHost() == Host(map[], false, 0, 0)
    {
      clients, tiledTransport, tileBudget, maxTilesPerFrame := map[], false, 0, 0;
    }

    method HandleScreenAck(id: string, ack: Ack, now: nat)
      modifies this
      ensures AsHost() == Step(old(AsHost()), AckArrived(id, ack, now))
    {
      if id !in clients {
        return;
      }
      var info := UpdateClient(clients[id], ack, now);
      clients := clients[id := info];
    }

    /** What an acknowledgement changes about the viewer that sent it. */
    static method UpdateClient(client: Client, ack: Ack, now: nat) returns (info: Client)
      ensures info == Acknowledged(client, ack, now)
    {
      info := client;
      var rtt := ack.roundTripMs;
      if rtt <= 0 && ack.timestamp > 0 {
        rtt := now - ack.timestamp;
      }
      if rtt > 0 && rtt < RTT_CEILING {
        info := info.(rttMs := if info.rttMs > 0 then (info.rttMs * 3 + rtt) / 4 else rtt);
      }
      var total := ack.tilesReceived + ack.tilesLost;
      if total > 0 {
        var loss := LossSample(ack);
        info := info.(lossPercent := (info.lossPercent * 3 + loss) / 4);
      }
      info := info.(bufferLevel := if ack.bufferLevel < 100 then ack.bufferLevel else 100, lastAckMs := now);
    }

    /** The worst link over all viewers that have reported. */
    method WorstLink() returns (worst: Client, haveFeedback: bool)
      ensures haveFeedback <==> HaveFeedback(clients)
      ensures Struggles(worst) <==> Congested(clients)
      ensures Fine(worst) <==> Healthy(clients)
    {
      worst, haveFeedback := Client(true, 0, 0, 0, 0), false;
      var left := clients.Keys;
      while left != {}
        invariant left <= clients.Keys
        invariant haveFeedback <==> HaveFeedback(clients - left)
        invariant Struggles(worst) <==> Congested(clients - left)
        invariant Fine(worst) <==> Healthy(clients - left)
        decreases left
      {
        var id :| id in left;
        var info := clients[id];
        Extend(clients, left, id);
        left := left - {id};
        if !info.authenticated || info.lastAckMs == 0 {
          continue;
        }
        haveFeedback := true;
        worst := worst.(rttMs := Max(worst.rttMs, info.rttMs),
                        lossPercent := Max(worst.lossPercent, info.lossPercent),
                        bufferLevel := Max(worst.bufferLevel, info.bufferLevel));
      }
      assert clients - left == clients;
    }

    method RunApplyTileBudget()
      modifies this`tileBudget, this`maxTilesPerFrame
      ensures AsHost() == ApplyTileBudget(old(AsHost()))
    {
      if !tiledTransport {
        tileBudget, maxTilesPerFrame := 0, 0;
        return;
      }
      var worst, haveFeedback := WorstLink();
      if !haveFeedback {
        tileBudget, maxTilesPerFrame := TILE_BUDGET_MAX, 0;
        return;
      }
      var budget := if tileBudget > 0 then tileBudget else TILE_BUDGET_MAX;
      if Struggles(worst) {
        budget := budget / 2;
      } else if Fine(worst) {
        budget := budget + TILE_BUDGET_MIN;
      }
      tileBudget := Bound(budget);
      maxTilesPerFrame := if tileBudget >= TILE_BUDGET_MAX then 0 else tileBudget;
    }
  }

  /** Looking at one more viewer. */
  lemma Extend(clients: Clients, left: set<string>, id: string)
    requires id in left && left <= clients.Keys
    ensures HaveFeedback(clients - (left - {id})) <==> HaveFeedback(clients - left) || Counts(clients[id])
    ensures Congested(clients - (left - {id}))
       <==> Congested(clients - left) || (Counts(clients[id]) && Struggles(clients[id]))
    ensures Healthy(clients - (left - {id}))
       <==> Healthy(clients - left) && (Counts(clients[id]) ==> Fine(clients[id]))
  {
    var less, more := clients - left, clients - (left - {id});
    assert id in more && more[id] == clients[id];
    assert forall k :: k in less ==> k in more && more[k] == less[k];
    assert forall k :: k in more ==> k == id || (k in less && less[k] == more[k]);
    if HaveFeedback(less) {
      var k :| k in less && Counts(less[k]);
      assert k in more;
    }
    if Congested(less) {
      var k :| k in less && Counts(less[k]) && Struggles(less[k]);
      assert k in more;
    }
  }

  // ---- Runs ----

  datatype Event = AckArrived(id: string, ack: Ack, now: nat) | Tick

  /** `onQualityTimer` does nothing without an authenticated viewer, or off tiled transport. */
  ghost function Step(h: Host, e: Event): Host {
    match e
    case AckArrived(id, ack, now) =>
      if id in h.clients then h.(clients := h.clients[id := Acknowledged(h.clients[id], ack, now)]) else h
    case Tick =>
      if h.tiled && exists id :: id in h.clients && h.clients[id].authenticated then ApplyTileBudget(h) else h
  }

  ghost function Run(h: Host, events: seq<Event>): Host {
    if events == [] then h else Step(Run(h, events[..|events| - 1]), events[|events| - 1])
  }

  /** The ranges the fields always stay in. */
  ghost predicate InRange(h: Host) {
    && (forall id :: id in h.clients ==>
          h.clients[id].rttMs < RTT_CEILING && h.clients[id].lossPercent <= 100 && h.clients[id].bufferLevel <= 100)
    && (h.budget == 0 || TILE_BUDGET_MIN <= h.budget <= TILE_BUDGET_MAX)
  }

  /** The sample is the percentage of the tiles lost, rounded down, while a hundred times their
      number fits 32 bits. */
  lemma LossIsExact(ack: Ack)
    requires 0 < ack.tilesReceived + ack.tilesLost && ack.tilesLost * 100 < TWO_32
    ensures
      var total := ack.tilesReceived + ack.tilesLost;
      LossSample(ack) * total <= 100 * ack.tilesLost < (LossSample(ack) + 1) * total
  {
    DivExact(ack.tilesLost * 100, ack.tilesReceived + ack.tilesLost);
  }

  lemma LossIsPercent(ack: Ack)
    requires 0 < ack.tilesReceived + ack.tilesLost
    ensures LossSample(ack) <= 100
  {
    var total := ack.tilesReceived + ack.tilesLost;
    assert ack.tilesLost * 100 % TWO_32 <= 100 * total;
    DivBound(ack.tilesLost * 100 % TWO_32, 100, total);
  }

  lemma {:induction false} RunInRange(h: Host, events: seq<Event>)
    requires InRange(h)
    ensures InRange(Run(h, events))
  {
    if events != [] {
      RunInRange(h, events[..|events| - 1]);
      var e := events[|events| - 1];
      if e.AckArrived? && 0 < e.ack.tilesReceived + e.ack.tilesLost {
        LossIsPercent(e.ack);
      }
    }
  }

  // ---- The closed loop ----

  /** A loss-free acknowledgement over a good link. */
  predicate Good(ack: Ack, now: nat) {
    1 <= RttSample(ack, now) < 120 && 0 < ack.tilesReceived && ack.tilesLost == 0 && ack.bufferLevel < 30 && now != 0
  }

  predicate GoodEvent(e: Event) {
    e.AckArrived? ==> Good(e.ack, e.now)
  }

  predicate AllGood(events: seq<Event>) {
    forall i | 0 <= i < |events| :: GoodEvent(events[i])
  }

  function AcksFrom(id: string, events: seq<Event>): nat {
    if events == [] then 0
    else
      var e := events[|events| - 1];
      AcksFrom(id, events[..|events| - 1]) + (if e.AckArrived? && e.id == id then 1 else 0)
  }

  function Ticks(events: seq<Event>): nat {
    if events == [] then 0 else Ticks(events[..|events| - 1]) + (if events[|events| - 1].Tick? then 1 else 0)
  }

  /** The worst averages after `n` good acknowledgements. */
  function WorstRtt(n: nat): nat {
    if n == 0 then RTT_CEILING - 1 else (WorstRtt(n - 1) * 3 + 119) / 4
  }

  function WorstLoss(n: nat): nat {
    if n == 0 then 100 else WorstLoss(n - 1) * 3 / 4
  }

  const WORST_RTT := [
    59999, 45029, 33801, 25380, 19064, 14327, 10775, 8111, 6113, 4614, 3490, 2647, 2015, 1541, 1185, 918,
    718, 568, 455, 371, 308, 260, 224, 197, 177, 162, 151, 143, 137, 132, 128, 125, 123, 122, 121, 120, 119]

  const WORST_LOSS := [100, 75, 56, 42, 31, 23, 17, 12, 9, 6, 4, 3, 2, 1, 0]

  lemma {:induction false} WorstRttValues(n: nat)
    requires n < |WORST_RTT|
    ensures WorstRtt(n) == WORST_RTT[n]
  {
    if 0 < n {
      WorstRttValues(n - 1);
    }
  }

  lemma {:induction false} WorstLossValues(n: nat)
    requires n < |WORST_LOSS|
    ensures WorstLoss(n) == WORST_LOSS[n]
  {
    if 0 < n {
      WorstLossValues(n - 1);
    }
  }

  /** Thirty-six acknowledgements bring the round-trip time below 120 for good. */
  lemma {:induction false} WorstRttStays(n: nat)
    requires 36 <= n
    ensures WorstRtt(n) == 119
  {
    if n == 36 {
      WorstRttValues(n);
    } else {
      WorstRttStays(n - 1);
    }
  }

  /** Fourteen acknowledgements clear the loss for good. */
  lemma {:induction false} WorstLossStays(n: nat)
    requires 14 <= n
    ensures WorstLoss(n) == 0
  {
    if n == 14 {
      WorstLossValues(n);
    } else {
      WorstLossStays(n - 1);
    }
  }

  /** What a good acknowledgement does to the averages. */
  lemma GoodAverages(c: Client, ack: Ack, now: nat)
    requires Good(ack, now)
    ensures
      var a, rtt := Acknowledged(c, ack, now), RttSample(ack, now);
      && a.rttMs == (if 0 < c.rttMs then (c.rttMs * 3 + rtt) / 4 else rtt)
      && a.lossPercent == c.lossPercent * 3 / 4
      && a.bufferLevel == ack.bufferLevel && a.lastAckMs == now && a.authenticated == c.authenticated
  {
    assert ack.tilesLost * 100 % TWO_32 == 0;
    DivBound(0, 0, ack.tilesReceived + ack.tilesLost);
  }

  function Repeated(c: Client, ack: Ack, now: nat, n: nat): Client {
    if n == 0 then c else Acknowledged(Repeated(c, ack, now, n - 1), ack, now)
  }

  /** The bounds are exact: from the worst averages, `n` good acknowledgements that each report
      119 ms give just these values, so that thirteen and thirty-five do not suffice. */
  lemma {:induction false} WorstIsReached(c: Client, ack: Ack, now: nat, n: nat)
    requires c.rttMs == RTT_CEILING - 1 && c.lossPercent == 100
    requires Good(ack, now) && RttSample(ack, now) == 119
    ensures Repeated(c, ack, now, n).rttMs == WorstRtt(n)
    ensures Repeated(c, ack, now, n).lossPercent == WorstLoss(n)
  {
    if 0 < n {
      WorstIsReached(c, ack, now, n - 1);
      RttFloor(n - 1);
      GoodAverages(Repeated(c, ack, now, n - 1), ack, now);
    }
  }

  /** What `n` good acknowledgements guarantee about a viewer. */
  predicate Settling(c: Client, n: nat) {
    && c.rttMs <= WorstRtt(n) && c.lossPercent <= WorstLoss(n)
    && (0 < n ==> c.bufferLevel < 30 && c.lastAckMs != 0)
  }

  lemma GoodAckSettles(c: Client, n: nat, ack: Ack, now: nat)
    requires Settling(c, n) && Good(ack, now)
    ensures Settling(Acknowledged(c, ack, now), n + 1)
    ensures Acknowledged(c, ack, now).authenticated == c.authenticated
  {
    GoodAverages(c, ack, now);
    RttFloor(n);
  }

  lemma {:induction false} RttFloor(n: nat)
    ensures 119 <= WorstRtt(n)
  {
    if 0 < n {
      RttFloor(n - 1);
    }
  }

  lemma {:induction false} RunSettles(h: Host, events: seq<Event>, id: string)
    requires InRange(h) && AllGood(events) && id in h.clients
    ensures
      var h' := Run(h, events);
      && h'.tiled == h.tiled && h'.clients.Keys == h.clients.Keys
      && h'.clients[id].authenticated == h.clients[id].authenticated
      && Settling(h'.clients[id], AcksFrom(id, events))
  {
    if events != [] {
      var before, e := events[..|events| - 1], events[|events| - 1];
      RunSettles(h, before, id);
      assert GoodEvent(e);
      if e.AckArrived? && e.id == id {
        GoodAckSettles(Run(h, before).clients[id], AcksFrom(id, before), e.ack, e.now);
      }
    }
  }

  /** Every authenticated viewer has reported a good link. */
  ghost predicate Settled(h: Host) {
    && h.tiled
    && (exists id :: id in h.clients && h.clients[id].authenticated)
    && (forall id :: id in h.clients && h.clients[id].authenticated ==> h.clients[id].lastAckMs != 0 && Fine(h.clients[id]))
  }

  lemma SettledStays(h: Host, e: Event)
    requires Settled(h) && GoodEvent(e)
    ensures Settled(Step(h, e))
    ensures e.AckArrived? ==> Step(h, e).budget == h.budget && Step(h, e).cap == h.cap
    ensures e.Tick? ==>
      Step(h, e) == WithBudget(h, Bound((if 0 < h.budget then h.budget else TILE_BUDGET_MAX) + TILE_BUDGET_MIN))
  {
    var admin :| admin in h.clients && h.clients[admin].authenticated;
    if e.AckArrived? {
      assert admin in Step(h, e).clients && Step(h, e).clients[admin].authenticated;
    } else {
      assert Counts(h.clients[admin]);
    }
  }

  lemma {:induction false} BudgetRecovers(h: Host, events: seq<Event>)
    requires Settled(h) && InRange(h) && AllGood(events)
    ensures
      var h' := Run(h, events);
      && Settled(h')
      && (0 < Ticks(events) ==>
            && Min(TILE_BUDGET_MAX, TILE_BUDGET_MIN + TILE_BUDGET_MIN * Ticks(events)) <= h'.budget <= TILE_BUDGET_MAX
            && h'.cap == if TILE_BUDGET_MAX <= h'.budget then 0 else h'.budget)
      && (Ticks(events) == 0 ==> h'.budget == h.budget)
  {
    if events != [] {
      var before, e := events[..|events| - 1], events[|events| - 1];
      BudgetRecovers(h, before);
      assert GoodEvent(e);
      SettledStays(Run(h, before), e);
    }
  }

  /** The closed loop recovers: from any state the host can be in, once every authenticated
      viewer has sent thirty-six loss-free acknowledgements over a good link, in any
      interleaving with the timer, twenty-one further ticks lift the cap, and it stays lifted
      while the links stay good. */
  lemma CapIsLifted(h: Host, first: seq<Event>, then': seq<Event>)
    requires InRange(h) && h.tiled && (exists id :: id in h.clients && h.clients[id].authenticated)
    requires AllGood(first) && AllGood(then')
    requires forall id :: id in h.clients && h.clients[id].authenticated ==> 36 <= AcksFrom(id, first)
    requires 21 <= Ticks(then')
    ensures
      var h' := Run(Run(h, first), then');
      h'.budget == TILE_BUDGET_MAX && h'.cap == 0
  {
    var mid := Run(h, first);
    var one :| one in h.clients && h.clients[one].authenticated;
    RunSettles(h, first, one);
    forall id | id in mid.clients && mid.clients[id].authenticated
      ensures mid.clients[id].lastAckMs != 0 && Fine(mid.clients[id])
    {
      RunSettles(h, first, id);
      WorstRttStays(AcksFrom(id, first));
      WorstLossStays(AcksFrom(id, first));
    }
    RunInRange(h, first);
    BudgetRecovers(mid, then');
  }

  // ---- Bad links ----

  datatype Trouble = Losing | Lagging | Flooded

  /** At least seven tiles in a hundred are lost. */
  predicate Loses(ack: Ack) {
    && 0 < ack.tilesReceived + ack.tilesLost && 7 * (ack.tilesReceived + ack.tilesLost) <= 100 * ack.tilesLost
    && ack.tilesLost * 100 < TWO_32
  }

  /** At least 254 ms, by the viewer's own measurement or, without one, by the echo. */
  predicate Lags(ack: Ack, now: nat) {
    if 0 < ack.roundTripMs then 254 <= ack.roundTripMs < RTT_CEILING
    else 0 < ack.timestamp && 254 <= now - ack.timestamp < RTT_CEILING
  }

  predicate Reports(trouble: Trouble, ack: Ack, now: nat) {
    match trouble
    case Losing => Loses(ack)
    case Lagging => Lags(ack, now)
    case Flooded => 70 < ack.bufferLevel
  }

  /** Every acknowledgement of the viewer reports the trouble. */
  predicate AllReport(trouble: Trouble, id: string, events: seq<Event>) {
    forall i | 0 <= i < |events| && events[i].AckArrived? && events[i].id == id ::
      Reports(trouble, events[i].ack, events[i].now) && events[i].now != 0
  }

  /** The least average after `n` samples of 7, or of 254. */
  function Least(sample: nat, n: nat): nat {
    if n == 0 then 0 else (Least(sample, n - 1) * 3 + sample) / 4
  }

  const LEAST_LOSS := [0, 1, 2, 3, 4]
  const LEAST_RTT := [0, 63, 110, 146, 173, 193, 208, 219, 227, 233, 238, 242, 245, 247, 248, 249, 250, 251]

  lemma {:induction false} LeastLoss(n: nat)
    ensures Least(7, n) == if n < |LEAST_LOSS| then LEAST_LOSS[n] else 4
  {
    if 0 < n {
      LeastLoss(n - 1);
    }
  }

  lemma {:induction false} LeastRtt(n: nat)
    ensures Least(254, n) == if n < |LEAST_RTT| then LEAST_RTT[n] else 251
  {
    if 0 < n {
      LeastRtt(n - 1);
    }
  }

  /** What `n` such acknowledgements guarantee. */
  predicate Suffers(trouble: Trouble, c: Client, n: nat) {
    && (0 < n ==> c.lastAckMs != 0)
    && match trouble
       case Losing => Least(7, n) <= c.lossPercent
       case Lagging => Least(254, n) <= c.rttMs
       case Flooded => 0 < n ==> 70 < c.bufferLevel
  }

  lemma SampleOfLoss(ack: Ack)
    requires Loses(ack)
    ensures 7 <= LossSample(ack)
  {
    LossIsExact(ack);
    var total := ack.tilesReceived + ack.tilesLost;
    if LossSample(ack) < 7 {
      MulOrder(LossSample(ack), 7, total);
    }
  }

  lemma ReportAdds(trouble: Trouble, c: Client, n: nat, ack: Ack, now: nat)
    requires Suffers(trouble, c, n) && Reports(trouble, ack, now) && now != 0
    ensures Suffers(trouble, Acknowledged(c, ack, now), n + 1)
  {
    if trouble.Losing? {
      SampleOfLoss(ack);
    } else {
      LeastRtt(n);
    }
  }

  lemma {:induction false} RunSuffers(h: Host, trouble: Trouble, id: string, events: seq<Event>)
    requires id in h.clients && AllReport(trouble, id, events)
    ensures
      var h' := Run(h, events);
      && id in h'.clients && h'.clients[id].authenticated == h.clients[id].authenticated
      && h'.tiled == h.tiled && Suffers(trouble, h'.clients[id], AcksFrom(id, events))
  {
    if events != [] {
      var before, e := events[..|events| - 1], events[|events| - 1];
      RunSuffers(h, trouble, id, before);
      if e.AckArrived? && e.id == id {
        ReportAdds(trouble, Run(h, before).clients[id], AcksFrom(id, before), e.ack, e.now);
      }
    }
  }

  function Enough(trouble: Trouble): nat {
    match trouble
    case Losing => 4
    case Lagging => 17
    case Flooded => 1
  }

  /** Trouble is noticed: whatever the averages were and whatever the others report, four
      acknowledgements in a row with seven percent lost, seventeen of at least 254 ms, or a single
      one with a full buffer make the viewer a struggling one, and the next tick halves the
      budget. */
  lemma TroubleHalves(h: Host, trouble: Trouble, id: string, events: seq<Event>)
    requires id in h.clients && h.clients[id].authenticated && AllReport(trouble, id, events)
    requires Enough(trouble) <= AcksFrom(id, events)
    ensures
      var h' := Run(h, events);
      && id in h'.clients && Struggles(h'.clients[id])
      && (h.tiled ==> Step(h', Tick) == WithBudget(h', Bound((if 0 < h'.budget then h'.budget else TILE_BUDGET_MAX) / 2)))
  {
    RunSuffers(h, trouble, id, events);
    LeastLoss(AcksFrom(id, events));
    LeastRtt(AcksFrom(id, events));
    var h' := Run(h, events);
    assert Counts(h'.clients[id]) && Struggles(h'.clients[id]);
  }

  /** Less than seven percent lost, at most 253 ms or no usable time, and room in the buffer. */
  predicate Mild(ack: Ack, now: nat) {
    && ack.tilesLost * 100 < TWO_32
    && (0 < ack.tilesReceived + ack.tilesLost ==> 100 * ack.tilesLost < 7 * (ack.tilesReceived + ack.tilesLost))
    && (if 0 < ack.roundTripMs then ack.roundTripMs <= 253 || RTT_CEILING <= ack.roundTripMs
        else 0 < ack.timestamp ==> now - ack.timestamp <= 253 || RTT_CEILING <= now - ack.timestamp)
    && ack.bufferLevel <= 70
  }

  lemma MildKeeps(c: Client, ack: Ack, now: nat)
    requires !Struggles(c) && 0 < c.rttMs && Mild(ack, now)
    ensures !Struggles(Acknowledged(c, ack, now)) && 0 < Acknowledged(c, ack, now).rttMs
  {
    if 0 < ack.tilesReceived + ack.tilesLost {
      SampleOfMildLoss(ack);
    }
  }

  lemma SampleOfMildLoss(ack: Ack)
    requires 0 < ack.tilesReceived + ack.tilesLost && ack.tilesLost * 100 < TWO_32
    requires 100 * ack.tilesLost < 7 * (ack.tilesReceived + ack.tilesLost)
    ensures LossSample(ack) <= 6
  {
    LossIsExact(ack);
    if 6 < LossSample(ack) {
      MulOrder(6, LossSample(ack), ack.tilesReceived + ack.tilesLost);
    }
  }

  /** No false alarm: just below these bounds a viewer that does not struggle never will, once it
      has an average; the very first sample counts in full. */
  lemma {:induction false} MildNeverStruggles(h: Host, id: string, events: seq<Event>)
    requires id in h.clients && !Struggles(h.clients[id]) && 0 < h.clients[id].rttMs
    requires forall i | 0 <= i < |events| && events[i].AckArrived? && events[i].id == id :: Mild(events[i].ack, events[i].now)
    ensures
      var h' := Run(h, events);
      id in h'.clients && !Struggles(h'.clients[id]) && 0 < h'.clients[id].rttMs
  {
    if events != [] {
      var before, e := events[..|events| - 1], events[|events| - 1];
      MildNeverStruggles(h, id, before);
      if e.AckArrived? && e.id == id {
        MildKeeps(Run(h, before).clients[id], e.ack, e.now);
      }
    }
  }

  /** A tick lowers the budget exactly when some viewer struggles, raises it exactly when all are
      fine, and in between leaves it alone; without feedback there is no limit. */
  lemma BudgetMovesExactly(h: Host)
    requires h.tiled && TILE_BUDGET_MIN <= h.budget <= TILE_BUDGET_MAX
    requires exists id :: id in h.clients && h.clients[id].authenticated
    ensures
      var next := Step(h, Tick);
      if HaveFeedback(h.clients)
      then && (next.budget < h.budget <==> Congested(h.clients) && TILE_BUDGET_MIN < h.budget)
           && (h.budget < next.budget <==> Healthy(h.clients) && h.budget < TILE_BUDGET_MAX)
           && (next.cap == if next.budget == TILE_BUDGET_MAX then 0 else next.budget)
      else next.budget == TILE_BUDGET_MAX && next.cap == 0
  {
    if HaveFeedback(h.clients) && Healthy(h.clients) {
      var id :| id in h.clients && Counts(h.clients[id]);
      assert !Congested(h.clients);
    }
  }

  /** Off tiled transport there is neither a budget nor a cap, whatever the viewers report. */
  lemma OffTiledIsUnlimited(h: Host)
    requires !h.tiled
    ensures ApplyTileBudget(h) == Host(h.clients, false, 0, 0)
  {
  }

  // ---- Congestion and recovery, exactly ----

  /** The budget after `n` ticks under one and the same verdict. */
  function TicksOf(congested: bool, budget: nat, n: nat): nat {
    if n == 0 then budget
    else
      var b := TicksOf(congested, budget, n - 1);
      Bound(if congested then b / 2 else b + TILE_BUDGET_MIN)
  }

  function Halved(budget: nat, n: nat): nat {
    if n == 0 then budget else Halved(budget, n - 1) / 2
  }

  lemma {:induction false} HalvedIsQuotient(budget: nat, n: nat)
    ensures Halved(budget, n) == budget / Pow2(n)
  {
    if 0 < n {
      HalvedIsQuotient(budget, n - 1);
      DivTwice(budget, Pow2(n - 1));
    }
  }

  lemma {:induction false} CongestedTicks(budget: nat, n: nat)
    requires TILE_BUDGET_MIN <= budget <= TILE_BUDGET_MAX
    ensures TicksOf(true, budget, n) == Max(TILE_BUDGET_MIN, Halved(budget, n))
    ensures Halved(budget, n) <= TILE_BUDGET_MAX
  {
    if 0 < n {
      CongestedTicks(budget, n - 1);
    }
  }

  lemma {:induction false} HealthyTicks(budget: nat, n: nat)
    requires TILE_BUDGET_MIN <= budget <= TILE_BUDGET_MAX
    ensures TicksOf(false, budget, n) == Min(TILE_BUDGET_MAX, budget + TILE_BUDGET_MIN * n)
  {
    if 0 < n {
      HealthyTicks(budget, n - 1);
    }
  }

  function Timer(n: nat): (events: seq<Event>)
    ensures |events| == n
  {
    if n == 0 then [] else Timer(n - 1) + [Tick]
  }

  /** While the viewers report nothing new, every tick of the timer reaches the same verdict. */
  lemma {:induction false} TimerRun(h: Host, congested: bool, n: nat)
    requires h.tiled && TILE_BUDGET_MIN <= h.budget <= TILE_BUDGET_MAX && HaveFeedback(h.clients)
    requires if congested then Congested(h.clients) else Healthy(h.clients)
    ensures
      var h' := Run(h, Timer(n));
      && h'.tiled && h'.clients == h.clients && h'.budget == TicksOf(congested, h.budget, n)
      && (0 < n ==> h'.cap == if h'.budget == TILE_BUDGET_MAX then 0 else h'.budget)
  {
    if 0 < n {
      TimerRun(h, congested, n - 1);
      assert Timer(n)[..n - 1] == Timer(n - 1);
      TickDecides(Run(h, Timer(n - 1)), congested);
    }
  }

  lemma TickDecides(h: Host, congested: bool)
    requires h.tiled && 0 < h.budget && HaveFeedback(h.clients)
    requires if congested then Congested(h.clients) else Healthy(h.clients)
    ensures Step(h, Tick) == WithBudget(h, Bound(if congested then h.budget / 2 else h.budget + TILE_BUDGET_MIN))
  {
    var id :| id in h.clients && Counts(h.clients[id]);
  }

  /** `n` ticks with a struggling viewer halve the budget `n` times, down to the minimum: exactly
      max(24, b / 2^n), as `HalvedIsQuotient` says. */
  lemma CongestionHalves(h: Host, n: nat)
    requires h.tiled && TILE_BUDGET_MIN <= h.budget <= TILE_BUDGET_MAX
    requires HaveFeedback(h.clients) && Congested(h.clients)
    ensures Run(h, Timer(n)).budget == Max(TILE_BUDGET_MIN, Halved(h.budget, n))
  {
    TimerRun(h, true, n);
    CongestedTicks(h.budget, n);
  }

  /** `n` ticks with good links only give exactly min(512, b + 24 n). */
  lemma HealthAdds(h: Host, n: nat)
    requires h.tiled && TILE_BUDGET_MIN <= h.budget <= TILE_BUDGET_MAX
    requires HaveFeedback(h.clients) && Healthy(h.clients)
    ensures Run(h, Timer(n)).budget == Min(TILE_BUDGET_MAX, h.budget + TILE_BUDGET_MIN * n)
  {
    TimerRun(h, false, n);
    HealthyTicks(h.budget, n);
  }

  lemma DivTwice(a: nat, p: nat)
    requires 1 <= p
    ensures a / p / 2 == a / (2 * p)
  {
    var q, r := a / p, a % p;
    var half := q / 2;
    assert a == q * p + r;
    DoubleProduct(half, p);
    if q == 2 * half {
      Quotient(a, half, r, 2 * p);
    } else {
      assert (2 * half + 1) * p == 2 * half * p + p;
      Quotient(a, half, p + r, 2 * p);
    }
  }

  lemma DoubleProduct(half: nat, p: nat)
    ensures half * (2 * p) == 2 * half * p
  {
  }

  lemma Quotient(a: nat, q: nat, r: nat, p: nat)
    requires 1 <= p && r < p && a == q * p + r
    ensures a / p == q
  {
    var q' := a / p;
    assert q' * p <= a < q' * p + p;
    if q < q' {
      MulOrder(q, q', p);
    } else if q' < q {
      MulOrder(q', q, p);
    }
  }
}
