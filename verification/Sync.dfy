/**
 Multi-device sync: a snapshot of the rows of one replica is merged into another, the later
 `updated_at` winning and ties going to the snapshot.
 */
module Sync {

  datatype Row<V> = Row(value: V, updatedAt: int)
  type Table<V> = map<string, Row<V>>
  type Rows<V> = seq<(string, Row<V>)>

  // ---- One table ----

  /** One row of a snapshot: skipped when the local row is newer, and a local row with a
      negative timestamp never is. */
  function ApplyRow<V>(t: Table<V>, key: string, row: Row<V>): Table<V> {
    if key in t && 0 <= t[key].updatedAt && row.updatedAt < t[key].updatedAt then t else t[key := row]
  }

  function ApplyRows<V>(t: Table<V>, rows: Rows<V>): Table<V> {
    if rows == [] then t
    else
      var last := rows[|rows| - 1];
      ApplyRow(ApplyRows(t, rows[..|rows| - 1]), last.0, last.1)
  }

  /** How many of the rows were not skipped. */
  function Applied<V>(t: Table<V>, rows: Rows<V>): nat {
    if rows == [] then 0
    else
      var before, (key, row) := rows[..|rows| - 1], rows[|rows| - 1];
      var r := ApplyRows(t, before);
      Applied(t, before) + if key in r && 0 <= r[key].updatedAt && row.updatedAt < r[key].updatedAt then 0 else 1
  }

  /** The rows of a table in some order, as a SELECT without ORDER BY delivers them: every key
      once, and together the table. */
  ghost predicate Lists<R>(rows: seq<(string, R)>, t: map<string, R>) {
    if rows == [] then t == map[]
    else
      var (key, row) := rows[|rows| - 1];
      key in t && t[key] == row && Lists(rows[..|rows| - 1], t - {key})
  }

  /** The row-by-row merge as one pointwise choice. */
  function Merge<V>(t: Table<V>, u: Table<V>): Table<V> {
    map key | key in t.Keys + u.Keys ::
      if key !in u || (key in t && 0 <= t[key].updatedAt && u[key].updatedAt < t[key].updatedAt) then t[key] else u[key]
  }

  /** The order in which a snapshot lists its rows does not matter. */
  lemma {:induction false} ApplyRowsIsMerge<V>(t: Table<V>, rows: Rows<V>, u: Table<V>)
    requires Lists(rows, u)
    ensures ApplyRows(t, rows) == Merge(t, u)
    decreases |rows|
  {
    if rows != [] {
      var before, key := rows[..|rows| - 1], rows[|rows| - 1].0;
      ApplyRowsIsMerge(t, before, u - {key});
      assert Merge(t, u) == ApplyRow(Merge(t, u - {key}), key, u[key]);
    }
  }

  /** The keys whose rows the merge takes from `u`: unknown ones, and those whose local row is not
      newer. */
  function Taken<V>(t: Table<V>, u: Table<V>): set<string> {
    set key | key in u && (key in t && 0 <= t[key].updatedAt ==> t[key].updatedAt <= u[key].updatedAt)
  }

  lemma TakenNext<V>(t: Table<V>, u: Table<V>, key: string)
    requires key in u
    ensures |Taken(t, u)| == |Taken(t, u - {key})| + if key in Taken(t, u) then 1 else 0
  {
    assert Taken(t, u) == Taken(t, u - {key}) + if key in Taken(t, u) then {key} else {};
  }

  /** What the count counts: the rows taken, in whatever order the snapshot lists them. */
  lemma {:induction false} AppliedCountsTaken<V>(t: Table<V>, rows: Rows<V>, u: Table<V>)
    requires Lists(rows, u)
    ensures Applied(t, rows) == |Taken(t, u)|
    decreases |rows|
  {
    if rows != [] {
      var before, key := rows[..|rows| - 1], rows[|rows| - 1].0;
      AppliedCountsTaken(t, before, u - {key});
      ApplyRowsIsMerge(t, before, u - {key});
      TakenNext(t, u, key);
    }
  }

  /** Row by row: exactly the taken rows are the snapshot's, and a local row with a negative
      timestamp gives way to any other. */
  lemma AppliedRowByRow<V>(t: Table<V>, rows: Rows<V>, u: Table<V>)
    requires Lists(rows, u)
    ensures
      var r := ApplyRows(t, rows);
      && r.Keys == t.Keys + u.Keys
      && (forall key | key in r.Keys :: if key in Taken(t, u) then r[key] == u[key] else key in t && r[key] == t[key])
  {
    ApplyRowsIsMerge(t, rows, u);
  }

  // ---- Convergence ----

  datatype Write<V> = Write(key: string, row: Row<V>)

  /** `t` holds, for every key written in `seen`, a write with the greatest timestamp. */
  ghost predicate Reflects<V(!new)>(t: Table<V>, seen: set<Write<V>>) {
    && (forall key | key in t :: Write(key, t[key]) in seen && 0 <= t[key].updatedAt)
    && (forall w | w in seen :: w.key in t && w.row.updatedAt <= t[w.key].updatedAt)
  }

  /** At most one value was ever written for a key at a given time. */
  ghost predicate Functional<V(!new)>(seen: set<Write<V>>) {
    forall v, w | v in seen && w in seen && v.key == w.key && v.row.updatedAt == w.row.updatedAt :: v == w
  }

  lemma MergeReflects<V(!new)>(t: Table<V>, u: Table<V>, seenT: set<Write<V>>, seenU: set<Write<V>>)
    requires Reflects(t, seenT) && Reflects(u, seenU)
    ensures Reflects(Merge(t, u), seenT + seenU)
  {
  }

  lemma SameWritesSameTable<V(!new)>(t: Table<V>, u: Table<V>, seen: set<Write<V>>)
    requires Reflects(t, seen) && Reflects(u, seen) && Functional(seen)
    ensures t == u
  {
    forall key | key in t ensures key in u && t[key] == u[key] {
      var w := Write(key, t[key]);
      assert w in seen;
      assert Write(key, u[key]) in seen;
    }
    forall key | key in u ensures key in t {
      assert Write(key, u[key]) in seen;
    }
  }

  /** A group of replicas. Every snapshot ever taken stays in `sent`, so that it can be applied
      late, anywhere and any number of times. The sets record which writes a table descends from. */
  datatype Node<V(==)> = Node(table: Table<V>, seen: set<Write<V>>)
  datatype Gossip<V(==)> = Gossip(nodes: seq<Node<V>>, sent: seq<Node<V>>)

  datatype Event<V> =
    | LocalWrite(node: nat, write: Write<V>)
    | TakeSnapshot(node: nat)
    | ApplySnapshot(sent: nat, node: nat)

  /** Local clocks are non-negative and never run backwards on a key. */
  predicate Allowed<V(==)>(g: Gossip<V>, e: Event<V>) {
    match e
    case LocalWrite(i, w) =>
      && i < |g.nodes| && 0 <= w.row.updatedAt
      && (w.key in g.nodes[i].table ==> g.nodes[i].table[w.key].updatedAt <= w.row.updatedAt)
    case TakeSnapshot(i) => i < |g.nodes|
    case ApplySnapshot(m, i) => m < |g.sent| && i < |g.nodes|
  }

  function Step<V(==)>(g: Gossip<V>, e: Event<V>): Gossip<V>
    requires Allowed(g, e)
  {
    match e
    case LocalWrite(i, w) =>
      var n := g.nodes[i];
      g.(nodes := g.nodes[i := Node(n.table[w.key := w.row], n.seen + {w})])
    case TakeSnapshot(i) => g.(sent := g.sent + [g.nodes[i]])
    case ApplySnapshot(m, i) =>
      var n, s := g.nodes[i], g.sent[m];
      g.(nodes := g.nodes[i := Node(Merge(n.table, s.table), n.seen + s.seen)])
  }

  /** `count` empty replicas, and then the allowed ones of `events`. */
  function Run<V(==)>(count: nat, events: seq<Event<V>>): Gossip<V> {
    if events == [] then Gossip(seq(count, _ => Node(map[], {})), [])
    else
      var g, e := Run(count, events[..|events| - 1]), events[|events| - 1];
      if Allowed(g, e) then Step(g, e) else g
  }

  ghost predicate AllReflect<V(!new)>(nodes: seq<Node<V>>) {
    forall i | 0 <= i < |nodes| :: Reflects(nodes[i].table, nodes[i].seen)
  }

  lemma StepReflects<V(!new)>(g: Gossip<V>, e: Event<V>)
    requires Allowed(g, e) && AllReflect(g.nodes) && AllReflect(g.sent)
    ensures AllReflect(Step(g, e).nodes) && AllReflect(Step(g, e).sent)
  {
    match e
    case LocalWrite(i, w) =>
      assert Reflects(g.nodes[i].table, g.nodes[i].seen);
    case TakeSnapshot(i) =>
    case ApplySnapshot(m, i) =>
      MergeReflects(g.nodes[i].table, g.sent[m].table, g.nodes[i].seen, g.sent[m].seen);
  }

  lemma {:induction false} RunReflects<V(!new)>(count: nat, events: seq<Event<V>>)
    ensures AllReflect(Run(count, events).nodes) && AllReflect(Run(count, events).sent)
  {
    if events != [] {
      var g, e := Run(count, events[..|events| - 1]), events[|events| - 1];
      RunReflects(count, events[..|events| - 1]);
      if Allowed(g, e) {
        StepReflects(g, e);
      }
    }
  }

  /** Strong convergence: after any interleaving of local writes and snapshots, in any order and
      with any repetition, a replica holds the greatest write it has seen for every key, and
      replicas that have seen the same writes are equal. */
  lemma StrongConvergence<V(!new)>(count: nat, events: seq<Event<V>>, i: nat, j: nat)
    requires i < |Run(count, events).nodes| && j < |Run(count, events).nodes|
    ensures
      var n := Run(count, events).nodes[i];
      && (forall key | key in n.table :: Write(key, n.table[key]) in n.seen)
      && (forall w | w in n.seen :: w.key in n.table && w.row.updatedAt <= n.table[w.key].updatedAt)
    ensures
      var n, m := Run(count, events).nodes[i], Run(count, events).nodes[j];
      n.seen == m.seen && Functional(n.seen) ==> n.table == m.table
  {
    RunReflects(count, events);
    var n, m := Run(count, events).nodes[i], Run(count, events).nodes[j];
    if n.seen == m.seen && Functional(n.seen) {
      SameWritesSameTable(n.table, m.table, n.seen);
    }
  }

  /** Two replicas whose snapshots cross agree exactly when no key carries two different rows
      with the same timestamp: on such a tie the replicas swap their rows. */
  lemma CrossingSnapshotsAgree<V>(t: Table<V>, u: Table<V>)
    requires forall key | key in t :: 0 <= t[key].updatedAt
    requires forall key | key in u :: 0 <= u[key].updatedAt
    ensures Merge(t, u) == Merge(u, t)
       <==> forall key | key in t && key in u && t[key].updatedAt == u[key].updatedAt :: t[key] == u[key]
  {
    if Merge(t, u) == Merge(u, t) {
      forall key | key in t && key in u && t[key].updatedAt == u[key].updatedAt ensures t[key] == u[key] {
        assert Merge(t, u)[key] == u[key] && Merge(u, t)[key] == t[key];
      }
    }
  }

  // ---- One exchange ----

  datatype Device = Device(name: string, ip: string, port: nat, lastSeen: int, isFriend: bool)
  datatype Group = Group(name: string, memberIds: seq<string>, memberNames: seq<string>, createdAt: int)

  /** The synced columns of a message; the table is keyed by message id. */
  datatype Message = Message(
    senderId: string, senderName: string, senderIp: string, content: string, timestamp: int,
    isFile: bool, filePath: string, fileSize: int, isDirectory: bool, isImage: bool,
    imageFileName: string, replyTo: string, replyContent: string, recallId: string,
    isRecalled: bool, targetId: string, isGroup: bool, isRead: bool, readBy: string)

  type Messages = map<string, Message>

  datatype Snapshot = Snapshot(
    devices: Rows<Device>, groups: Rows<Group>, settings: Rows<string>, messages: seq<(string, Message)>)

  datatype Replica = Replica(
    devices: Table<Device>, groups: Table<Group>, settings: Table<string>, messages: Messages)

  const MESSAGE_LIMIT := 1000

  /** `SELECT ... ORDER BY timestamp DESC LIMIT limit`: `kept` are the newest messages. */
  ghost predicate Recent(rows: seq<(string, Message)>, messages: Messages, limit: nat) {
    && (forall i, j | 0 <= i < j < |rows| :: rows[j].1.timestamp <= rows[i].1.timestamp)
    && exists kept: set<string> {:trigger Newest(kept, messages, limit)} ::
         Newest(kept, messages, limit) && Lists(rows, messages - (messages.Keys - kept))
  }

  ghost predicate Newest(kept: set<string>, messages: Messages, limit: nat) {
    && kept <= messages.Keys
    && |kept| == (if |messages| <= limit then |messages| else limit)
    && (forall k, l | k in kept && l in messages.Keys - kept :: messages[l].timestamp <= messages[k].timestamp)
  }

  ghost predicate SnapshotOf(snap: Snapshot, r: Replica) {
    && Lists(snap.devices, r.devices)
    && Lists(snap.groups, r.groups)
    && Lists(snap.settings, r.settings)
    && Recent(snap.messages, r.messages, MESSAGE_LIMIT)
  }

  /** A message that arrives without an id gets the one `saveMessage` would have made. */
  function MessageKey(id: string, m: Message, decimal: int -> string): string {
    if id != [] then id else if m.recallId == [] then m.senderId + "_" + decimal(m.timestamp) else m.recallId
  }

  function ApplyMessages(messages: Messages, rows: seq<(string, Message)>, decimal: int -> string): Messages {
    if rows == [] then messages
    else
      var last := rows[|rows| - 1];
      ApplyMessages(messages, rows[..|rows| - 1], decimal)[MessageKey(last.0, last.1, decimal) := last.1]
  }

  function Apply(r: Replica, snap: Snapshot, decimal: int -> string): Replica {
    Replica(ApplyRows(r.devices, snap.devices), ApplyRows(r.groups, snap.groups),
            ApplyRows(r.settings, snap.settings), ApplyMessages(r.messages, snap.messages, decimal))
  }

  lemma {:induction false} ApplyMessagesIsUnion(messages: Messages, rows: seq<(string, Message)>, u: Messages,
                                                decimal: int -> string)
    requires Lists(rows, u) && "" !in u
    ensures ApplyMessages(messages, rows, decimal) == messages + u
    decreases |rows|
  {
    if rows != [] {
      var before, key := rows[..|rows| - 1], rows[|rows| - 1].0;
      ApplyMessagesIsUnion(messages, before, u - {key}, decimal);
      assert messages + u == (messages + (u - {key}))[key := u[key]];
    }
  }

  /** Message ids are never empty, so that the ids `saveMessage` makes stay the only ones. */
  lemma {:induction false} MessageIdsStayNonEmpty(messages: Messages, rows: seq<(string, Message)>, decimal: int -> string)
    requires "" !in messages
    ensures "" !in ApplyMessages(messages, rows, decimal)
  {
    if rows != [] {
      MessageIdsStayNonEmpty(messages, rows[..|rows| - 1], decimal);
    }
  }

  function Again(m: Message, n: nat): seq<(string, Message)> {
    if n == 0 then [] else Again(m, n - 1) + [("", m)]
  }

  /** A message without an id, however often it arrives, is one message: under its recall id, or
      else under its sender and time. */
  lemma {:induction false} IdlessIsOneMessage(messages: Messages, m: Message, n: nat, decimal: int -> string, key: string)
    requires 0 < n && key == if m.recallId != "" then m.recallId else m.senderId + "_" + decimal(m.timestamp)
    ensures ApplyMessages(messages, Again(m, n), decimal) == messages[key := m]
  {
    assert Again(m, n)[..|Again(m, n)| - 1] == Again(m, n - 1);
    if 1 < n {
      IdlessIsOneMessage(messages, m, n - 1, decimal, key);
    }
  }

  /** What a listing lists. */
  lemma {:induction false} ListsExactly<R>(rows: seq<(string, R)>, t: map<string, R>)
    requires Lists(rows, t)
    ensures |rows| == |t|
    ensures forall i | 0 <= i < |rows| :: rows[i].0 in t && t[rows[i].0] == rows[i].1
    ensures forall key | key in t :: (key, t[key]) in rows
  {
    if rows != [] {
      var before, key, row := rows[..|rows| - 1], rows[|rows| - 1].0, rows[|rows| - 1].1;
      ListsExactly(before, t - {key});
      assert rows == before + [(key, row)];
      assert t.Keys == (t - {key}).Keys + {key};
      forall k | k in t ensures (k, t[k]) in rows {
        if k != key {
          assert (k, (t - {key})[k]) in before;
        }
      }
    }
  }

  lemma ListedAreKept<R>(rows: seq<(string, R)>, t: map<string, R>, kept: set<string>)
    requires kept <= t.Keys && Lists(rows, t - (t.Keys - kept))
    ensures |rows| == |kept|
    ensures forall i | 0 <= i < |rows| :: rows[i].0 in kept && t[rows[i].0] == rows[i].1
    ensures forall key | key in kept :: (key, t[key]) in rows
  {
    ListsExactly(rows, t - (t.Keys - kept));
    assert (t - (t.Keys - kept)).Keys == kept;
  }

  /** The messages of a snapshot: as many as the limit allows, newest first, each with its own
      row, and none newer is left out. */
  lemma RecentAreTheNewest(rows: seq<(string, Message)>, messages: Messages, limit: nat)
    requires Recent(rows, messages, limit)
    ensures |rows| == if |messages| <= limit then |messages| else limit
    ensures forall i | 0 <= i < |rows| :: rows[i].0 in messages && messages[rows[i].0] == rows[i].1
    ensures forall i, j | 0 <= i < j < |rows| :: rows[j].1.timestamp <= rows[i].1.timestamp
    ensures forall key, i | key in messages && (key, messages[key]) !in rows && 0 <= i < |rows| ::
      messages[key].timestamp <= rows[i].1.timestamp
  {
    var kept :| Newest(kept, messages, limit) && Lists(rows, messages - (messages.Keys - kept));
    ListedAreKept(rows, messages, kept);
    forall key, i | key in messages && (key, messages[key]) !in rows && 0 <= i < |rows|
      ensures messages[key].timestamp <= rows[i].1.timestamp
    {
      assert key in messages.Keys - kept && rows[i].0 in kept;
    }
  }

  /** A snapshot below the limit lists every message. */
  lemma RecentIsAll(rows: seq<(string, Message)>, messages: Messages, limit: nat)
    requires Recent(rows, messages, limit) && |messages| <= limit
    ensures Lists(rows, messages)
  {
    var kept :| Newest(kept, messages, limit) && Lists(rows, messages - (messages.Keys - kept));
    SubsetOfSameSize(kept, messages.Keys);
    assert messages - (messages.Keys - kept) == messages;
  }

  lemma SubsetOfSameSize(a: set<string>, b: set<string>)
    requires a <= b && |a| == |b|
    ensures a == b
  {
    assert |b - a| == 0;
  }

  lemma SubsetIsSmaller(a: set<string>, b: set<string>)
    requires a <= b
    ensures |a| <= |b|
  {
    assert b == a + (b - a);
  }

  /** Merging back what was just merged: ties, which go to the snapshot, no longer matter. */
  lemma MergeBack<V>(t: Table<V>, u: Table<V>)
    ensures Merge(u, Merge(t, u)) == Merge(t, u)
  {
  }

  /** One exchange: the requester applies the responder's snapshot and answers with its own,
      merged, snapshot, which the responder applies. With no write in between the replicas end
      with identical device, group and setting tables, whatever the timestamps, and with
      identical messages as long as both sides together stay within the message limit. */
  lemma ExchangeEqualizes(requester: Replica, responder: Replica, answer: Snapshot, reply: Snapshot,
                          decimal: int -> string)
    requires "" !in requester.messages && "" !in responder.messages
    requires SnapshotOf(answer, responder)
    requires SnapshotOf(reply, Apply(requester, answer, decimal))
    ensures
      var a, b := Apply(requester, answer, decimal), Apply(responder, reply, decimal);
      && a.devices == b.devices && a.groups == b.groups && a.settings == b.settings
      && (|requester.messages.Keys + responder.messages.Keys| <= MESSAGE_LIMIT ==> a == b)
  {
    var a := Apply(requester, answer, decimal);
    ExchangeTables(requester.devices, responder.devices, answer.devices, reply.devices);
    ExchangeTables(requester.groups, responder.groups, answer.groups, reply.groups);
    ExchangeTables(requester.settings, responder.settings, answer.settings, reply.settings);
    if |requester.messages.Keys + responder.messages.Keys| <= MESSAGE_LIMIT {
      ExchangeMessages(requester.messages, responder.messages, answer.messages, reply.messages, a.messages, decimal);
    }
  }

  lemma ExchangeTables<V>(t: Table<V>, u: Table<V>, answer: Rows<V>, reply: Rows<V>)
    requires Lists(answer, u) && Lists(reply, ApplyRows(t, answer))
    ensures ApplyRows(u, reply) == ApplyRows(t, answer)
  {
    ApplyRowsIsMerge(t, answer, u);
    ApplyRowsIsMerge(u, reply, Merge(t, u));
    MergeBack(t, u);
  }

  lemma ExchangeMessages(t: Messages, u: Messages, answer: seq<(string, Message)>, reply: seq<(string, Message)>,
                         merged: Messages, decimal: int -> string)
    requires "" !in t && "" !in u && |t.Keys + u.Keys| <= MESSAGE_LIMIT
    requires Recent(answer, u, MESSAGE_LIMIT)
    requires merged == ApplyMessages(t, answer, decimal) && Recent(reply, merged, MESSAGE_LIMIT)
    ensures ApplyMessages(u, reply, decimal) == merged
  {
    SubsetIsSmaller(u.Keys, t.Keys + u.Keys);
    ApplyAll(t, answer, u, decimal);
    UnionAgain(t, u);
    ApplyAll(u, reply, merged, decimal);
  }

  lemma UnionAgain<R>(t: map<string, R>, u: map<string, R>)
    ensures (t + u).Keys == t.Keys + u.Keys && u + (t + u) == t + u
  {
  }

  lemma ApplyAll(t: Messages, rows: seq<(string, Message)>, u: Messages, decimal: int -> string)
    requires "" !in u && |u.Keys| <= MESSAGE_LIMIT
    requires Recent(rows, u, MESSAGE_LIMIT)
    ensures ApplyMessages(t, rows, decimal) == t + u
  {
    RecentIsAll(rows, u, MESSAGE_LIMIT);
    ApplyMessagesIsUnion(t, rows, u, decimal);
  }

  // ---- The database object ----

  class Database {
    var devices: Table<Device>
    var groups: Table<Group>
    var settings: Table<string>
    var messages: Messages

    ghost function AsReplica(): Replica
      reads this
    {
      Replica(devices, groups, settings, messages)
    }

    constructor ()
      ensures AsReplica() == Replica(map[], map[], map[], map[])
    {
      devices, groups, settings, messages := map[], map[], map[], map[];
    }

    /** The apply loop of one table; each of the three tables has its own copy in the source. */
    static method ApplyTable<V>(t: Table<V>, rows: Rows<V>) returns (r: Table<V>, applied: nat)
      ensures r == ApplyRows(t, rows) && applied == Applied(t, rows)
    {
      r, applied := t, 0;
      assert rows[..|rows|] == rows;
      for i := 0 to |rows|
        invariant r == ApplyRows(t, rows[..i]) && applied == Applied(t, rows[..i])
      {
        var (key, row) := rows[i];
        assert rows[..i + 1][..i] == rows[..i];
        var localUpdated := if key in r then r[key].updatedAt else -1;
        if localUpdated >= 0 && localUpdated > row.updatedAt {
          continue;
        }
        r := r[key := row];
        applied := applied + 1;
      }
    }

    method ApplySyncSnapshot(snap: Snapshot, decimal: int -> string) returns (applied: nat)
      modifies this
      ensures AsReplica() == Apply(old(AsReplica()), snap, decimal)
      ensures applied == Applied(old(devices), snap.devices) + Applied(old(groups), snap.groups)
                         + Applied(old(settings), snap.settings) + |snap.messages|
    {
      var devicesApplied, groupsApplied, settingsApplied;
      devices, devicesApplied := ApplyTable(devices, snap.devices);
      groups, groupsApplied := ApplyTable(groups, snap.groups);
      settings, settingsApplied := ApplyTable(settings, snap.settings);
      messages := ApplyMessageRows(messages, snap.messages, decimal);
      applied := devicesApplied + groupsApplied + settingsApplied + |snap.messages|;
    }

    static method ApplyMessageRows(t: Messages, rows: seq<(string, Message)>, decimal: int -> string) returns (r: Messages)
      ensures r == ApplyMessages(t, rows, decimal)
    {
      r := t;
      assert rows[..|rows|] == rows;
      for i := 0 to |rows|
        invariant r == ApplyMessages(t, rows[..i], decimal)
      {
        var (id, m) := rows[i];
        assert rows[..i + 1][..i] == rows[..i];
        r := r[MessageKey(id, m, decimal) := m];
      }
    }

    /** Reading a table row by row, in whatever order the database chooses. */
    static method SelectAll<V>(t: Table<V>) returns (rows: Rows<V>)
      ensures Lists(rows, t)
    {
      rows := [];
      var left := t.Keys;
      while left != {}
        invariant left <= t.Keys
        invariant Lists(rows, t - left)
      {
        var key :| key in left;
        ghost var before := rows;
        rows := rows + [(key, t[key])];
        assert rows[..|before|] == before;
        assert (t - (left - {key})) - {key} == t - left;
        left := left - {key};
      }
      assert t - left == t;
    }

    static lemma NewestExists(messages: Messages, left: set<string>) returns (key: string)
      requires left <= messages.Keys && left != {}
      ensures key in left && forall k | k in left :: messages[k].timestamp <= messages[key].timestamp
      decreases |left|
    {
      key :| key in left;
      if left != {key} {
        var other := NewestExists(messages, left - {key});
        if messages[key].timestamp <= messages[other].timestamp {
          key := other;
        }
      }
    }

    /** Reading the newest messages, newest first, up to the limit. */
    static method SelectRecent(messages: Messages, limit: nat) returns (rows: seq<(string, Message)>)
      ensures Recent(rows, messages, limit)
    {
      rows := [];
      var left := messages.Keys;
      ghost var kept: set<string> := {};
      assert messages - (messages.Keys - kept) == map[];
      while left != {} && |rows| < limit
        invariant left == messages.Keys - kept && |rows| <= limit
        invariant Selected(messages, rows, kept)
        decreases left
      {
        ghost var newest := NewestExists(messages, left);
        var key :| key in left && forall k | k in left :: messages[k].timestamp <= messages[key].timestamp;
        SelectNext(messages, rows, kept, key);
        rows := rows + [(key, messages[key])];
        kept, left := kept + {key}, left - {key};
      }
      SelectedIsRecent(messages, rows, kept, limit);
    }

    static lemma SelectedIsRecent(messages: Messages, rows: seq<(string, Message)>, kept: set<string>, limit: nat)
      requires Selected(messages, rows, kept) && |rows| <= limit
      requires kept == messages.Keys || |rows| == limit
      ensures Recent(rows, messages, limit)
    {
      SubsetIsSmaller(kept, messages.Keys);
      assert Newest(kept, messages, limit);
    }

    /** The rows selected so far are the messages in `kept`, newest first, and no older than
        any other message. */
    static ghost predicate Selected(messages: Messages, rows: seq<(string, Message)>, kept: set<string>) {
      && kept <= messages.Keys
      && |rows| == |kept|
      && Lists(rows, messages - (messages.Keys - kept))
      && (forall i | 0 <= i < |rows| :: rows[i].0 in kept && messages[rows[i].0] == rows[i].1)
      && (forall i, j | 0 <= i < j < |rows| :: rows[j].1.timestamp <= rows[i].1.timestamp)
      && (forall k, l | k in kept && l in messages.Keys - kept :: messages[l].timestamp <= messages[k].timestamp)
    }

    static lemma SelectNext(messages: Messages, rows: seq<(string, Message)>, kept: set<string>, key: string)
      requires Selected(messages, rows, kept)
      requires key in messages.Keys - kept
      requires forall k | k in messages.Keys - kept :: messages[k].timestamp <= messages[key].timestamp
      ensures Selected(messages, rows + [(key, messages[key])], kept + {key})
    {
      assert (rows + [(key, messages[key])])[..|rows|] == rows;
      assert (messages - (messages.Keys - (kept + {key}))) - {key} == messages - (messages.Keys - kept);
    }

    method BuildSyncSnapshot() returns (snap: Snapshot)
      ensures SnapshotOf(snap, AsReplica())
    {
      var deviceRows := SelectAll(devices);
      var groupRows := SelectAll(groups);
      var settingRows := SelectAll(settings);
      var messageRows := SelectRecent(messages, MESSAGE_LIMIT);
      snap := Snapshot(deviceRows, groupRows, settingRows, messageRows);
    }
  }
}
