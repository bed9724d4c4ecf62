/** The binary form of a sync snapshot: a big-endian `QDataStream` of counted lists of rows. */
module SnapshotCodec {
  import opened Bytes
  import opened Sequences

  type Word = x: int | 0 <= x < 0x1_0000
  type Long = x: int | -0x8000_0000_0000_0000 <= x < 0x8000_0000_0000_0000

  /** A `QString`: null, or UTF-16 code units. Its byte length stays below the marks of the
      stream format. */
  datatype Text = Null | Units(units: seq<Word>)
  type Str = t: Text | t.Null? || |t.units| < 0x4000_0000 witness Null

  datatype Field = FStr(s: Str) | FLong(n: Long) | FWord(w: Word) | FByte(b: Byte)
  datatype Tag = TStr | TLong | TWord | TByte

  const NULL_MARK := 0xFFFF_FFFF

  // ---- Writing ----

  function PutWord(w: Word): Data {
    [w / 256, w % 256]
  }

  function PutUnits(units: seq<Word>): (r: Data)
    ensures |r| == 2 * |units|
  {
    if units == [] then [] else PutWord(units[0]) + PutUnits(units[1..])
  }

  function PutField(f: Field): Data {
    match f
    case FStr(s) => if s.Null? then BE32(NULL_MARK) else BE32(2 * |s.units|) + PutUnits(s.units)
    case FLong(n) =>
      var m: nat := if n < 0 then n + TWO_64 else n;
      BE32(m / TWO_32) + BE32(m % TWO_32)
    case FWord(w) => PutWord(w)
    case FByte(b) => [b]
  }

  function PutFields(fields: seq<Field>): Data {
    if fields == [] then [] else PutField(fields[0]) + PutFields(fields[1..])
  }

  // ---- Reading: past the end of the data everything reads as zero or null ----

  function TakeU32(d: Data): (r: (nat, Data))
    ensures r.0 < TWO_32 && |r.1| <= |d|
  {
    if |d| < 4 then (0, []) else (FromBE32(d[..4]), d[4..])
  }

  function TakeWord(d: Data): (Word, Data) {
    if |d| < 2 then (0, []) else
      var hi: int, lo: int := d[0], d[1];
      (256 * hi + lo, d[2..])
  }

  function TakeUnits(n: nat, d: Data): (r: (seq<Word>, Data))
    ensures |r.0| == n
  {
    if n == 0 then ([], d) else
      var (w, d') := TakeWord(d);
      var (units, rest) := TakeUnits(n - 1, d');
      ([w] + units, rest)
  }

  function TakeStr(d: Data): (Str, Data) {
    var (bytes, d') := TakeU32(d);
    if bytes == NULL_MARK || bytes % 2 == 1 then (Null, d')
    else if |d'| < bytes || 0x8000_0000 <= bytes then (Null, [])
    else var (units, rest) := TakeUnits(bytes / 2, d'); (Units(units), rest)
  }

  function TakeLong(d: Data): (Long, Data) {
    if |d| < 8 then (0, []) else
      var m := FromBE32(d[..4]) * TWO_32 + FromBE32(d[4..8]);
      (if TWO_64 / 2 <= m then m - TWO_64 else m, d[8..])
  }

  function TakeField(tag: Tag, d: Data): (Field, Data) {
    match tag
    case TStr => var (s, rest) := TakeStr(d); (FStr(s), rest)
    case TLong => var (n, rest) := TakeLong(d); (FLong(n), rest)
    case TWord => var (w, rest) := TakeWord(d); (FWord(w), rest)
    case TByte => if d == [] then (FByte(0), []) else (FByte(d[0]), d[1..])
  }

  function TakeFields(tags: seq<Tag>, d: Data): (r: (seq<Field>, Data))
    ensures |r.0| == |tags|
  {
    if tags == [] then ([], d) else
      var (f, d') := TakeField(tags[0], d);
      var (fields, rest) := TakeFields(tags[1..], d');
      ([f] + fields, rest)
  }

  function TagOf(f: Field): Tag {
    match f
    case FStr(_) => TStr
    case FLong(_) => TLong
    case FWord(_) => TWord
    case FByte(_) => TByte
  }

  function TagsOf(fields: seq<Field>): seq<Tag> {
    seq(|fields|, i requires 0 <= i < |fields| => TagOf(fields[i]))
  }

  // ---- Fields come back ----

  lemma TakePut32(n: nat, rest: Data)
    requires n < TWO_32
    ensures TakeU32(BE32(n) + rest) == (n, rest)
  {
    BE32RoundTrip(n);
    assert (BE32(n) + rest)[..4] == BE32(n) && (BE32(n) + rest)[4..] == rest;
  }

  lemma {:induction false} TakePutUnits(units: seq<Word>, rest: Data)
    ensures TakeUnits(|units|, PutUnits(units) + rest) == (units, rest)
  {
    if units == [] {
      assert PutUnits(units) + rest == rest;
    } else {
      var tail := PutUnits(units[1..]) + rest;
      assert PutUnits(units) + rest == PutWord(units[0]) + tail;
      assert (PutWord(units[0]) + tail)[2..] == tail;
      TakePutUnits(units[1..], rest);
      assert [units[0]] + units[1..] == units;
    }
  }

  lemma TakePutStr(s: Str, rest: Data)
    ensures TakeStr(PutField(FStr(s)) + rest) == (s, rest)
  {
    if s.Null? {
      TakePut32(NULL_MARK, rest);
    } else {
      var body := PutUnits(s.units);
      assert PutField(FStr(s)) + rest == BE32(2 * |s.units|) + (body + rest);
      TakePut32(2 * |s.units|, body + rest);
      TakePutUnits(s.units, rest);
    }
  }

  lemma TakePutLong(n: Long, rest: Data)
    ensures TakeLong(PutField(FLong(n)) + rest) == (n, rest)
  {
    var m: nat := if n < 0 then n + TWO_64 else n;
    var hi, lo := BE32(m / TWO_32), BE32(m % TWO_32);
    var d := hi + lo + rest;
    BE32RoundTrip(m / TWO_32);
    BE32RoundTrip(m % TWO_32);
    assert d[..4] == hi && d[4..8] == lo && d[8..] == rest;
    assert m / TWO_32 * TWO_32 + m % TWO_32 == m;
  }

  lemma TakePutField(f: Field, rest: Data)
    ensures TakeField(TagOf(f), PutField(f) + rest) == (f, rest)
  {
    match f
    case FStr(s) => TakePutStr(s, rest);
    case FLong(n) => TakePutLong(n, rest);
    case FWord(w) => assert (PutWord(w) + rest)[2..] == rest;
    case FByte(b) => assert ([b] + rest)[1..] == rest;
  }

  lemma {:induction false} TakePutFields(fields: seq<Field>, rest: Data)
    ensures TakeFields(TagsOf(fields), PutFields(fields) + rest) == (fields, rest)
  {
    if fields == [] {
      assert PutFields(fields) + rest == rest;
    } else {
      var tail := PutFields(fields[1..]) + rest;
      assert PutFields(fields) + rest == PutField(fields[0]) + tail;
      TakePutField(fields[0], tail);
      TakePutFields(fields[1..], rest);
      assert TagsOf(fields)[1..] == TagsOf(fields[1..]);
      assert [fields[0]] + fields[1..] == fields;
    }
  }

  // ---- Rows ----

  datatype DeviceRow = DeviceRow(deviceId: Str, name: Str, ip: Str, port: Word, lastSeen: Long, updatedAt: Long, isFriend: bool)
  datatype GroupRow = GroupRow(groupId: Str, name: Str, memberIds: seq<Str>, memberNames: seq<Str>, createdAt: Long, updatedAt: Long)
  datatype SettingRow = SettingRow(key: Str, value: Str, updatedAt: Long)
  datatype MessageRow = MessageRow(
    messageId: Str, senderId: Str, senderName: Str, senderIp: Str, content: Str, timestamp: Long,
    isFile: bool, filePath: Str, fileSize: Long, isDirectory: bool, isImage: bool,
    imageFileName: Str, replyTo: Str, replyContent: Str, recallId: Str, isRecalled: bool,
    targetId: Str, isGroup: bool, isRead: bool, readBy: Str)

  datatype Snapshot = Snapshot(version: Long, devices: seq<DeviceRow>, groups: seq<GroupRow>,
                               settings: seq<SettingRow>, messages: seq<MessageRow>)

  function Flag(b: bool): Field {
    FByte(if b then 1 else 0)
  }

  function DeviceFields(d: DeviceRow): seq<Field> {
    [FStr(d.deviceId), FStr(d.name), FStr(d.ip), FWord(d.port), FLong(d.lastSeen), FLong(d.updatedAt), Flag(d.isFriend)]
  }

  function SettingFields(s: SettingRow): seq<Field> {
    [FStr(s.key), FStr(s.value), FLong(s.updatedAt)]
  }

  function MessageFields(m: MessageRow): seq<Field> {
    [FStr(m.messageId), FStr(m.senderId), FStr(m.senderName), FStr(m.senderIp), FStr(m.content), FLong(m.timestamp),
     Flag(m.isFile), FStr(m.filePath), FLong(m.fileSize), Flag(m.isDirectory), Flag(m.isImage),
     FStr(m.imageFileName), FStr(m.replyTo), FStr(m.replyContent), FStr(m.recallId), Flag(m.isRecalled),
     FStr(m.targetId), Flag(m.isGroup), Flag(m.isRead), FStr(m.readBy)]
  }

  const DEVICE_TAGS := [TStr, TStr, TStr, TWord, TLong, TLong, TByte]
  const SETTING_TAGS := [TStr, TStr, TLong]
  const MESSAGE_TAGS := [
    TStr, TStr, TStr, TStr, TStr, TLong, TByte, TStr, TLong, TByte, TByte,
    TStr, TStr, TStr, TStr, TByte, TStr, TByte, TByte, TStr]

  // What a field of the expected kind holds; `TakeFields` delivers no other kind.

  function AsStr(f: Field): Str { if f.FStr? then f.s else Null }
  function AsLong(f: Field): Long { if f.FLong? then f.n else 0 }
  function AsWord(f: Field): Word { if f.FWord? then f.w else 0 }
  function AsBool(f: Field): bool { f.FByte? && f.b != 0 }

  function PutDevice(d: DeviceRow): Data { PutFields(DeviceFields(d)) }
  function PutSetting(s: SettingRow): Data { PutFields(SettingFields(s)) }
  function PutMessage(m: MessageRow): Data { PutFields(MessageFields(m)) }
  function PutStr(s: Str): Data { PutField(FStr(s)) }

  function TakeDevice(d: Data): (DeviceRow, Data) {
    var (f, rest) := TakeFields(DEVICE_TAGS, d);
    (DeviceRow(AsStr(f[0]), AsStr(f[1]), AsStr(f[2]), AsWord(f[3]), AsLong(f[4]), AsLong(f[5]), AsBool(f[6])), rest)
  }

  function TakeSetting(d: Data): (SettingRow, Data) {
    var (f, rest) := TakeFields(SETTING_TAGS, d);
    (SettingRow(AsStr(f[0]), AsStr(f[1]), AsLong(f[2])), rest)
  }

  function TakeMessage(d: Data): (MessageRow, Data) {
    var (fields, rest) := TakeFields(MESSAGE_TAGS, d);
    (MessageOf(fields), rest)
  }

  function MessageOf(f: seq<Field>): MessageRow
    requires |f| == |MESSAGE_TAGS|
  {
    MessageRow(AsStr(f[0]), AsStr(f[1]), AsStr(f[2]), AsStr(f[3]), AsStr(f[4]), AsLong(f[5]),
               AsBool(f[6]), AsStr(f[7]), AsLong(f[8]), AsBool(f[9]), AsBool(f[10]),
               AsStr(f[11]), AsStr(f[12]), AsStr(f[13]), AsStr(f[14]), AsBool(f[15]),
               AsStr(f[16]), AsBool(f[17]), AsBool(f[18]), AsStr(f[19]))
  }

  // ---- Counted lists ----

  function PutAll<T>(put: T -> Data, xs: seq<T>): Data {
    if xs == [] then [] else PutAll(put, xs[..|xs| - 1]) + put(xs[|xs| - 1])
  }

  /** The count is a cast to 32 bits. */
  function PutList<T>(put: T -> Data, xs: seq<T>): Data {
    BE32(|xs| % TWO_32) + PutAll(put, xs)
  }

  function TakeAll<T>(take: Data -> (T, Data), n: nat, d: Data): (r: (seq<T>, Data))
    ensures |r.0| == n
  {
    if n == 0 then ([], d) else
      var (xs, d') := TakeAll(take, n - 1, d);
      var (x, rest) := take(d');
      (xs + [x], rest)
  }

  function TakeList<T>(take: Data -> (T, Data), d: Data): (seq<T>, Data) {
    var (n, d') := TakeU32(d);
    TakeAll(take, n, d')
  }

  /** `take` reads back what `put` writes for the given values, whatever follows. */
  ghost predicate Inverse<T>(put: T -> Data, take: Data -> (T, Data), xs: seq<T>) {
    forall x, rest {:trigger put(x) + rest} | x in xs :: take(put(x) + rest) == (x, rest)
  }

  lemma {:induction false} TakePutAll<T>(put: T -> Data, take: Data -> (T, Data), xs: seq<T>, rest: Data)
    requires Inverse(put, take, xs)
    ensures TakeAll(take, |xs|, PutAll(put, xs) + rest) == (xs, rest)
    decreases |xs|
  {
    if xs == [] {
      assert PutAll(put, xs) + rest == rest;
    } else {
      var before, x := xs[..|xs| - 1], xs[|xs| - 1];
      TakePutAll(put, take, before, put(x) + rest);
      Associate(PutAll(put, before), put(x), rest);
      assert take(put(x) + rest) == (x, rest);
      assert before + [x] == xs;
    }
  }

  lemma TakePutList<T>(put: T -> Data, take: Data -> (T, Data), xs: seq<T>, rest: Data)
    requires Inverse(put, take, xs) && |xs| < TWO_32
    ensures TakeList(take, PutList(put, xs) + rest) == (xs, rest)
  {
    assert |xs| % TWO_32 == |xs|;
    var body := PutAll(put, xs) + rest;
    Associate(BE32(|xs|), PutAll(put, xs), rest);
    TakePut32(|xs|, body);
    TakePutAll(put, take, xs, rest);
  }

  // ---- Groups and snapshots ----

  function PutGroup(g: GroupRow): Data {
    PutFields([FStr(g.groupId), FStr(g.name)]) + PutList(PutStr, g.memberIds) + PutList(PutStr, g.memberNames)
    + PutFields([FLong(g.createdAt), FLong(g.updatedAt)])
  }

  function TakeGroup(d: Data): (GroupRow, Data) {
    var (head, d1) := TakeFields([TStr, TStr], d);
    var (memberIds, d2) := TakeList(TakeStr, d1);
    var (memberNames, d3) := TakeList(TakeStr, d2);
    var (tail, rest) := TakeFields([TLong, TLong], d3);
    (GroupRow(AsStr(head[0]), AsStr(head[1]), memberIds, memberNames, AsLong(tail[0]), AsLong(tail[1])), rest)
  }

  /** The bytes of `saveSyncSnapshot`. */
  function Put(s: Snapshot): Data {
    PutField(FLong(s.version)) + PutList(PutDevice, s.devices) + PutList(PutGroup, s.groups)
    + PutList(PutSetting, s.settings) + PutList(PutMessage, s.messages)
  }

  /** The reading of `loadSyncSnapshot`, and the bytes it leaves. */
  function Take(d: Data): (Snapshot, Data) {
    var (version, d1) := TakeLong(d);
    var (devices, d2) := TakeList(TakeDevice, d1);
    var (groups, d3) := TakeList(TakeGroup, d2);
    var (settings, d4) := TakeList(TakeSetting, d3);
    var (messages, rest) := TakeList(TakeMessage, d4);
    (Snapshot(version, devices, groups, settings, messages), rest)
  }

  lemma DevicesInverse(xs: seq<DeviceRow>)
    ensures Inverse(PutDevice, TakeDevice, xs)
  {
    forall d, rest | d in xs ensures TakeDevice(PutDevice(d) + rest) == (d, rest) {
      TakePutFields(DeviceFields(d), rest);
      assert TagsOf(DeviceFields(d)) == DEVICE_TAGS;
    }
  }

  lemma SettingsInverse(xs: seq<SettingRow>)
    ensures Inverse(PutSetting, TakeSetting, xs)
  {
    forall s, rest | s in xs ensures TakeSetting(PutSetting(s) + rest) == (s, rest) {
      TakePutFields(SettingFields(s), rest);
      assert TagsOf(SettingFields(s)) == SETTING_TAGS;
    }
  }

  lemma MessageColumns(m: MessageRow)
    ensures TagsOf(MessageFields(m)) == MESSAGE_TAGS
    ensures MessageOf(MessageFields(m)) == m
  {
  }

  lemma MessagesInverse(xs: seq<MessageRow>)
    ensures Inverse(PutMessage, TakeMessage, xs)
  {
    forall m, rest | m in xs ensures TakeMessage(PutMessage(m) + rest) == (m, rest) {
      MessageColumns(m);
      TakePutFields(MessageFields(m), rest);
    }
  }

  lemma StrsInverse(xs: seq<Str>)
    ensures Inverse(PutStr, TakeStr, xs)
  {
    forall s, rest | s in xs ensures TakeStr(PutStr(s) + rest) == (s, rest) {
      TakePutStr(s, rest);
    }
  }

  predicate FitsGroup(g: GroupRow) {
    |g.memberIds| < TWO_32 && |g.memberNames| < TWO_32
  }

  /** The counts fit the 32 bits they are written in. */
  predicate Fits(s: Snapshot) {
    && |s.devices| < TWO_32 && |s.groups| < TWO_32 && |s.settings| < TWO_32 && |s.messages| < TWO_32
    && forall g | g in s.groups :: FitsGroup(g)
  }

  lemma TakePutGroup(g: GroupRow, rest: Data)
    requires FitsGroup(g)
    ensures TakeGroup(PutGroup(g) + rest) == (g, rest)
  {
    var head, tail := [FStr(g.groupId), FStr(g.name)], [FLong(g.createdAt), FLong(g.updatedAt)];
    var d3 := PutFields(tail) + rest;
    var d2 := PutList(PutStr, g.memberNames) + d3;
    var d1 := PutList(PutStr, g.memberIds) + d2;
    GroupColumns(head, tail);
    NestGroup(PutFields(head), PutList(PutStr, g.memberIds), PutList(PutStr, g.memberNames), PutFields(tail), rest);
    StrsInverse(g.memberIds);
    StrsInverse(g.memberNames);
    TakePutFields(head, d1);
    TakePutList(PutStr, TakeStr, g.memberIds, d2);
    TakePutList(PutStr, TakeStr, g.memberNames, d3);
    TakePutFields(tail, rest);
  }

  lemma GroupColumns(head: seq<Field>, tail: seq<Field>)
    requires |head| == 2 && head[0].FStr? && head[1].FStr?
    requires |tail| == 2 && tail[0].FLong? && tail[1].FLong?
    ensures TagsOf(head) == [TStr, TStr] && TagsOf(tail) == [TLong, TLong]
  {
  }

  lemma NestGroup(a: Data, b: Data, c: Data, d: Data, rest: Data)
    ensures (a + b + c + d) + rest == a + (b + (c + (d + rest)))
  {
  }

  lemma GroupsInverse(xs: seq<GroupRow>)
    requires forall g | g in xs :: FitsGroup(g)
    ensures Inverse(PutGroup, TakeGroup, xs)
  {
    forall g, rest | g in xs ensures TakeGroup(PutGroup(g) + rest) == (g, rest) {
      TakePutGroup(g, rest);
    }
  }

  lemma Nest(a: Data, b: Data, c: Data, d: Data, e: Data, rest: Data)
    ensures (a + b + c + d + e) + rest == a + (b + (c + (d + (e + rest))))
  {
  }

  /** A snapshot is read back exactly, with the nested member lists, and whatever follows it is
      left alone. */
  lemma RoundTrip(s: Snapshot, rest: Data)
    requires Fits(s)
    ensures Take(Put(s) + rest) == (s, rest)
  {
    var d4 := PutList(PutMessage, s.messages) + rest;
    var d3 := PutList(PutSetting, s.settings) + d4;
    var d2 := PutList(PutGroup, s.groups) + d3;
    var d1 := PutList(PutDevice, s.devices) + d2;
    Nest(PutField(FLong(s.version)), PutList(PutDevice, s.devices), PutList(PutGroup, s.groups),
         PutList(PutSetting, s.settings), PutList(PutMessage, s.messages), rest);
    TakePutLong(s.version, d1);
    DevicesInverse(s.devices);
    TakePutList(PutDevice, TakeDevice, s.devices, d2);
    GroupsInverse(s.groups);
    TakePutList(PutGroup, TakeGroup, s.groups, d3);
    SettingsInverse(s.settings);
    TakePutList(PutSetting, TakeSetting, s.settings, d4);
    MessagesInverse(s.messages);
    TakePutList(PutMessage, TakeMessage, s.messages, rest);
  }

  // ---- The bytes ----

  lemma {:induction false} PutFieldsAre(fields: seq<Field>, parts: seq<Data>)
    requires |parts| == |fields| && forall i | 0 <= i < |fields| :: PutField(fields[i]) == parts[i]
    ensures PutFields(fields) == Flatten(parts)
  {
    if fields != [] {
      PutFieldsAre(fields[1..], parts[1..]);
    }
  }

  /** Numbers and code units go most significant byte first, negative ones in two's complement; a
      null text is four bytes of ones, an empty one has length zero. */
  lemma FieldBytes()
    ensures PutField(FWord(0x270F)) == [0x27, 0x0F] && PutField(FByte(7)) == [7]
    ensures PutField(FLong(-2)) == [255, 255, 255, 255, 255, 255, 255, 254]
    ensures PutField(FLong(0x0102_0304_0506_0708)) == [1, 2, 3, 4, 5, 6, 7, 8]
    ensures PutField(FStr(Null)) == [255, 255, 255, 255] && PutField(FStr(Units([]))) == [0, 0, 0, 0]
    ensures PutField(FStr(Units([0x0102]))) == [0, 0, 0, 2, 1, 2]
  {
    assert PutUnits([0x0102]) == PutWord(0x0102) + PutUnits([]);
  }

  function PutLong(n: Long): Data {
    PutField(FLong(n))
  }

  function PutFlag(b: bool): Data {
    if b then [1] else [0]
  }

  /** Each kind of row, with its columns in their order. */
  lemma DeviceBytes(d: DeviceRow)
    ensures PutDevice(d) == Flatten([PutStr(d.deviceId), PutStr(d.name), PutStr(d.ip), PutWord(d.port),
                                     PutLong(d.lastSeen), PutLong(d.updatedAt), PutFlag(d.isFriend)])
  {
    PutFieldsAre(DeviceFields(d), [PutStr(d.deviceId), PutStr(d.name), PutStr(d.ip), PutWord(d.port),
                                   PutLong(d.lastSeen), PutLong(d.updatedAt), PutFlag(d.isFriend)]);
  }

  lemma SettingBytes(s: SettingRow)
    ensures PutSetting(s) == Flatten([PutStr(s.key), PutStr(s.value), PutLong(s.updatedAt)])
  {
    PutFieldsAre(SettingFields(s), [PutStr(s.key), PutStr(s.value), PutLong(s.updatedAt)]);
  }

  function MessageParts(m: MessageRow): seq<Data> {
    [PutStr(m.messageId), PutStr(m.senderId), PutStr(m.senderName), PutStr(m.senderIp), PutStr(m.content),
     PutLong(m.timestamp), PutFlag(m.isFile), PutStr(m.filePath), PutLong(m.fileSize), PutFlag(m.isDirectory),
     PutFlag(m.isImage), PutStr(m.imageFileName), PutStr(m.replyTo), PutStr(m.replyContent), PutStr(m.recallId),
     PutFlag(m.isRecalled), PutStr(m.targetId), PutFlag(m.isGroup), PutFlag(m.isRead), PutStr(m.readBy)]
  }

  /** The columns `from` to `to` of a message. */
  predicate PartsAre(m: MessageRow, from: nat, to: nat)
    requires from <= to <= |MessageFields(m)|
  {
    forall i | from <= i < to :: PutField(MessageFields(m)[i]) == MessageParts(m)[i]
  }

  lemma SenderParts(m: MessageRow)
    ensures PartsAre(m, 0, 5)
  {
  }

  lemma FileParts(m: MessageRow)
    ensures PartsAre(m, 5, 10)
  {
  }

  lemma ReplyParts(m: MessageRow)
    ensures PartsAre(m, 10, 15)
  {
  }

  lemma StatusParts(m: MessageRow)
    ensures PartsAre(m, 15, 20)
  {
  }

  lemma MessageBytes(m: MessageRow)
    ensures PutMessage(m) == Flatten(MessageParts(m))
  {
    SenderParts(m);
    FileParts(m);
    ReplyParts(m);
    StatusParts(m);
    PutFieldsAre(MessageFields(m), MessageParts(m));
  }

  lemma OneRow<T>(put: T -> Data, x: T)
    ensures PutList(put, [x]) == [0, 0, 0, 1] + put(x)
  {
    assert BE32(1) == [0, 0, 0, 1] && [x][..0] == [];
    assert PutAll(put, [x]) == [] + put(x);
  }

  /** A group with one member, and a snapshot with one row of each kind: every list begins with
      its count, and the lists come in their order. */
  lemma GroupBytes(id: Str, name: Str, memberId: Str, memberName: Str, createdAt: Long, updatedAt: Long)
    ensures PutGroup(GroupRow(id, name, [memberId], [memberName], createdAt, updatedAt))
         == Flatten([PutStr(id), PutStr(name)]) + ([0, 0, 0, 1] + PutStr(memberId)) + ([0, 0, 0, 1] + PutStr(memberName))
            + Flatten([PutLong(createdAt), PutLong(updatedAt)])
  {
    OneRow(PutStr, memberId);
    OneRow(PutStr, memberName);
    PutFieldsAre([FStr(id), FStr(name)], [PutStr(id), PutStr(name)]);
    PutFieldsAre([FLong(createdAt), FLong(updatedAt)], [PutLong(createdAt), PutLong(updatedAt)]);
  }

  lemma SnapshotBytes(version: Long, d: DeviceRow, g: GroupRow, s: SettingRow, m: MessageRow)
    ensures Put(Snapshot(version, [d], [g], [s], [m]))
         == PutLong(version) + ([0, 0, 0, 1] + PutDevice(d)) + ([0, 0, 0, 1] + PutGroup(g)) + ([0, 0, 0, 1] + PutSetting(s))
            + ([0, 0, 0, 1] + PutMessage(m))
  {
    OneRow(PutDevice, d);
    OneRow(PutGroup, g);
    OneRow(PutSetting, s);
    OneRow(PutMessage, m);
  }

  // ---- Damaged data ----

  /** A text whose length is odd reads as null, one that is longer than the data as null with
      nothing left. */
  lemma DamagedText(bytes: nat, body: Data)
    requires bytes < TWO_32
    ensures
      var (s, rest) := TakeStr(BE32(bytes) + body);
      if bytes % 2 == 1 then s == Null && rest == body
      else if bytes <= |body| && bytes < TWO_31 then s.Units? && |s.units| == bytes / 2
      else s == Null && rest == []
  {
    TakePut32(bytes, body);
  }

  /** Data that is cut off in a number reads as zero there and has nothing left. */
  lemma CutOff(d: Data)
    ensures |d| < 8 ==> TakeLong(d) == (0, [])
    ensures |d| < 4 ==> TakeU32(d) == (0, [])
    ensures |d| < 2 ==> TakeWord(d) == (0, [])
    ensures Take([]) == (NONE, [])
  {
  }

  // ---- The stream loops ----

  method WriteList<T>(data: Data, put: T -> Data, xs: seq<T>) returns (out: Data)
    ensures out == data + PutList(put, xs)
  {
    out := data + BE32(|xs| % TWO_32);
    for i := 0 to |xs|
      invariant out == data + (BE32(|xs| % TWO_32) + PutAll(put, xs[..i]))
    {
      assert xs[..i + 1][..i] == xs[..i];
      out := out + put(xs[i]);
    }
    assert xs[..|xs|] == xs;
  }

  method ReadList<T>(d: Data, take: Data -> (T, Data)) returns (xs: seq<T>, rest: Data)
    ensures (xs, rest) == TakeList(take, d)
  {
    var (count, d') := TakeU32(d);
    xs, rest := [], d';
    for i := 0 to count
      invariant (xs, rest) == TakeAll(take, i, d')
    {
      var (x, d'') := take(rest);
      xs, rest := xs + [x], d'';
    }
  }

  /** The group rows, whose member lists are loops of their own. */
  method WriteGroups(data: Data, groups: seq<GroupRow>) returns (out: Data)
    ensures out == data + PutList(PutGroup, groups)
  {
    out := data + BE32(|groups| % TWO_32);
    for i := 0 to |groups|
      invariant out == data + (BE32(|groups| % TWO_32) + PutAll(PutGroup, groups[..i]))
    {
      ghost var before := out;
      var g := groups[i];
      var head, tail := PutFields([FStr(g.groupId), FStr(g.name)]), PutFields([FLong(g.createdAt), FLong(g.updatedAt)]);
      out := out + head;
      out := WriteList(out, PutStr, g.memberIds);
      out := WriteList(out, PutStr, g.memberNames);
      out := out + tail;
      assert out == before + PutGroup(g) by {
        AppendFour(before, head, PutList(PutStr, g.memberIds), PutList(PutStr, g.memberNames), tail);
      }
      assert groups[..i + 1][..i] == groups[..i];
      AppendLast(data, BE32(|groups| % TWO_32), PutAll(PutGroup, groups[..i]), PutGroup(g));
    }
    assert groups[..|groups|] == groups;
  }

  lemma AppendFour(x: Data, a: Data, b: Data, c: Data, d: Data)
    ensures x + a + b + c + d == x + (a + b + c + d)
  {
  }

  lemma AppendLast(x: Data, a: Data, b: Data, c: Data)
    ensures (x + (a + b)) + c == x + (a + (b + c))
  {
  }

  method ReadGroups(d: Data) returns (groups: seq<GroupRow>, rest: Data)
    ensures (groups, rest) == TakeList(TakeGroup, d)
  {
    var (count, d') := TakeU32(d);
    groups, rest := [], d';
    for i := 0 to count
      invariant (groups, rest) == TakeAll(TakeGroup, i, d')
    {
      ghost var before := rest;
      var (head, d1) := TakeFields([TStr, TStr], rest);
      var memberIds, d2 := ReadList(d1, TakeStr);
      var memberNames, d3 := ReadList(d2, TakeStr);
      var (tail, d4) := TakeFields([TLong, TLong], d3);
      var g := GroupRow(AsStr(head[0]), AsStr(head[1]), memberIds, memberNames, AsLong(tail[0]), AsLong(tail[1]));
      assert TakeGroup(before) == (g, d4);
      groups, rest := groups + [g], d4;
    }
  }

  // ---- The table of stored snapshots ----

  /** The stored snapshots by version. */
  type Stored = map<Long, Data>

  /** What a load returns when there is nothing to load. */
  const NONE := Snapshot(0, [], [], [], [])

  predicate IsNewest(versions: set<Long>, v: Long) {
    v in versions && forall w | w in versions :: w <= v
  }

  lemma OneNewest(versions: set<Long>, v: Long, w: Long)
    requires IsNewest(versions, v) && IsNewest(versions, w)
    ensures v == w
  {
    assert v in versions && w in versions;
  }

  ghost function NewestOf(versions: set<Long>): (v: Long)
    requires versions != {}
    ensures IsNewest(versions, v)
  {
    NewestExists(versions);
    var v: Long :| IsNewest(versions, v);
    v
  }

  lemma Newest(versions: set<Long>) returns (v: Long)
    requires versions != {}
    ensures IsNewest(versions, v)
    decreases |versions|
  {
    v :| v in versions;
    if versions != {v} {
      var other := Newest(versions - {v});
      assert forall w | w in versions :: w == v || w in versions - {v};
      v := if v < other then other else v;
    }
  }

  lemma NewestExists(versions: set<Long>)
    requires versions != {}
    ensures exists v: Long :: IsNewest(versions, v)
  {
    var v := Newest(versions);
  }

  function Saved(rows: Stored, s: Snapshot): Stored {
    rows[s.version := Put(s)]
  }

  /** The newest stored snapshot, if it is of `minVersion` or later. */
  ghost function Loaded(rows: Stored, minVersion: Long): Snapshot {
    if rows == map[] || NewestOf(rows.Keys) < minVersion then NONE else Take(rows[NewestOf(rows.Keys)]).0
  }

  lemma SavedIsDecoded(s: Snapshot)
    requires Fits(s)
    ensures Take(Put(s)).0 == s
  {
    RoundTrip(s, []);
    assert Put(s) + [] == Put(s);
  }

  lemma NewestIsLoaded(rows: Stored, minVersion: Long, v: Long)
    requires IsNewest(rows.Keys, v)
    ensures Loaded(rows, minVersion) == if minVersion <= v then Take(rows[v]).0 else NONE
  {
    OneNewest(rows.Keys, v, NewestOf(rows.Keys));
  }

  /** A saved snapshot is what the next load returns, unless it is too old for the load or a newer
      one is stored, in which case saving it made no difference to the load. */
  lemma SavedIsLoaded(rows: Stored, s: Snapshot, minVersion: Long)
    requires Fits(s)
    ensures (forall v | v in rows :: v <= s.version) ==>
      Loaded(Saved(rows, s), minVersion) == if minVersion <= s.version then s else NONE
    ensures (exists v | v in rows :: s.version < v) ==>
      Loaded(Saved(rows, s), minVersion) == Loaded(rows, minVersion)
  {
    if forall v | v in rows :: v <= s.version {
      NewestIsLoaded(Saved(rows, s), minVersion, s.version);
      SavedIsDecoded(s);
    } else {
      var newest := NewestOf(rows.Keys);
      NewestIsLoaded(rows, minVersion, newest);
      NewestIsLoaded(Saved(rows, s), minVersion, newest);
    }
  }

  /** The table of stored snapshots, keyed by version. */
  class SnapshotTable {
    var rows: Stored

    constructor ()
      ensures rows == map[]
    {
      rows := map[];
    }

    method SaveSyncSnapshot(snapshot: Snapshot)
      modifies this
      ensures rows == Saved(old(rows), snapshot)
    {
      var data := PutField(FLong(snapshot.version));
      data := WriteList(data, PutDevice, snapshot.devices);
      data := WriteGroups(data, snapshot.groups);
      data := WriteList(data, PutSetting, snapshot.settings);
      data := WriteList(data, PutMessage, snapshot.messages);
      rows := rows[snapshot.version := data];
    }

    /** Reads the newest stored snapshot, if it is of `minVersion` or later. */
    method LoadSyncSnapshot(minVersion: Long) returns (snapshot: Snapshot)
      ensures snapshot == Loaded(rows, minVersion)
    {
      if rows == map[] {
        return NONE;
      }
      ghost var newest := NewestOf(rows.Keys);
      var version: Long :| version in rows.Keys && IsNewest(rows.Keys, version);
      OneNewest(rows.Keys, version, newest);
      if version < minVersion {
        return NONE;
      }
      snapshot := ReadSnapshot(rows[version]);
    }

    static method ReadSnapshot(data: Data) returns (snapshot: Snapshot)
      ensures snapshot == Take(data).0
    {
      var (version, d1) := TakeLong(data);
      var devices, d2 := ReadList(d1, TakeDevice);
      var groups, d3 := ReadGroups(d2);
      var settings, d4 := ReadList(d3, TakeSetting);
      var messages, rest := ReadList(d4, TakeMessage);
      snapshot := Snapshot(version, devices, groups, settings, messages);
    }
  }
}
