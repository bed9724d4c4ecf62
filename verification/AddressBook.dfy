/** The address book: CSV export, and import with merging by IP address. */
module AddressBook {
  import opened Options
  import opened Csv
  import opened Sequences

  datatype Entry = Entry(
    id: string, name: string, ip: string, port: nat, mac: string, group: string, notes: string,
    accessCode: string, favorite: bool, lastConnected: Option<int>, tags: seq<string>, lastSeen: Option<int>)

  const DEFAULT_PORT := 9999
  const PORTS := 65536

  /** The number and date formats of the platform; an invalid date prints as nothing. */
  datatype Formats = Formats(number: int -> string, toInt: string -> Option<int>,
                             time: int -> string, toTime: string -> Option<int>)

  function ShowTime(fm: Formats, t: Option<int>): string {
    if t.None? then [] else fm.time(t.value)
  }

  // ---- Trimming and tags ----

  predicate Space(c: char) {
    c == ' ' || c == '\t' || c == '\n' || c == '\r'
  }

  function TrimLeft(s: string): string {
    if s != [] && Space(s[0]) then TrimLeft(s[1..]) else s
  }

  function TrimRight(s: string): string {
    if s != [] && Space(s[|s| - 1]) then TrimRight(s[..|s| - 1]) else s
  }

  function Trimmed(s: string): string {
    TrimRight(TrimLeft(s))
  }

  function JoinTags(tags: seq<string>): string {
    if tags == [] then [] else if |tags| == 1 then tags[0] else tags[0] + ";" + JoinTags(tags[1..])
  }

  function Part(part: string): seq<string> {
    if part == [] then [] else [Trimmed(part)]
  }

  /** `split(';', SkipEmptyParts)`, each part trimmed; `cur` has been read of the first part. */
  function TagsFrom(rest: string, cur: string): seq<string>
    decreases |rest|
  {
    if rest == [] then Part(cur)
    else if rest[0] == ';' then Part(cur) + TagsFrom(rest[1..], [])
    else TagsFrom(rest[1..], cur + [rest[0]])
  }

  // ---- Export ----

  const COLUMNS := ["name", "ip", "port", "mac", "group", "accessCode", "notes", "favorite", "tags", "lastConnected"]

  function Fields(fm: Formats, e: Entry): seq<string> {
    [e.name, e.ip, fm.number(e.port), e.mac, e.group, e.accessCode, e.notes,
     if e.favorite then "1" else "0", JoinTags(e.tags), ShowTime(fm, e.lastConnected)]
  }

  function Records(fm: Formats, entries: seq<Entry>): string {
    if entries == [] then [] else Join(Fields(fm, entries[0])) + "\n" + Records(fm, entries[1..])
  }

  /** The text of the exported file. */
  function Export(fm: Formats, entries: seq<Entry>): string {
    Join(COLUMNS) + "\n" + Records(fm, entries)
  }

  // ---- Import ----

  function IndexOf(cols: seq<string>, name: string): (i: int)
    ensures -1 <= i < |cols|
    ensures 0 <= i ==> cols[i] == name
  {
    if cols == [] then -1
    else if cols[0] == name then 0
    else var i := IndexOf(cols[1..], name); if i < 0 then -1 else i + 1
  }

  function Cell(cols: seq<string>, f: seq<string>, name: string): string {
    var i := IndexOf(cols, name);
    if 0 <= i < |f| then f[i] else []
  }

  /** What a record is: to be skipped, an entry, or one for which the import would read a field
      that is not there. */
  datatype Reading = Skipped | Got(entry: Entry) | OutOfRange

  function Port(fm: Formats, cols: seq<string>, f: seq<string>): nat {
    if IndexOf(cols, "port") < 0 then DEFAULT_PORT else
      var p := fm.toInt(Cell(cols, f, "port"));
      (if p.Some? then p.value else DEFAULT_PORT) % PORTS
  }

  /** Some column of the header has no field in the record. */
  predicate Short(cols: seq<string>, f: seq<string>) {
    exists k | 0 <= k < |COLUMNS| :: |f| <= IndexOf(cols, COLUMNS[k])
  }

  function ReadEntry(fm: Formats, cols: seq<string>, f: seq<string>): Reading {
    var iIp := IndexOf(cols, "ip");
    if iIp < 0 then OutOfRange
    else if |f| <= iIp || Trimmed(f[iIp]) == [] then Skipped
    else if Short(cols, f) then OutOfRange
    else Got(Entry([], Trimmed(Cell(cols, f, "name")), Trimmed(f[iIp]), Port(fm, cols, f),
                   Trimmed(Cell(cols, f, "mac")), Trimmed(Cell(cols, f, "group")), Trimmed(Cell(cols, f, "notes")),
                   Trimmed(Cell(cols, f, "accessCode")), Trimmed(Cell(cols, f, "favorite")) == "1",
                   if IndexOf(cols, "lastConnected") < 0 then None else fm.toTime(Trimmed(Cell(cols, f, "lastConnected"))),
                   TagsFrom(Cell(cols, f, "tags"), []), None))
  }

  /** An imported record updates the entry with its address: empty names, groups, tags and dates
      leave the old ones. */
  function Updated(cur: Entry, e: Entry): Entry {
    cur.(name := if e.name == [] then cur.name else e.name,
         port := e.port,
         mac := e.mac,
         group := if e.group == [] then cur.group else e.group,
         accessCode := e.accessCode,
         notes := e.notes,
         favorite := e.favorite,
         tags := if e.tags == [] then cur.tags else e.tags,
         lastConnected := if e.lastConnected.None? then cur.lastConnected else e.lastConnected)
  }

  /** The first entry with the address is updated; without one, or without merging, the record is
      appended under a new id. */
  function Merged(entries: seq<Entry>, e: Entry, merge: bool, id: string): seq<Entry> {
    if entries == [] then [e.(id := id)]
    else if merge && entries[0].ip == e.ip then [Updated(entries[0], e)] + entries[1..]
    else [entries[0]] + Merged(entries[1..], e, merge, id)
  }

  /** `None` when the import would read out of range. */
  function ImportRecords(fm: Formats, cols: seq<string>, entries: seq<Entry>, text: string, merge: bool,
                         ids: nat -> string, imported: nat): Option<(seq<Entry>, nat)>
    decreases |text|
  {
    var (line, rest) := ReadRecord(text, []);
    if line == [] then Some((entries, imported)) else
      var r := ReadEntry(fm, cols, Parse(line));
      match r
      case OutOfRange => None
      case Skipped => ImportRecords(fm, cols, entries, rest, merge, ids, imported)
      case Got(e) => ImportRecords(fm, cols, Merged(entries, e, merge, ids(imported)), rest, merge, ids, imported + 1)
  }

  function Import(fm: Formats, entries: seq<Entry>, text: string, merge: bool, ids: nat -> string): Option<(seq<Entry>, nat)> {
    var (header, rest) := ReadRecord(text, []);
    if header == [] then Some((entries, 0)) else ImportRecords(fm, Parse(header), entries, rest, merge, ids, 0)
  }

  // ---- The book ----

  class Book {
    var entries: seq<Entry>

    constructor (entries: seq<Entry>)
      ensures this.entries == entries
    {
      this.entries := entries;
    }

    method ExportCsv(fm: Formats) returns (out: string)
      ensures out == Export(fm, entries)
    {
      out := Join(COLUMNS) + "\n";
      assert entries[0..] == entries;
      for i := 0 to |entries|
        invariant out + Records(fm, entries[i..]) == Export(fm, entries)
      {
        var line := Join(Fields(fm, entries[i])) + "\n";
        assert entries[i..][1..] == entries[i + 1..];
        Associate(out, line, Records(fm, entries[i + 1..]));
        out := out + line;
      }
      assert entries[|entries|..] == [];
    }

    /** `ok` is false when a record has fewer fields than the header announces. */
    method ImportCsv(fm: Formats, text: string, merge: bool, ids: nat -> string) returns (ok: bool, imported: nat)
      modifies this
      ensures
        var result := Import(fm, old(entries), text, merge, ids);
        ok == result.Some? && (ok ==> result.value == (entries, imported))
    {
      ok, imported := true, 0;
      var header, rest := ReadCsvRecord(text);
      if header == [] {
        return;
      }
      var cols := ParseCsvLine(header);
      var line: string;
      ghost var result := ImportRecords(fm, cols, entries, rest, merge, ids, 0);
      ghost var before := rest;
      line, rest := ReadCsvRecord(rest);
      while line != []
        invariant (line, rest) == ReadRecord(before, [])
        invariant ImportRecords(fm, cols, entries, before, merge, ids, imported) == result
        decreases |before|
      {
        var f := ParseCsvLine(line);
        var r := ReadEntry(fm, cols, f);
        if r.OutOfRange? {
          ok := false;
          return;
        }
        if r.Got? {
          MergeEntry(r.entry, merge, ids(imported));
          imported := imported + 1;
        }
        before := rest;
        line, rest := ReadCsvRecord(rest);
      }
    }

    method MergeEntry(e: Entry, merge: bool, id: string)
      modifies this
      ensures entries == Merged(old(entries), e, merge, id)
    {
      if merge {
        for i := 0 to |entries|
          invariant entries == old(entries)
          invariant NoneHas(entries, e.ip, i)
        {
          if entries[i].ip == e.ip {
            MergedAt(entries, e, id, i);
            entries := entries[i := Updated(entries[i], e)];
            return;
          }
        }
        MergedAtEnd(entries, e, id);
      } else {
        AppendedWithoutMerge(entries, e, id);
      }
      entries := entries + [e.(id := id)];
    }
  }

  /** None of the first `n` entries has the address. */
  predicate NoneHas(entries: seq<Entry>, ip: string, n: nat)
    requires n <= |entries|
  {
    forall k | 0 <= k < n :: entries[k].ip != ip
  }

  /** Merging updates the first entry with the address in place. */
  lemma {:induction false} MergedAt(entries: seq<Entry>, e: Entry, id: string, i: nat)
    requires i < |entries| && entries[i].ip == e.ip && NoneHas(entries, e.ip, i)
    ensures Merged(entries, e, true, id) == entries[i := Updated(entries[i], e)]
    decreases i
  {
    if 0 < i {
      assert NoneHas(entries[1..], e.ip, i - 1);
      MergedAt(entries[1..], e, id, i - 1);
    }
  }

  /** Without one it appends. */
  lemma {:induction false} MergedAtEnd(entries: seq<Entry>, e: Entry, id: string)
    requires NoneHas(entries, e.ip, |entries|)
    ensures Merged(entries, e, true, id) == entries + [e.(id := id)]
  {
    if entries != [] {
      assert NoneHas(entries[1..], e.ip, |entries| - 1);
      MergedAtEnd(entries[1..], e, id);
      assert [entries[0]] + (entries[1..] + [e.(id := id)]) == entries + [e.(id := id)];
    }
  }

  lemma {:induction false} AppendedWithoutMerge(entries: seq<Entry>, e: Entry, id: string)
    ensures Merged(entries, e, false, id) == entries + [e.(id := id)]
  {
    if entries != [] {
      AppendedWithoutMerge(entries[1..], e, id);
      assert [entries[0]] + (entries[1..] + [e.(id := id)]) == entries + [e.(id := id)];
    }
  }

  // ---- Import inverts export ----

  ghost predicate Sound(fm: Formats) {
    && (forall p {:trigger fm.number(p)} :: 0 <= p < PORTS ==> fm.toInt(fm.number(p)) == Some(p) && OneLine(fm.number(p)))
    && (forall t {:trigger fm.time(t)} :: fm.toTime(fm.time(t)) == Some(t) && Clean(fm.time(t)))
    && fm.toTime([]) == None
  }

  predicate OneLine(s: string) {
    '\n' !in s
  }

  /** Unchanged by the import: no line breaks, and no space at either end. */
  predicate Clean(s: string) {
    OneLine(s) && Trimmed(s) == s
  }

  predicate GoodTag(tag: string) {
    tag != [] && Clean(tag) && NoSemicolon(tag)
  }

  predicate GoodEntry(e: Entry) {
    && Clean(e.name) && Clean(e.ip) && e.ip != [] && e.port < PORTS && Clean(e.mac) && Clean(e.group)
    && Clean(e.notes) && Clean(e.accessCode)
    && forall tag | tag in e.tags :: GoodTag(tag)
  }

  /** What a record carries of an entry. */
  function Exported(e: Entry): Entry {
    e.(id := [], lastSeen := None)
  }

  lemma {:induction false} TagPart(tag: string, rest: string, cur: string)
    requires NoSemicolon(tag)
    ensures TagsFrom(tag + rest, cur) == TagsFrom(rest, cur + tag)
    decreases |tag|
  {
    if tag == [] {
      assert tag + rest == rest && cur + tag == cur;
    } else {
      assert (tag + rest)[1..] == tag[1..] + rest;
      assert (cur + [tag[0]]) + tag[1..] == cur + tag;
      TagPart(tag[1..], rest, cur + [tag[0]]);
    }
  }

  predicate NoSemicolon(tag: string) {
    forall i | 0 <= i < |tag| :: tag[i] != ';'
  }

  function TrimmedTags(tags: seq<string>): seq<string> {
    if tags == [] then [] else [Trimmed(tags[0])] + TrimmedTags(tags[1..])
  }

  /** Joined tags are split again where they were joined, and trimmed. */
  lemma {:induction false} TagsAreTrimmed(tags: seq<string>)
    requires forall tag | tag in tags :: tag != [] && NoSemicolon(tag)
    ensures TagsFrom(JoinTags(tags), []) == TrimmedTags(tags)
    decreases |tags|
  {
    if tags != [] {
      var tag := tags[0];
      assert tag in tags && [] + tag == tag;
      if |tags| == 1 {
        assert tag + [] == tag;
        TagPart(tag, [], []);
      } else {
        TagPart(tag, ";" + JoinTags(tags[1..]), []);
        NextTag(tag, JoinTags(tags[1..]));
        TagsAreTrimmed(tags[1..]);
        assert tag + (";" + JoinTags(tags[1..])) == JoinTags(tags);
      }
    }
  }

  lemma {:induction false} CleanTags(tags: seq<string>)
    requires forall tag | tag in tags :: GoodTag(tag)
    ensures TrimmedTags(tags) == tags
  {
    if tags != [] {
      assert GoodTag(tags[0]);
      CleanTags(tags[1..]);
      assert [tags[0]] + tags[1..] == tags;
    }
  }

  lemma TagsComeBack(tags: seq<string>)
    requires forall tag | tag in tags :: GoodTag(tag)
    ensures TagsFrom(JoinTags(tags), []) == tags
  {
    forall tag | tag in tags ensures tag != [] && NoSemicolon(tag) {
      assert GoodTag(tag);
    }
    TagsAreTrimmed(tags);
    CleanTags(tags);
  }

  lemma NextTag(tag: string, rest: string)
    ensures TagsFrom(";" + rest, tag) == Part(tag) + TagsFrom(rest, [])
  {
    assert (";" + rest)[1..] == rest;
  }

  lemma {:induction false} TagsHaveNoBreaks(tags: seq<string>)
    requires forall tag | tag in tags :: OneLine(tag)
    ensures OneLine(JoinTags(tags))
    decreases |tags|
  {
    if tags != [] {
      assert OneLine(tags[0]);
      if |tags| != 1 {
        TagsHaveNoBreaks(tags[1..]);
      }
    }
  }

  lemma {:induction false} FoundFirst(cols: seq<string>, k: nat)
    requires k < |cols| && forall j | 0 <= j < k :: cols[j] != cols[k]
    ensures IndexOf(cols, cols[k]) == k
    decreases k
  {
    if 0 < k {
      assert cols[0] != cols[k];
      assert forall j | 0 <= j < k - 1 :: cols[1..][j] == cols[j + 1];
      FoundFirst(cols[1..], k - 1);
    }
  }

  lemma ColumnsAreDistinct(j: nat, k: nat)
    requires j < k < |COLUMNS|
    ensures COLUMNS[j] != COLUMNS[k]
  {
    assert COLUMNS[0][0] == 'n' && COLUMNS[1][0] == 'i' && COLUMNS[2][0] == 'p' && COLUMNS[3][0] == 'm'
        && COLUMNS[4][0] == 'g' && COLUMNS[5][0] == 'a' && COLUMNS[6][0] == 'n' && COLUMNS[7][0] == 'f'
        && COLUMNS[8][0] == 't' && COLUMNS[9][0] == 'l' && |COLUMNS[0]| != |COLUMNS[6]|;
  }

  lemma ColumnAt(k: nat)
    requires k < |COLUMNS|
    ensures IndexOf(COLUMNS, COLUMNS[k]) == k
  {
    forall j | 0 <= j < k ensures COLUMNS[j] != COLUMNS[k] {
      ColumnsAreDistinct(j, k);
    }
    FoundFirst(COLUMNS, k);
  }

  lemma FieldsHaveNoBreaks(fm: Formats, e: Entry)
    requires Sound(fm) && GoodEntry(e)
    ensures forall f | f in Fields(fm, e) :: OneLine(f)
  {
    forall tag | tag in e.tags ensures OneLine(tag) {
      assert GoodTag(tag);
    }
    TagsHaveNoBreaks(e.tags);
    NumberComesBack(fm, e.port);
    TimeComesBack(fm, e.lastConnected);
  }

  lemma NumberComesBack(fm: Formats, p: nat)
    requires Sound(fm) && p < PORTS
    ensures fm.toInt(fm.number(p)) == Some(p) && OneLine(fm.number(p))
  {
  }

  lemma TimeComesBack(fm: Formats, t: Option<int>)
    requires Sound(fm)
    ensures Clean(ShowTime(fm, t)) && fm.toTime(ShowTime(fm, t)) == t
  {
    if t.Some? {
      var x: int := t.value;
      assert Clean(fm.time(x));
    }
  }

  lemma ColumnsHaveNoBreaks()
    ensures forall c | c in COLUMNS :: OneLine(c)
  {
  }

  lemma CellAt(f: seq<string>, k: nat, name: string)
    requires k < |COLUMNS| == |f| && COLUMNS[k] == name
    ensures IndexOf(COLUMNS, name) == k && Cell(COLUMNS, f, name) == f[k]
  {
    ColumnAt(k);
  }

  lemma NotShort(f: seq<string>)
    requires |f| == |COLUMNS|
    ensures !Short(COLUMNS, f)
  {
    forall k | 0 <= k < |COLUMNS| ensures IndexOf(COLUMNS, COLUMNS[k]) < |f| {
      ColumnAt(k);
    }
  }

  lemma PortComesBack(fm: Formats, e: Entry)
    requires Sound(fm) && e.port < PORTS
    ensures Port(fm, COLUMNS, Fields(fm, e)) == e.port
  {
    CellAt(Fields(fm, e), 2, "port");
    NumberComesBack(fm, e.port);
  }

  lemma TagsCell(fm: Formats, e: Entry)
    requires forall tag | tag in e.tags :: GoodTag(tag)
    ensures TagsFrom(Cell(COLUMNS, Fields(fm, e), "tags"), []) == e.tags
  {
    CellAt(Fields(fm, e), 8, "tags");
    TagsComeBack(e.tags);
  }

  lemma DigitIsTrimmed(cell: string, shown: string)
    requires |shown| == 1 && !Space(shown[0]) && cell == shown
    ensures Trimmed(cell) == shown
  {
  }

  lemma DigitCell(f: seq<string>, k: nat, name: string, shown: string)
    requires k < |COLUMNS| == |f| && COLUMNS[k] == name && f[k] == shown
    requires |shown| == 1 && !Space(shown[0])
    ensures Trimmed(Cell(COLUMNS, f, name)) == shown
  {
    CellAt(f, k, name);
    DigitIsTrimmed(f[k], shown);
  }

  lemma FavoriteCell(fm: Formats, e: Entry, shown: string)
    requires shown == if e.favorite then "1" else "0"
    ensures Trimmed(Cell(COLUMNS, Fields(fm, e), "favorite")) == shown
  {
    DigitCell(Fields(fm, e), 7, "favorite", shown);
  }

  lemma TimeCell(fm: Formats, e: Entry)
    requires Sound(fm)
    ensures IndexOf(COLUMNS, "lastConnected") == 9
    ensures fm.toTime(Trimmed(Cell(COLUMNS, Fields(fm, e), "lastConnected"))) == e.lastConnected
  {
    CellAt(Fields(fm, e), 9, "lastConnected");
    TimeComesBack(fm, e.lastConnected);
  }

  lemma TextCells(fm: Formats, e: Entry)
    ensures
      var f := Fields(fm, e);
      && Cell(COLUMNS, f, "name") == e.name && IndexOf(COLUMNS, "ip") == 1
      && Cell(COLUMNS, f, "mac") == e.mac && Cell(COLUMNS, f, "group") == e.group
      && Cell(COLUMNS, f, "accessCode") == e.accessCode && Cell(COLUMNS, f, "notes") == e.notes
  {
    var f := Fields(fm, e);
    CellAt(f, 0, "name");
    CellAt(f, 1, "ip");
    CellAt(f, 3, "mac");
    CellAt(f, 4, "group");
    CellAt(f, 5, "accessCode");
    CellAt(f, 6, "notes");
  }

  /** The cells of a record hold the fields of `e`. */
  predicate HoldsTexts(cols: seq<string>, f: seq<string>, e: Entry) {
    && 0 <= IndexOf(cols, "ip") < |f| && f[IndexOf(cols, "ip")] == e.ip
    && Cell(cols, f, "name") == e.name && Cell(cols, f, "mac") == e.mac && Cell(cols, f, "group") == e.group
    && Cell(cols, f, "accessCode") == e.accessCode && Cell(cols, f, "notes") == e.notes
  }

  predicate Holds(fm: Formats, cols: seq<string>, f: seq<string>, e: Entry) {
    && HoldsTexts(cols, f, e)
    && Port(fm, cols, f) == e.port
    && Trimmed(Cell(cols, f, "favorite")) == (if e.favorite then "1" else "0")
    && 0 <= IndexOf(cols, "lastConnected")
    && fm.toTime(Trimmed(Cell(cols, f, "lastConnected"))) == e.lastConnected
    && TagsFrom(Cell(cols, f, "tags"), []) == e.tags
  }

  /** Such a record is read as what it carries of `e`. */
  lemma ReadFromCells(fm: Formats, cols: seq<string>, f: seq<string>, e: Entry)
    requires GoodEntry(e) && !Short(cols, f) && Holds(fm, cols, f, e)
    ensures ReadEntry(fm, cols, f) == Got(Exported(e))
  {
  }

  lemma TextsHold(fm: Formats, e: Entry)
    ensures HoldsTexts(COLUMNS, Fields(fm, e), e)
  {
    TextCells(fm, e);
  }

  lemma CellsHold(fm: Formats, e: Entry)
    requires Sound(fm) && GoodEntry(e)
    ensures Holds(fm, COLUMNS, Fields(fm, e), e)
  {
    TextsHold(fm, e);
    PortComesBack(fm, e);
    TagsCell(fm, e);
    FavoriteCell(fm, e, if e.favorite then "1" else "0");
    TimeCell(fm, e);
  }

  /** A printed record is read as what it carries of the entry. */
  lemma RecordComesBack(fm: Formats, e: Entry)
    requires Sound(fm) && GoodEntry(e)
    ensures ReadEntry(fm, COLUMNS, Fields(fm, e)) == Got(Exported(e))
  {
    CellsHold(fm, e);
    NotShort(Fields(fm, e));
    ReadFromCells(fm, COLUMNS, Fields(fm, e), e);
  }

  lemma RecordIsNotEmpty(fm: Formats, e: Entry)
    ensures Join(Fields(fm, e)) != []
  {
  }

  /** The first record of an exported file is merged, and the import goes on behind it. */
  lemma ImportNext(fm: Formats, into: seq<Entry>, entries: seq<Entry>, merge: bool, ids: nat -> string, imported: nat)
    requires Sound(fm) && entries != [] && GoodEntry(entries[0])
    ensures ImportRecords(fm, COLUMNS, into, Records(fm, entries), merge, ids, imported)
         == ImportRecords(fm, COLUMNS, Merged(into, Exported(entries[0]), merge, ids(imported)),
                          Records(fm, entries[1..]), merge, ids, imported + 1)
  {
    var e := entries[0];
    FieldsHaveNoBreaks(fm, e);
    ReadWholeRecord(Fields(fm, e), Records(fm, entries[1..]));
    RecordIsNotEmpty(fm, e);
    ParseInvertsJoin(Fields(fm, e));
    RecordComesBack(fm, e);
  }

  predicate UniqueAddresses(entries: seq<Entry>) {
    forall i, j | 0 <= i < j < |entries| :: entries[i].ip != entries[j].ip
  }

  lemma MergeUnchanged(book: seq<Entry>, i: nat, id: string)
    requires UniqueAddresses(book) && i < |book|
    ensures Merged(book, Exported(book[i]), true, id) == book
  {
    MergedAt(book, Exported(book[i]), id, i);
    assert Updated(book[i], Exported(book[i])) == book[i];
  }

  lemma ReimportStep(fm: Formats, book: seq<Entry>, i: nat, merge: bool, ids: nat -> string, imported: nat)
    requires Sound(fm) && UniqueAddresses(book) && i < |book| && merge && GoodEntry(book[i])
    ensures ImportRecords(fm, COLUMNS, book, Records(fm, book[i..]), merge, ids, imported)
         == ImportRecords(fm, COLUMNS, book, Records(fm, book[i + 1..]), merge, ids, imported + 1)
  {
    ImportNext(fm, book, book[i..], merge, ids, imported);
    assert book[i..][1..] == book[i + 1..];
    MergeUnchanged(book, i, ids(imported));
  }

  lemma NothingToImport(fm: Formats, into: seq<Entry>, merge: bool, ids: nat -> string, imported: nat)
    ensures ImportRecords(fm, COLUMNS, into, Records(fm, []), merge, ids, imported) == Some((into, imported))
  {
  }

  lemma {:induction false} ReimportRecords(fm: Formats, book: seq<Entry>, i: nat, merge: bool, ids: nat -> string)
    requires Sound(fm) && UniqueAddresses(book) && i <= |book| && merge
    requires forall e | e in book :: GoodEntry(e)
    ensures ImportRecords(fm, COLUMNS, book, Records(fm, book[i..]), merge, ids, i) == Some((book, |book|))
    decreases |book| - i
  {
    if i < |book| {
      assert GoodEntry(book[i]);
      ReimportStep(fm, book, i, merge, ids, i);
      ReimportRecords(fm, book, i + 1, merge, ids);
    } else {
      assert book[i..] == [];
      NothingToImport(fm, book, merge, ids, i);
    }
  }

  lemma HeaderComesFirst(fm: Formats, entries: seq<Entry>, book: seq<Entry>, merge: bool, ids: nat -> string)
    ensures Import(fm, entries, Export(fm, book), merge, ids)
         == ImportRecords(fm, COLUMNS, entries, Records(fm, book), merge, ids, 0)
  {
    ColumnsHaveNoBreaks();
    ReadWholeRecord(COLUMNS, Records(fm, book));
    ParseInvertsJoin(COLUMNS);
    assert Join(COLUMNS) != [];
  }

  lemma ReimportFrom(fm: Formats, book: seq<Entry>, merge: bool, ids: nat -> string, start: nat)
    requires Sound(fm) && UniqueAddresses(book) && merge && start == 0
    requires forall e | e in book :: GoodEntry(e)
    ensures ImportRecords(fm, COLUMNS, book, Records(fm, book), merge, ids, start) == Some((book, |book|))
  {
    assert book[start..] == book;
    ReimportRecords(fm, book, start, merge, ids);
  }

  /** Importing a book's own export changes nothing. */
  lemma ReimportIsIdentity(fm: Formats, book: seq<Entry>, ids: nat -> string)
    requires Sound(fm) && UniqueAddresses(book)
    requires forall e | e in book :: GoodEntry(e)
    ensures Import(fm, book, Export(fm, book), true, ids) == Some((book, |book|))
  {
    HeaderComesFirst(fm, book, book, true, ids);
    ReimportFrom(fm, book, true, ids, 0);
  }

  /** The entries of `book` as an import into an empty book leaves them. */
  function Copied(book: seq<Entry>, n: nat, ids: nat -> string): seq<Entry>
    requires n <= |book|
  {
    if n == 0 then [] else Copied(book, n - 1, ids) + [Exported(book[n - 1]).(id := ids(n - 1))]
  }

  lemma {:induction false} CopiedAddresses(book: seq<Entry>, n: nat, ids: nat -> string)
    requires n <= |book|
    ensures |Copied(book, n, ids)| == n
    ensures forall k | 0 <= k < n :: Copied(book, n, ids)[k] == book[k].(id := ids(k), lastSeen := None)
  {
    if 0 < n {
      CopiedAddresses(book, n - 1, ids);
    }
  }

  lemma {:induction false} CopyRecords(fm: Formats, book: seq<Entry>, i: nat, merge: bool, ids: nat -> string)
    requires Sound(fm) && UniqueAddresses(book) && i <= |book|
    requires forall e | e in book :: GoodEntry(e)
    ensures ImportRecords(fm, COLUMNS, Copied(book, i, ids), Records(fm, book[i..]), merge, ids, i)
         == Some((Copied(book, |book|, ids), |book|))
    decreases |book| - i
  {
    if i < |book| {
      var e := Exported(book[i]);
      assert GoodEntry(book[i]);
      ImportNext(fm, Copied(book, i, ids), book[i..], merge, ids, i);
      assert book[i..][1..] == book[i + 1..];
      CopiedAddresses(book, i, ids);
      if merge {
        MergedAtEnd(Copied(book, i, ids), e, ids(i));
      } else {
        AppendedWithoutMerge(Copied(book, i, ids), e, ids(i));
      }
      CopyRecords(fm, book, i + 1, merge, ids);
    }
  }

  /** Importing into an empty book reproduces every exported field of every entry, in order. */
  lemma ImportCopies(fm: Formats, book: seq<Entry>, merge: bool, ids: nat -> string)
    requires Sound(fm) && UniqueAddresses(book)
    requires forall e | e in book :: GoodEntry(e)
    ensures
      var result := Import(fm, [], Export(fm, book), merge, ids);
      && result.Some? && result.value.1 == |result.value.0| == |book|
      && forall k | 0 <= k < |book| :: result.value.0[k] == book[k].(id := ids(k), lastSeen := None)
  {
    HeaderComesFirst(fm, [], book, merge, ids);
    assert book[0..] == book;
    CopyRecords(fm, book, 0, merge, ids);
    CopiedAddresses(book, |book|, ids);
  }
  // ---- One book into another ----

  /** What a record of `e` leaves of the entry with its address: where the record has no name,
      group, tags or date, the entry keeps its own, and it always keeps what no record carries. */
  predicate Took(after: Entry, before: Entry, e: Entry) {
    && after.id == before.id && after.ip == before.ip && after.lastSeen == before.lastSeen
    && after.port == e.port && after.mac == e.mac && after.accessCode == e.accessCode
    && after.notes == e.notes && after.favorite == e.favorite
    && (if e.name == [] then after.name == before.name else after.name == e.name)
    && (if e.group == [] then after.group == before.group else after.group == e.group)
    && (if e.tags == [] then after.tags == before.tags else after.tags == e.tags)
    && (if e.lastConnected == None then after.lastConnected == before.lastConnected
        else after.lastConnected == e.lastConnected)
  }

  /** Of several entries with one address only the first is found. */
  predicate First(book: seq<Entry>, i: nat)
    requires i < |book|
  {
    NoneHas(book, book[i].ip, i)
  }

  /** What the first `n` records of `other` make of entry `i`. */
  predicate Becomes(after: Entry, book: seq<Entry>, other: seq<Entry>, n: nat, i: nat)
    requires n <= |other| && i < |book|
  {
    && after.ip == book[i].ip
    && (First(book, i) ==> forall j | 0 <= j < n && other[j].ip == book[i].ip :: Took(after, book[i], other[j]))
    && (!First(book, i) || NoneHas(other, book[i].ip, n) ==> after == book[i])
  }

  /** The entries of `other` whose addresses the book does not know, in order, as the import leaves
      them. */
  function NewOnes(book: seq<Entry>, other: seq<Entry>, n: nat, ids: nat -> string): seq<Entry>
    requires n <= |other|
  {
    if n == 0 then [] else
      var added := if NoneHas(book, other[n - 1].ip, |book|) then [other[n - 1].(id := ids(n - 1), lastSeen := None)] else [];
      NewOnes(book, other, n - 1, ids) + added
  }

  predicate Joined(after: seq<Entry>, book: seq<Entry>, other: seq<Entry>, n: nat, ids: nat -> string)
    requires n <= |other|
  {
    && |book| <= |after|
    && (forall i | 0 <= i < |book| :: Becomes(after[i], book, other, n, i))
    && after[|book|..] == NewOnes(book, other, n, ids)
  }

  lemma {:induction false} NewOnesHave(book: seq<Entry>, other: seq<Entry>, n: nat, ids: nat -> string, ip: string)
    requires n <= |other| && NoneHas(other, ip, n)
    ensures NoneHas(NewOnes(book, other, n, ids), ip, |NewOnes(book, other, n, ids)|)
  {
    if 0 < n {
      NewOnesHave(book, other, n - 1, ids, ip);
    }
  }

  lemma {:induction false} FirstOf(book: seq<Entry>, ip: string, n: nat) returns (i: nat)
    requires n <= |book| && !NoneHas(book, ip, n)
    ensures i < n && book[i].ip == ip && NoneHas(book, ip, i)
  {
    if NoneHas(book, ip, n - 1) {
      i := n - 1;
    } else {
      i := FirstOf(book, ip, n - 1);
    }
  }

  lemma TakesOver(before: Entry, e: Entry)
    requires before.ip == e.ip
    ensures Took(Updated(before, Exported(e)), before, e)
  {
  }

  /** A record with a known address. */
  lemma JoinKnown(after: seq<Entry>, book: seq<Entry>, other: seq<Entry>, n: nat, ids: nat -> string, at: nat)
    requires n < |other| && UniqueAddresses(other) && Joined(after, book, other, n, ids)
    requires at < |book| && book[at].ip == other[n].ip && NoneHas(book, other[n].ip, at)
    ensures Joined(Merged(after, Exported(other[n]), true, ids(n)), book, other, n + 1, ids)
  {
    var e := Exported(other[n]);
    forall k | 0 <= k <= at ensures after[k].ip == book[k].ip {
      assert Becomes(after[k], book, other, n, k);
    }
    MergedAt(after, e, ids(n), at);
    TakesOver(book[at], other[n]);
    var next := after[at := Updated(after[at], e)];
    forall i | 0 <= i < |book| ensures Becomes(next[i], book, other, n + 1, i) {
      assert Becomes(after[i], book, other, n, i);
    }
    assert next[|book|..] == after[|book|..];
  }

  /** A record with an unknown one. */
  lemma JoinUnknown(after: seq<Entry>, book: seq<Entry>, other: seq<Entry>, n: nat, ids: nat -> string)
    requires n < |other| && UniqueAddresses(other) && Joined(after, book, other, n, ids)
    requires NoneHas(book, other[n].ip, |book|)
    ensures Joined(Merged(after, Exported(other[n]), true, ids(n)), book, other, n + 1, ids)
  {
    var e := Exported(other[n]);
    NewOnesHave(book, other, n, ids, e.ip);
    forall k | 0 <= k < |after| ensures after[k].ip != e.ip {
      if k < |book| {
        assert Becomes(after[k], book, other, n, k);
      } else {
        assert after[k] == after[|book|..][k - |book|];
      }
    }
    MergedAtEnd(after, e, ids(n));
    var next := after + [e.(id := ids(n))];
    forall i | 0 <= i < |book| ensures Becomes(next[i], book, other, n + 1, i) {
      assert Becomes(after[i], book, other, n, i);
    }
    assert next[|book|..] == after[|book|..] + [e.(id := ids(n))];
  }

  lemma JoinNext(after: seq<Entry>, book: seq<Entry>, other: seq<Entry>, n: nat, ids: nat -> string)
    requires n < |other| && UniqueAddresses(other) && Joined(after, book, other, n, ids)
    ensures Joined(Merged(after, Exported(other[n]), true, ids(n)), book, other, n + 1, ids)
  {
    if NoneHas(book, other[n].ip, |book|) {
      JoinUnknown(after, book, other, n, ids);
    } else {
      var at := FirstOf(book, other[n].ip, |book|);
      JoinKnown(after, book, other, n, ids, at);
    }
  }

  /** The import of all but the first `n` records of `other` turns `into` into `result`. */
  predicate Leads(fm: Formats, into: seq<Entry>, other: seq<Entry>, n: nat, merge: bool, ids: nat -> string,
                  result: seq<Entry>)
    requires n <= |other|
  {
    ImportRecords(fm, COLUMNS, into, Records(fm, other[n..]), merge, ids, n) == Some((result, |other|))
  }

  lemma RecordLeads(fm: Formats, into: seq<Entry>, other: seq<Entry>, n: nat, merge: bool, ids: nat -> string)
    requires Sound(fm) && n < |other| && GoodEntry(other[n])
    ensures forall result ::
      Leads(fm, Merged(into, Exported(other[n]), merge, ids(n)), other, n + 1, merge, ids, result) ==>
        Leads(fm, into, other, n, merge, ids, result)
  {
    ImportNext(fm, into, other[n..], merge, ids, n);
    assert other[n..][1..] == other[n + 1..];
  }

  lemma NoneLeft(fm: Formats, into: seq<Entry>, other: seq<Entry>, merge: bool, ids: nat -> string)
    ensures Leads(fm, into, other, |other|, merge, ids, into)
  {
    assert other[|other|..] == [];
    NothingToImport(fm, into, merge, ids, |other|);
  }

  lemma {:induction false} JoinRecords(fm: Formats, after: seq<Entry>, book: seq<Entry>, other: seq<Entry>, n: nat,
                                       merge: bool, ids: nat -> string)
      returns (result: seq<Entry>)
    requires Sound(fm) && n <= |other| && UniqueAddresses(other) && Joined(after, book, other, n, ids) && merge
    requires forall e | e in other :: GoodEntry(e)
    ensures Leads(fm, after, other, n, merge, ids, result)
    ensures Joined(result, book, other, |other|, ids)
    decreases |other| - n
  {
    if n < |other| {
      assert GoodEntry(other[n]);
      RecordLeads(fm, after, other, n, merge, ids);
      JoinNext(after, book, other, n, ids);
      result := JoinRecords(fm, Merged(after, Exported(other[n]), merge, ids(n)), book, other, n + 1, merge, ids);
    } else {
      NoneLeft(fm, after, other, merge, ids);
      result := after;
    }
  }

  lemma JoinFrom(fm: Formats, book: seq<Entry>, other: seq<Entry>, merge: bool, ids: nat -> string, start: nat)
      returns (after: seq<Entry>)
    requires Sound(fm) && UniqueAddresses(other) && merge && start == 0
    requires forall e | e in other :: GoodEntry(e)
    ensures ImportRecords(fm, COLUMNS, book, Records(fm, other), merge, ids, start) == Some((after, |other|))
    ensures Joined(after, book, other, |other|, ids)
  {
    assert other[start..] == other && book[|book|..] == [];
    after := JoinRecords(fm, book, book, other, start, merge, ids);
  }

  lemma AllJoined(after: seq<Entry>, book: seq<Entry>, other: seq<Entry>, ids: nat -> string)
    requires Joined(after, book, other, |other|, ids)
    ensures forall i, j | 0 <= i < |book| && 0 <= j < |other| && First(book, i) && book[i].ip == other[j].ip ::
      Took(after[i], book[i], other[j])
    ensures forall i | 0 <= i < |book| && (!First(book, i) || NoneHas(other, book[i].ip, |other|)) ::
      after[i] == book[i]
  {
    assert forall i | 0 <= i < |book| :: Becomes(after[i], book, other, |other|, i);
  }

  /** Importing the export of one book into another, with merging: the known addresses take over
      what their records carry, every other entry stays as it is, and the unknown addresses follow
      in order. */
  lemma ImportJoinsBooks(fm: Formats, book: seq<Entry>, other: seq<Entry>, ids: nat -> string)
    requires Sound(fm) && UniqueAddresses(other)
    requires forall e | e in other :: GoodEntry(e)
    ensures
      var result := Import(fm, book, Export(fm, other), true, ids);
      && result.Some? && result.value.1 == |other|
      && var after := result.value.0;
      && |book| <= |after|
      && (forall i, j | 0 <= i < |book| && 0 <= j < |other| && First(book, i) && book[i].ip == other[j].ip ::
            Took(after[i], book[i], other[j]))
      && (forall i | 0 <= i < |book| && (!First(book, i) || NoneHas(other, book[i].ip, |other|)) ::
            after[i] == book[i])
      && after[|book|..] == NewOnes(book, other, |other|, ids)
  {
    HeaderComesFirst(fm, book, other, true, ids);
    var after := JoinFrom(fm, book, other, true, ids, 0);
    AllJoined(after, book, other, ids);
  }

  lemma {:induction false} AppendRecords(fm: Formats, book: seq<Entry>, other: seq<Entry>, n: nat, merge: bool, ids: nat -> string)
    requires Sound(fm) && n <= |other| && !merge
    requires forall e | e in other :: GoodEntry(e)
    ensures Leads(fm, book + Copied(other, n, ids), other, n, merge, ids, book + Copied(other, |other|, ids))
    decreases |other| - n
  {
    var into := book + Copied(other, n, ids);
    if n < |other| {
      assert GoodEntry(other[n]);
      RecordLeads(fm, into, other, n, merge, ids);
      CopyNext(book, other, n, ids);
      AppendRecords(fm, book, other, n + 1, merge, ids);
    } else {
      NoneLeft(fm, into, other, merge, ids);
    }
  }

  lemma CopyNext(book: seq<Entry>, other: seq<Entry>, n: nat, ids: nat -> string)
    requires n < |other|
    ensures Merged(book + Copied(other, n, ids), Exported(other[n]), false, ids(n)) == book + Copied(other, n + 1, ids)
  {
    var e := Exported(other[n]);
    AppendedWithoutMerge(book + Copied(other, n, ids), e, ids(n));
    Associate(book, Copied(other, n, ids), [e.(id := ids(n))]);
  }

  lemma AppendFrom(fm: Formats, book: seq<Entry>, other: seq<Entry>, merge: bool, ids: nat -> string, start: nat)
    requires Sound(fm) && !merge && start == 0
    requires forall e | e in other :: GoodEntry(e)
    ensures ImportRecords(fm, COLUMNS, book, Records(fm, other), merge, ids, start)
         == Some((book + Copied(other, |other|, ids), |other|))
  {
    assert other[start..] == other && book + Copied(other, start, ids) == book;
    AppendRecords(fm, book, other, start, merge, ids);
  }

  /** Without merging every entry is appended, whatever addresses the book knows. */
  lemma ImportAppends(fm: Formats, book: seq<Entry>, other: seq<Entry>, ids: nat -> string)
    requires Sound(fm) && forall e | e in other :: GoodEntry(e)
    ensures
      var result := Import(fm, book, Export(fm, other), false, ids);
      && result.Some? && result.value.1 == |other|
      && |result.value.0| == |book| + |other| && book <= result.value.0
      && forall k | 0 <= k < |other| :: result.value.0[|book| + k] == other[k].(id := ids(k), lastSeen := None)
  {
    HeaderComesFirst(fm, book, other, false, ids);
    AppendFrom(fm, book, other, false, ids, 0);
    CopiedAddresses(other, |other|, ids);
  }
  // ---- Records that are not entries ----

  /** A port that is no number reads as 9999, any other number as its lowest sixteen bits. */
  lemma PortIsRead(fm: Formats, f: seq<string>)
    requires |f| == |COLUMNS|
    ensures
      var p := fm.toInt(f[2]);
      && 0 <= Port(fm, COLUMNS, f) < 65536
      && (p.None? ==> Port(fm, COLUMNS, f) == 9999)
      && (p.Some? && 0 <= p.value < 65536 ==> Port(fm, COLUMNS, f) == p.value)
      && (p == Some(65536 + 80) ==> Port(fm, COLUMNS, f) == 80) && (p == Some(-1) ==> Port(fm, COLUMNS, f) == 65535)
  {
    CellAt(f, 2, "port");
  }

  /** A file whose one record is that of `f`. */
  function FileOf(cols: seq<string>, f: seq<string>): string {
    Join(cols) + "\n" + (Join(f) + "\n" + [])
  }

  lemma HeaderIsRead(fm: Formats, book: seq<Entry>, cols: seq<string>, text: string, merge: bool, ids: nat -> string)
    requires !HasBreak(cols) && Join(cols) != []
    ensures Import(fm, book, Join(cols) + "\n" + text, merge, ids) == ImportRecords(fm, cols, book, text, merge, ids, 0)
  {
    ReadWholeRecord(cols, text);
    ParseInvertsJoin(cols);
  }

  lemma LastRecord(fm: Formats, book: seq<Entry>, cols: seq<string>, f: seq<string>, merge: bool, ids: nat -> string, n: nat)
    requires !HasBreak(f) && Join(f) != []
    ensures
      var read, result := ReadEntry(fm, cols, f), ImportRecords(fm, cols, book, Join(f) + "\n" + [], merge, ids, n);
      && (read.OutOfRange? ==> result.None?)
      && (read.Skipped? ==> result == Some((book, n)))
  {
    ReadWholeRecord(f, []);
    ParseInvertsJoin(f);
  }

  lemma WhatIsRead(fm: Formats, cols: seq<string>, f: seq<string>, at: int)
    requires at == IndexOf(cols, "ip")
    ensures at < 0 ==> ReadEntry(fm, cols, f).OutOfRange?
    ensures 0 <= at && (|f| <= at || Trimmed(f[at]) == []) ==> ReadEntry(fm, cols, f).Skipped?
    ensures 0 <= at < |f| && Trimmed(f[at]) != [] && Short(cols, f) ==> ReadEntry(fm, cols, f).OutOfRange?
  {
  }

  /** A file of one record, with any header: a record that ends before its address, or has a blank
      one, is passed over; one that ends before another column is read out of range, and so is any
      record when the header has no address. */
  lemma ImportOfRecord(fm: Formats, book: seq<Entry>, cols: seq<string>, f: seq<string>, merge: bool, ids: nat -> string,
                       at: int)
    requires !HasBreak(cols) && Join(cols) != [] && !HasBreak(f) && Join(f) != [] && at == IndexOf(cols, "ip")
    ensures at < 0 ==> Import(fm, book, FileOf(cols, f), merge, ids).None?
    ensures 0 <= at && (|f| <= at || Trimmed(f[at]) == []) ==> Import(fm, book, FileOf(cols, f), merge, ids) == Some((book, 0))
    ensures 0 <= at < |f| && Trimmed(f[at]) != [] && Short(cols, f) ==> Import(fm, book, FileOf(cols, f), merge, ids).None?
  {
    HeaderIsRead(fm, book, cols, Join(f) + "\n" + [], merge, ids);
    LastRecord(fm, book, cols, f, merge, ids, 0);
    WhatIsRead(fm, cols, f, at);
  }
}
