/** Comma-separated values in the style of RFC 4180: printing and parsing one record. */
module Csv {
  import opened Sequences

  predicate Special(c: char) {
    c == ',' || c == '"' || c == '\n' || c == '\r'
  }

  function Doubled(s: string): string {
    if s == [] then [] else (if s[0] == '"' then "\"\"" else [s[0]]) + Doubled(s[1..])
  }

  /** A field with a comma, a quote or a line break is quoted, and its quotes are doubled. */
  function CsvField(s: string): string {
    if exists i | 0 <= i < |s| :: Special(s[i]) then "\"" + Doubled(s) + "\"" else s
  }

  /** The fields of a record, separated by commas. */
  function Join(fields: seq<string>): string {
    if fields == [] then []
    else if |fields| == 1 then CsvField(fields[0])
    else CsvField(fields[0]) + "," + Join(fields[1..])
  }

  /** The fields still to come, when `cur` has been read of the first of them. */
  function ParseFrom(rest: string, cur: string, inQuotes: bool): (fields: seq<string>)
    ensures fields != []
    decreases |rest|
  {
    if rest == [] then [cur]
    else
      var c := rest[0];
      if inQuotes then
        if c != '"' then ParseFrom(rest[1..], cur + [c], true)
        else if 1 < |rest| && rest[1] == '"' then ParseFrom(rest[2..], cur + ['"'], true)
        else ParseFrom(rest[1..], cur, false)
      else if c == '"' then ParseFrom(rest[1..], cur, true)
      else if c == ',' then [cur] + ParseFrom(rest[1..], [], false)
      else ParseFrom(rest[1..], cur + [c], false)
  }

  function Parse(line: string): seq<string> {
    ParseFrom(line, [], false)
  }

  /** The character loop of `parseCsvLine`. */
  method ParseCsvLine(line: string) returns (fields: seq<string>)
    ensures fields == Parse(line)
  {
    fields := [];
    var cur: string := [];
    var inQuotes := false;
    var i := 0;
    assert line[0..] == line;
    while i < |line|
      invariant 0 <= i <= |line|
      invariant fields + ParseFrom(line[i..], cur, inQuotes) == Parse(line)
    {
      var c := line[i];
      ghost var rest := line[i..];
      assert rest[1..] == line[i + 1..];
      if inQuotes {
        if c == '"' {
          if i + 1 < |line| && line[i + 1] == '"' {
            assert rest[2..] == line[i + 2..];
            cur := cur + ['"'];
            i := i + 1;
          } else {
            inQuotes := false;
          }
        } else {
          cur := cur + [c];
        }
      } else {
        if c == '"' {
          inQuotes := true;
        } else if c == ',' {
          Associate(fields, [cur], ParseFrom(rest[1..], [], false));
          fields := fields + [cur];
          cur := [];
        } else {
          cur := cur + [c];
        }
      }
      i := i + 1;
    }
    fields := fields + [cur];
  }

  // ---- The parser inverts the printer ----

  lemma {:induction false} ParseQuoted(s: string, rest: string, cur: string)
    requires rest == [] || rest[0] != '"'
    ensures ParseFrom(Doubled(s) + "\"" + rest, cur, true) == ParseFrom(rest, cur + s, false)
    decreases |s|
  {
    if s == [] {
      assert Doubled(s) + "\"" + rest == ['"'] + rest;
      assert cur + s == cur;
    } else {
      var tail := Doubled(s[1..]) + "\"" + rest;
      var head := if s[0] == '"' then "\"\"" else [s[0]];
      assert Doubled(s) + "\"" + rest == head + tail;
      assert (head + tail)[|head|..] == tail;
      assert (cur + [s[0]]) + s[1..] == cur + s;
      ParseQuoted(s[1..], rest, cur + [s[0]]);
    }
  }

  lemma {:induction false} ParsePlain(s: string, rest: string, cur: string)
    requires forall i | 0 <= i < |s| :: !Special(s[i])
    ensures ParseFrom(s + rest, cur, false) == ParseFrom(rest, cur + s, false)
    decreases |s|
  {
    if s == [] {
      assert s + rest == rest && cur + s == cur;
    } else {
      assert (s + rest)[1..] == s[1..] + rest;
      assert (cur + [s[0]]) + s[1..] == cur + s;
      ParsePlain(s[1..], rest, cur + [s[0]]);
    }
  }

  lemma ParseField(s: string, rest: string)
    requires rest == [] || rest[0] == ','
    ensures ParseFrom(CsvField(s) + rest, [], false) == ParseFrom(rest, s, false)
  {
    if exists i | 0 <= i < |s| :: Special(s[i]) {
      var quoted := Doubled(s) + "\"" + rest;
      assert CsvField(s) + rest == ['"'] + quoted;
      assert (['"'] + quoted)[1..] == quoted;
      ParseQuoted(s, rest, []);
      assert [] + s == s;
    } else {
      ParsePlain(s, rest, []);
      assert [] + s == s;
    }
  }

  /** Every list of fields comes back, whatever the fields contain, except the empty list, which
      looks like a single empty field. */
  lemma {:induction false} ParseInvertsJoin(fields: seq<string>)
    ensures Parse(Join(fields)) == fields <==> fields != []
    decreases |fields|
  {
    if fields == [] {
    } else if |fields| == 1 {
      assert CsvField(fields[0]) + [] == CsvField(fields[0]);
      ParseField(fields[0], []);
    } else {
      var rest := "," + Join(fields[1..]);
      assert Join(fields) == CsvField(fields[0]) + rest;
      ParseField(fields[0], rest);
      assert rest[1..] == Join(fields[1..]);
      ParseInvertsJoin(fields[1..]);
      assert [fields[0]] + fields[1..] == fields;
    }
  }

  predicate Plain(s: string) {
    forall i | 0 <= i < |s| :: !Special(s[i])
  }

  /** Quotes may open and close inside a field: its parts run together. */
  lemma QuotedPart(before: string, quoted: string, after: string)
    requires Plain(before) && Plain(after)
    ensures Parse(before + ("\"" + (Doubled(quoted) + "\"" + after))) == [before + quoted + after]
  {
    var rest := Doubled(quoted) + "\"" + after;
    ParsePlain(before, "\"" + rest, []);
    assert ("\"" + rest)[1..] == rest && [] + before == before;
    ParseQuoted(quoted, after, before);
    ParsePlain(after, [], before + quoted);
    assert after + [] == after;
  }

  // ---- Records in a file ----

  /** One line of the text, without its line end, and the text behind it. */
  function ReadLine(text: string): (r: (string, string))
    ensures text != [] ==> |r.1| < |text|
  {
    var (line, rest, ended) := ScanLine(text);
    (if ended && line != [] && line[|line| - 1] == '\r' then line[..|line| - 1] else line, rest)
  }

  function ScanLine(text: string): (r: (string, string, bool))
    ensures text != [] ==> |r.1| < |text|
  {
    if text == [] then ([], [], false)
    else if text[0] == '\n' then ([], text[1..], true)
    else var (line, rest, ended) := ScanLine(text[1..]); ([text[0]] + line, rest, ended)
  }

  function Quotes(s: string): nat {
    if s == [] then 0 else (if s[0] == '"' then 1 else 0) + Quotes(s[1..])
  }

  function Continue(read: string, part: string): string {
    if read == [] then part else read + "\n" + part
  }

  /** The `readLine` of the import: lines with an odd number of quotes are joined with what
      follows, up to the next line with an even number. */
  function ReadRecord(text: string, read: string): (r: (string, string))
    ensures text != [] ==> |r.1| < |text|
    decreases |text|
  {
    if text == [] then (read, []) else
      var (part, rest) := ReadLine(text);
      if Quotes(part) % 2 == 0 then (Continue(read, part), rest) else ReadRecord(rest, Continue(read, part))
  }

  method ReadCsvRecord(text: string) returns (record: string, rest: string)
    ensures (record, rest) == ReadRecord(text, [])
  {
    record, rest := [], text;
    while rest != []
      invariant ReadRecord(rest, record) == ReadRecord(text, [])
      decreases |rest|
    {
      var (part, next) := ReadLine(rest);
      record, rest := Continue(record, part), next;
      if Quotes(part) % 2 == 0 {
        return;
      }
    }
  }

  lemma {:induction false} QuotesAppend(a: string, b: string)
    ensures Quotes(a + b) == Quotes(a) + Quotes(b)
  {
    if a == [] {
      assert a + b == b;
    } else {
      assert (a + b)[1..] == a[1..] + b;
      QuotesAppend(a[1..], b);
    }
  }

  // ---- What a printed record looks like ----

  /** Every line break stands inside quotes; `open` says whether the text begins inside. */
  predicate Guarded(s: string, open: bool) {
    s == [] ||
    if s[0] == '"' then Guarded(s[1..], !open) else (s[0] == '\n' ==> open) && Guarded(s[1..], open)
  }

  predicate Odd(s: string) {
    Quotes(s) % 2 == 1
  }

  lemma {:induction false} GuardedAppend(a: string, b: string, open: bool)
    ensures Guarded(a + b, open) <==> Guarded(a, open) && Guarded(b, open != Odd(a))
  {
    if a == [] {
      assert a + b == b;
    } else {
      assert (a + b)[1..] == a[1..] + b;
      GuardedAppend(a[1..], b, if a[0] == '"' then !open else open);
    }
  }

  /** Doubling the quotes leaves an even number of them, and every break where it was. */
  lemma {:induction false} DoubledIsGuarded(s: string)
    ensures Quotes(Doubled(s)) == 2 * Quotes(s)
    ensures Guarded(Doubled(s), true)
    ensures '\n' in Doubled(s) <==> '\n' in s
  {
    if s != [] {
      var head, tail := if s[0] == '"' then "\"\"" else [s[0]], Doubled(s[1..]);
      DoubledIsGuarded(s[1..]);
      HeadIsGuarded(s[0], head);
      QuotesAppend(head, tail);
      GuardedAppend(head, tail, true);
      assert s == [s[0]] + s[1..];
    }
  }

  lemma HeadIsGuarded(c: char, head: string)
    requires head == if c == '"' then "\"\"" else [c]
    ensures Quotes(head) == (if c == '"' then 2 else 0) && Guarded(head, true)
    ensures '\n' in head <==> c == '\n'
  {
    if c == '"' {
      var tail := head[1..];
      assert |tail| == 1 && tail[0] == '"' && tail[1..] == [];
      assert Quotes(tail) == 1 && Guarded(tail, false);
    } else {
      assert head[1..] == [];
    }
  }

  lemma {:induction false} PlainIsGuarded(s: string)
    requires forall i | 0 <= i < |s| :: !Special(s[i])
    ensures Quotes(s) == 0 && Guarded(s, false) && '\n' !in s
  {
    if s != [] {
      PlainIsGuarded(s[1..]);
      assert s == [s[0]] + s[1..];
    }
  }

  /** What holds of a printed field, and of a printed record. */
  predicate Printed(text: string, breaks: bool) {
    && !Odd(text) && Guarded(text, false) && ('\n' in text <==> breaks)
    && (text != [] ==> text[|text| - 1] != '\r')
  }

  lemma FieldIsPrinted(s: string)
    ensures Printed(CsvField(s), '\n' in s)
  {
    if exists i | 0 <= i < |s| :: Special(s[i]) {
      var body := Doubled(s);
      DoubledIsGuarded(s);
      QuotesAppend("\"" + body, "\"");
      QuotesAppend("\"", body);
      GuardedAppend("\"" + body, "\"", false);
      GuardedAppend("\"", body, false);
    } else {
      PlainIsGuarded(s);
      assert s != [] ==> !Special(s[|s| - 1]);
    }
  }

  lemma JoinPrinted(first: string, rest: string, b: bool, d: bool)
    requires Printed(first, b) && Printed(rest, d)
    ensures Printed(first + "," + rest, b || d)
  {
    QuotesAppend(first + ",", rest);
    QuotesAppend(first, ",");
    GuardedAppend(first + ",", rest, false);
    GuardedAppend(first, ",", false);
  }

  predicate HasBreak(fields: seq<string>) {
    exists f | f in fields :: '\n' in f
  }

  lemma {:induction false} RecordIsPrinted(fields: seq<string>)
    ensures Printed(Join(fields), HasBreak(fields))
    decreases |fields|
  {
    if fields != [] {
      FieldIsPrinted(fields[0]);
      assert fields == [fields[0]] + fields[1..];
      if 1 < |fields| {
        RecordIsPrinted(fields[1..]);
        JoinPrinted(CsvField(fields[0]), Join(fields[1..]), '\n' in fields[0], HasBreak(fields[1..]));
      }
    }
  }

  // ---- Reading it back ----

  function Breaks(s: string): nat {
    if s == [] then 0 else (if s[0] == '\n' then 1 else 0) + Breaks(s[1..])
  }

  lemma {:induction false} NoBreaks(s: string)
    ensures Breaks(s) == 0 <==> '\n' !in s
  {
    if s != [] {
      NoBreaks(s[1..]);
      assert s == [s[0]] + s[1..];
    }
  }

  /** The line without the carriage return in front of its line break. */
  function Chomp(line: string): string {
    if line != [] && line[|line| - 1] == '\r' then line[..|line| - 1] else line
  }

  lemma ChompKeepsQuotes(line: string)
    ensures Quotes(Chomp(line)) == Quotes(line)
  {
    if Chomp(line) != line {
      assert line == Chomp(line) + "\r";
      QuotesAppend(Chomp(line), "\r");
    }
  }

  lemma {:induction false} ScanWholeLine(line: string, rest: string)
    requires '\n' !in line
    ensures ScanLine(line + "\n" + rest) == (line, rest, true)
  {
    var text := line + "\n" + rest;
    if line == [] {
      assert text[1..] == rest;
    } else {
      assert text[1..] == line[1..] + "\n" + rest;
      ScanWholeLine(line[1..], rest);
      assert [line[0]] + line[1..] == line;
    }
  }

  lemma ReadWholeLine(line: string, rest: string)
    requires '\n' !in line
    ensures ReadLine(line + "\n" + rest) == (Chomp(line), rest)
  {
    ScanWholeLine(line, rest);
  }

  /** The text up to the first line break, and the text behind it. */
  lemma {:induction false} SplitAtBreak(s: string) returns (line: string, behind: string)
    requires '\n' in s
    ensures s == line + "\n" + behind && '\n' !in line && Breaks(behind) == Breaks(s) - 1
  {
    if s[0] == '\n' {
      line, behind := [], s[1..];
    } else {
      assert s == [s[0]] + s[1..];
      line, behind := SplitAtBreak(s[1..]);
      line := [s[0]] + line;
    }
  }

  /** A record with a break begins with a line with an odd number of quotes; the text behind it
      begins inside quotes. */
  lemma FirstLineIsOdd(line: string, behind: string)
    requires Guarded(line + "\n" + behind, false) && '\n' !in line && !Odd(line + "\n" + behind)
    ensures Odd(line) && Odd(behind) && Guarded(behind, true)
  {
    assert line + "\n" + behind == line + ("\n" + behind);
    GuardedAppend(line, "\n" + behind, false);
    assert ("\n" + behind)[1..] == behind;
    QuotesAppend(line, "\n" + behind);
  }

  /** A line between two breaks of a record has an even number of quotes. */
  lemma MiddleLineIsEven(line: string, behind: string)
    requires Guarded(line + "\n" + behind, true)
    ensures !Odd(line)
  {
    assert line + "\n" + behind == line + ("\n" + behind);
    GuardedAppend(line, "\n" + behind, true);
  }

  /** One line of a record: with an even number of quotes it is the last one. */
  lemma NextLine(line: string, rest: string, read: string)
    requires '\n' !in line
    ensures ReadRecord(line + "\n" + rest, read)
         == if Odd(line) then ReadRecord(rest, Continue(read, Chomp(line))) else (Continue(read, Chomp(line)), rest)
  {
    ReadWholeLine(line, rest);
    ChompKeepsQuotes(line);
  }

  lemma Behind(line: string, behind: string, rest: string)
    ensures line + "\n" + behind + "\n" + rest == line + "\n" + (behind + "\n" + rest)
  {
  }

  /** Without a break in its fields a printed record is read back as one line. */
  lemma ReadWholeRecord(fields: seq<string>, rest: string)
    requires !HasBreak(fields)
    ensures ReadRecord(Join(fields) + "\n" + rest, []) == (Join(fields), rest)
  {
    RecordIsPrinted(fields);
    ReadWholeLine(Join(fields), rest);
  }

  /** The two lines of a record with one break, as they are joined again. */
  function Rejoined(record: string): string {
    ReadLine(record).0 + "\n" + ReadLine(record).1
  }

  /** A printed record with exactly one break never ends: its second line has an odd number of
      quotes too, and so the line behind it is joined as well. */
  lemma OneBreakSwallows(fields: seq<string>, rest: string)
    requires Breaks(Join(fields)) == 1
    ensures ReadRecord(Join(fields) + "\n" + rest, []) == ReadRecord(rest, Rejoined(Join(fields)))
    ensures Rejoined(Join(fields)) == Join(fields) <==> !CarriageReturnAtBreak(Join(fields))
  {
    var record := Join(fields);
    RecordIsPrinted(fields);
    NoBreaks(record);
    var line, behind := SplitAtBreak(record);
    NoBreaks(behind);
    FirstLineIsOdd(line, behind);
    Behind(line, behind, rest);
    NextLine(line, behind + "\n" + rest, []);
    NextLine(behind, rest, Chomp(line));
    ReadWholeLine(line, behind);
    LastLine(line, behind);
    OddIsNotEmpty(line);
    CarriageReturn(line, behind);
  }

  lemma OddIsNotEmpty(line: string)
    requires Odd(line)
    ensures Chomp(line) != []
  {
    ChompKeepsQuotes(line);
  }

  lemma LastLine(line: string, behind: string)
    requires var record := line + "\n" + behind; record[|record| - 1] != '\r'
    ensures Chomp(behind) == behind
  {
  }

  /** A break with a carriage return in front of it, which reading the line drops. */
  predicate CarriageReturnAtBreak(s: string) {
    exists i | 0 < i < |s| :: s[i] == '\n' && s[i - 1] == '\r'
  }

  lemma CarriageReturn(line: string, behind: string)
    requires '\n' !in line && '\n' !in behind
    ensures CarriageReturnAtBreak(line + "\n" + behind) <==> Chomp(line) != line
    ensures Chomp(line) + "\n" + behind == line + "\n" + behind <==> Chomp(line) == line
  {
    var s := line + "\n" + behind;
    assert s[|line|] == '\n' && (line != [] ==> s[|line| - 1] == line[|line| - 1]);
    assert forall i | |line| < i < |s| :: s[i] == behind[i - |line| - 1];
    assert |Chomp(line) + "\n" + behind| == |s| <==> Chomp(line) == line;
  }

  /** A printed record with more breaks is cut after its second line: that line begins and ends
      inside quotes, and so has an even number of them. */
  lemma MoreBreaksCut(fields: seq<string>, rest: string) returns (second: string, behind: string)
    requires 1 < Breaks(Join(fields))
    ensures ReadRecord(Join(fields) + "\n" + rest, [])
         == (ReadLine(Join(fields)).0 + "\n" + Chomp(second), behind + "\n" + rest)
    ensures ReadLine(Join(fields)).1 == second + "\n" + behind && '\n' !in second
  {
    var record := Join(fields);
    RecordIsPrinted(fields);
    NoBreaks(record);
    var line, tail := SplitAtBreak(record);
    NoBreaks(tail);
    FirstLineIsOdd(line, tail);
    Behind(line, tail, rest);
    NextLine(line, tail + "\n" + rest, []);
    ReadWholeLine(line, tail);
    OddIsNotEmpty(line);
    second, behind := SplitAtBreak(tail);
    MiddleLineIsEven(second, behind);
    Behind(second, behind, rest);
    NextLine(second, behind + "\n" + rest, Chomp(line));
  }

  /** Exactly when a printed record is read back: without a break always, with one only at the end
      of the file and if no carriage return stands in front of it, with more never. */
  lemma ReadBackExactly(fields: seq<string>, rest: string)
    ensures
      var record := Join(fields);
      ReadRecord(record + "\n" + rest, []) == (record, rest)
      <==> (Breaks(record) == 0 || (Breaks(record) == 1 && rest == [] && !CarriageReturnAtBreak(record)))
  {
    var record := Join(fields);
    RecordIsPrinted(fields);
    NoBreaks(record);
    if Breaks(record) == 0 {
      ReadWholeRecord(fields, rest);
    } else if Breaks(record) == 1 {
      OneBreakSwallows(fields, rest);
    } else {
      var second, behind := MoreBreaksCut(fields, rest);
      assert |behind + "\n" + rest| != |rest|;
    }
  }

  /** The record is read back as it was printed. */
  predicate ReadBack(fields: seq<string>, rest: string) {
    ReadRecord(Join(fields) + "\n" + rest, []) == (Join(fields), rest)
  }

  /** A printed record is read back whatever follows it if and only if no field has a line break. */
  lemma ReadBackEverywhere(fields: seq<string>)
    ensures (forall rest :: ReadBack(fields, rest)) <==> !HasBreak(fields)
  {
    RecordIsPrinted(fields);
    NoBreaks(Join(fields));
    if HasBreak(fields) {
      ReadBackExactly(fields, "x");
      assert !ReadBack(fields, "x");
    } else {
      forall rest: string ensures ReadBack(fields, rest) {
        ReadWholeRecord(fields, rest);
      }
    }
  }

  /** So a record with one break swallows the one-line record behind it. */
  lemma TwoLineRecordSwallowsNext(fields: seq<string>, next: seq<string>, rest: string)
    requires Breaks(Join(fields)) == 1 && !HasBreak(next)
    ensures ReadRecord(Join(fields) + "\n" + (Join(next) + "\n" + rest), [])
         == (Rejoined(Join(fields)) + "\n" + Join(next), rest)
  {
    OneBreakSwallows(fields, Join(next) + "\n" + rest);
    RecordIsPrinted(next);
    ReadWholeLine(Join(next), rest);
  }

  lemma {:induction false} PrintedWithBreak(s: string)
    requires '\n' in s && '"' !in s
    ensures Join([s]) == "\"" + s + "\""
  {
    var i :| 0 <= i < |s| && s[i] == '\n';
    assert Special(s[i]);
    NotDoubled(s);
  }

  lemma {:induction false} NotDoubled(s: string)
    requires '"' !in s
    ensures Doubled(s) == s
  {
    if s != [] {
      assert s == [s[0]] + s[1..];
      NotDoubled(s[1..]);
    }
  }

  lemma {:induction false} CountBreaks(line: string, behind: string)
    requires '\n' !in line
    ensures Breaks(line + "\n" + behind) == 1 + Breaks(behind)
  {
    var s := line + "\n" + behind;
    if line == [] {
      assert s[1..] == behind;
    } else {
      assert s[1..] == line[1..] + "\n" + behind;
      CountBreaks(line[1..], behind);
    }
  }

  /** One field of two lines swallows the record behind it. */
  lemma TwoLinesSwallow(a: string, b: string, next: seq<string>, rest: string)
    requires a != [] && a[|a| - 1] != '\r' && '\n' !in a + b && '"' !in a + b && !HasBreak(next)
    ensures ReadRecord(Join([a + "\n" + b]) + "\n" + (Join(next) + "\n" + rest), [])
         == ("\"" + a + "\n" + b + "\"" + "\n" + Join(next), rest)
  {
    var record := "\"" + a + "\n" + (b + "\"");
    PrintedWithBreak(a + "\n" + b);
    assert Join([a + "\n" + b]) == record;
    CountBreaks("\"" + a, b + "\"");
    NoBreaks(b + "\"");
    ReadWholeLine("\"" + a, b + "\"");
    TwoLineRecordSwallowsNext([a + "\n" + b], next, rest);
    assert Rejoined(record) == "\"" + a + "\n" + b + "\"";
  }


  lemma SecondLineEnds(first: string, second: string, behind: string)
    requires '\n' !in first && '\n' !in second && Odd(first) && !Odd(second)
    requires first != [] && Chomp(first) == first && Chomp(second) == second
    ensures ReadRecord(first + "\n" + (second + "\n" + behind), []) == (first + "\n" + second, behind)
  {
    NextLine(first, second + "\n" + behind, []);
    NextLine(second, behind, first);
  }

  lemma ThreeLines(a: string, b: string, d: string, rest: string)
    ensures "\"" + (a + "\n" + b + "\n" + d) + "\"" + "\n" + rest
         == ("\"" + a) + "\n" + (b + "\n" + (d + "\"" + "\n" + rest))
  {
  }

  /** One of three lines is cut after the second, and the third begins a record of its own. */
  lemma ThreeLinesAreCut(a: string, b: string, d: string, rest: string)
    requires a != [] && a[|a| - 1] != '\r' && (b != [] ==> b[|b| - 1] != '\r')
    requires '\n' !in a + b && '"' !in a + b && '"' !in d
    ensures ReadRecord(Join([a + "\n" + b + "\n" + d]) + "\n" + rest, [])
         == ("\"" + a + "\n" + b, d + "\"" + "\n" + rest)
  {
    PrintedWithBreak(a + "\n" + b + "\n" + d);
    ThreeLines(a, b, d, rest);
    PlainQuotes(a);
    PlainQuotes(b);
    QuotesAppend("\"", a);
    SecondLineEnds("\"" + a, b, d + "\"" + "\n" + rest);
  }

  lemma {:induction false} PlainQuotes(s: string)
    requires '"' !in s
    ensures Quotes(s) == 0
  {
    if s != [] {
      assert s == [s[0]] + s[1..];
      PlainQuotes(s[1..]);
    }
  }
}
