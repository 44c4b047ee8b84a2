/** The CSV export of the audit log, read back by the rules of section 2 of RFC 4180 with
    line feeds for record breaks. */
module AuditCsv {
  import opened OrderedMerge

  /** A column's value as JavaScript sees it. */
  datatype Value = Missing | Date(iso: string) | Object(json: string) | Plain(text: string)

  type Row = string -> Value

  const COLUMNS: seq<string> := [
    "id", "createdAt", "organizationId", "workspaceId", "systemId", "actorUserId",
    "action", "targetType", "targetId", "origin", "metadata" ]

  // ----- the printer

  /** The text of a value; missing ones print as nothing. */
  function ValueForColumn(row: Row, column: string): string {
    match row(column)
    case Missing => ""
    case Date(iso) => iso
    case Object(json) => json
    case Plain(text) => text
  }

  /** `replace(/\r?\n/g, ' ')` */
  function OneLine(s: string): string {
    if s == "" then ""
    else if s[0] == '\n' then " " + OneLine(s[1..])
    else if s[0] == '\r' && |s| > 1 && s[1] == '\n' then " " + OneLine(s[2..])
    else [s[0]] + OneLine(s[1..])
  }

  /** `replace(/"/g, '""')` */
  function Doubled(s: string): string {
    if s == "" then "" else (if s[0] == '"' then "\"\"" else [s[0]]) + Doubled(s[1..])
  }

  function CsvCell(value: string): string {
    "\"" + Doubled(OneLine(value)) + "\""
  }

  function Join(parts: seq<string>, separator: char): string {
    if parts == [] then "" else if |parts| == 1 then parts[0] else parts[0] + [separator] + Join(parts[1..], separator)
  }

  function CellsOf(row: Row): seq<string> {
    seq(|COLUMNS|, i requires 0 <= i < |COLUMNS| => ValueForColumn(row, COLUMNS[i]))
  }

  function Line(cells: seq<string>): string {
    Join(seq(|cells|, i requires 0 <= i < |cells| => CsvCell(cells[i])), ',')
  }

  function Cells(rows: seq<Row>): (cells: seq<seq<string>>)
    ensures |cells| == |rows| && forall i | 0 <= i < |cells| :: cells[i] == CellsOf(rows[i])
  {
    seq(|rows|, i requires 0 <= i < |rows| => CellsOf(rows[i]))
  }

  function Lines(rows: seq<seq<string>>): seq<string> {
    seq(|rows|, i requires 0 <= i < |rows| => Line(rows[i]))
  }

  function ToCsv(rows: seq<Row>): string {
    Join([Join(COLUMNS, ',')] + Lines(Cells(rows)), '\n')
  }

  // ----- the reader

  /** Inside a field that is not quoted, inside quotes, or just after a quote inside quotes. */
  datatype Mode = Start | Bare | Quoted | Quote

  /** What has been read: finished records, the fields of the current one, the current field. */
  datatype Reader = Reader(records: seq<seq<string>>, fields: seq<string>, field: string, mode: Mode) | Malformed

  function EndField(r: Reader): Reader
    requires r.Reader?
  {
    Reader(r.records, r.fields + [r.field], "", Start)
  }

  function EndRecord(r: Reader): Reader
    requires r.Reader?
  {
    Reader(r.records + [r.fields + [r.field]], [], "", Start)
  }

  /** One character. Quotes may open only at the start of a field and, once closed, only a
      separator may follow; a bare field contains no quote. */
  function Step(r: Reader, c: char): Reader {
    if r.Malformed? then r
    else match r.mode
      case Start =>
        if c == '"' then r.(mode := Quoted)
        else if c == ',' then EndField(r)
        else if c == '\n' then EndRecord(r)
        else r.(field := r.field + [c], mode := Bare)
      case Bare =>
        if c == '"' then Malformed
        else if c == ',' then EndField(r)
        else if c == '\n' then EndRecord(r)
        else r.(field := r.field + [c])
      case Quoted =>
        if c == '"' then r.(mode := Quote) else r.(field := r.field + [c])
      case Quote =>
        if c == '"' then r.(field := r.field + ['"'], mode := Quoted)
        else if c == ',' then EndField(r)
        else if c == '\n' then EndRecord(r)
        else Malformed
  }

  function ReadFrom(r: Reader, s: string): Reader
    decreases |s|
  {
    if s == "" then r else ReadFrom(Step(r, s[0]), s[1..])
  }

  /** Nothing of a record has been read yet. */
  predicate AtStart(r: Reader) {
    r.Reader? && r.mode == Start && r.fields == [] && r.field == ""
  }

  /** The records of a text, none if malformed. The last record may end with a line break or
      with the text. */
  function Read(s: string): Option<seq<seq<string>>> {
    var r := ReadFrom(Reader([], [], "", Start), s);
    if r.Malformed? || r.mode == Quoted then None
    else Some(if AtStart(r) then r.records else EndRecord(r).records)
  }

  lemma {:induction false} ReadOn(r: Reader, a: string, b: string)
    ensures ReadFrom(r, a + b) == ReadFrom(ReadFrom(r, a), b)
    decreases |a|
  {
    if a == "" {
      assert a + b == b;
    } else {
      assert (a + b)[1..] == a[1..] + b;
      ReadOn(Step(r, a[0]), a[1..], b);
    }
  }

  lemma ReadOne(r: Reader, c: char)
    ensures ReadFrom(r, [c]) == Step(r, c)
  {
    assert [c][1..] == "";
  }

  /** A separator between two texts is one step between two readings. */
  lemma ReadSeparated(r: Reader, head: string, c: char, tail: string)
    ensures ReadFrom(r, head + ([c] + tail)) == ReadFrom(Step(ReadFrom(r, head), c), tail)
  {
    ReadOn(r, head, [c] + tail);
    ReadOn(ReadFrom(r, head), [c], tail);
    ReadOne(ReadFrom(r, head), c);
  }

  // ----- one cell

  /** Between quotes, doubled quotes read as one and everything else as itself. */
  lemma {:induction false} ReadDoubled(r: Reader, s: string)
    requires r.Reader? && r.mode == Quoted
    ensures ReadFrom(r, Doubled(s)) == r.(field := r.field + s)
    decreases |s|
  {
    if s == "" {
      assert r.field + s == r.field;
    } else {
      var head := if s[0] == '"' then "\"\"" else [s[0]];
      ReadOn(r, head, Doubled(s[1..]));
      var next := r.(field := r.field + [s[0]]);
      assert ReadFrom(r, head) == next by {
        if s[0] == '"' {
          assert head[1..] == "\"";
          ReadOne(Step(r, '"'), '"');
        } else {
          ReadOne(r, s[0]);
        }
      }
      ReadDoubled(next, s[1..]);
      assert next.field + s[1..] == r.field + s;
    }
  }

  /** A printed cell reads as its one-line text, up to its closing quote. */
  lemma ReadCell(r: Reader, value: string)
    requires r.Reader? && r.mode == Start && r.field == ""
    ensures ReadFrom(r, CsvCell(value)) == r.(field := OneLine(value), mode := Quote)
  {
    var open_ := r.(mode := Quoted);
    ReadOne(r, '"');
    ReadOn(r, "\"", Doubled(OneLine(value)) + "\"");
    assert CsvCell(value) == "\"" + (Doubled(OneLine(value)) + "\"");
    ReadOn(open_, Doubled(OneLine(value)), "\"");
    ReadDoubled(open_, OneLine(value));
    assert open_.field + OneLine(value) == OneLine(value);
    ReadOne(open_.(field := OneLine(value)), '"');
  }

  // ----- one line

  /** A reader that has just read all of these fields, the last one still open. */
  predicate HasRead(r: Reader, before: Reader, fields: seq<string>) {
    before.Reader? && r.Reader? && fields != [] && r.mode != Quoted && r.records == before.records &&
    r.fields == before.fields + fields[..|fields| - 1] && r.field == fields[|fields| - 1]
  }

  function OneLines(cells: seq<string>): seq<string> {
    seq(|cells|, i requires 0 <= i < |cells| => OneLine(cells[i]))
  }

  lemma HasReadOne(after: Reader, r: Reader, field: string)
    requires r.Reader? && after.Reader? && after.mode != Quoted && after == r.(field := field, mode := after.mode)
    ensures HasRead(after, r, [field])
  {
  }

  lemma HasReadMore(after: Reader, r: Reader, field: string, rest: seq<string>)
    requires r.Reader? && HasRead(after, EndField(r.(field := field)), rest)
    ensures HasRead(after, r, [field] + rest)
  {
    assert ([field] + rest)[..|rest|] == [field] + rest[..|rest| - 1];
  }

  lemma LineSplits(cells: seq<string>)
    requires |cells| > 1
    ensures Line(cells) == CsvCell(cells[0]) + ([','] + Line(cells[1..]))
  {
    var rest := cells[1..];
    var quoted := seq(|cells|, i requires 0 <= i < |cells| => CsvCell(cells[i]));
    assert quoted[1..] == seq(|rest|, i requires 0 <= i < |rest| => CsvCell(rest[i]));
  }

  lemma OneLinesSplit(cells: seq<string>)
    requires cells != []
    ensures OneLines(cells) == [OneLine(cells[0])] + OneLines(cells[1..])
  {
  }

  lemma {:induction false} ReadLine(r: Reader, cells: seq<string>)
    requires r.Reader? && r.mode == Start && r.field == "" && cells != []
    ensures HasRead(ReadFrom(r, Line(cells)), r, OneLines(cells)) && ReadFrom(r, Line(cells)).mode == Quote
    decreases |cells|
  {
    ReadCell(r, cells[0]);
    OneLinesSplit(cells);
    var first := ReadFrom(r, CsvCell(cells[0]));
    if |cells| == 1 {
      assert Line(cells) == CsvCell(cells[0]);
      HasReadOne(first, r, OneLine(cells[0]));
    } else {
      LineSplits(cells);
      StepComma(first);
      hide ReadFrom, Step, Line, OneLines, OneLine, CsvCell, HasRead;
      ReadSeparated(r, CsvCell(cells[0]), ',', Line(cells[1..]));
      ReadLine(EndField(first), cells[1..]);
      HasReadMore(ReadFrom(EndField(first), Line(cells[1..])), r, OneLine(cells[0]), OneLines(cells[1..]));
    }
  }

  /** A bare text without quotes, commas and line feeds. */
  predicate IsBare(s: string) {
    forall i | 0 <= i < |s| :: s[i] != '"' && s[i] != ',' && s[i] != '\n'
  }

  lemma {:induction false} ReadBare(r: Reader, s: string)
    requires r.Reader? && r.mode in {Start, Bare} && IsBare(s)
    ensures var after := ReadFrom(r, s);
            after.Reader? && after.mode in {Start, Bare} && after == r.(field := r.field + s, mode := after.mode)
    decreases |s|
  {
    if s == "" {
      assert r.field + s == r.field;
    } else {
      ReadBare(Step(r, s[0]), s[1..]);
      assert r.field + [s[0]] + s[1..] == r.field + s;
    }
  }

  lemma StepComma(r: Reader)
    requires r.Reader? && r.mode != Quoted
    ensures Step(r, ',') == EndField(r) && Step(r, '\n') == EndRecord(r)
  {
  }

  lemma {:induction false} ReadHeader(r: Reader, names: seq<string>)
    requires r.Reader? && r.mode == Start && r.field == "" && names != []
    requires forall i | 0 <= i < |names| :: IsBare(names[i])
    ensures HasRead(ReadFrom(r, Join(names, ',')), r, names)
    decreases |names|
  {
    hide ReadFrom, Step, IsBare, HasRead;
    ReadBare(r, names[0]);
    var first := ReadFrom(r, names[0]);
    assert r.field + names[0] == names[0];
    assert names == [names[0]] + names[1..];
    if |names| == 1 {
      assert Join(names, ',') == names[0] && names == [names[0]];
      HasReadOne(first, r, names[0]);
    } else {
      assert Join(names, ',') == names[0] + ([','] + Join(names[1..], ','));
      StepComma(first);
      hide Join;
      ReadSeparated(r, names[0], ',', Join(names[1..], ','));
      ReadHeader(EndField(first), names[1..]);
      HasReadMore(ReadFrom(EndField(first), Join(names[1..], ',')), r, names[0], names[1..]);
    }
  }

  // ----- the whole text

  function Tables(rows: seq<seq<string>>): seq<seq<string>> {
    seq(|rows|, i requires 0 <= i < |rows| => OneLines(rows[i]))
  }

  lemma Regrouped(a: string, b: string, c: string)
    ensures (a + b) + c == a + (b + c)
  {
  }

  lemma TailSplits(rows: seq<seq<string>>)
    requires rows != []
    ensures Tail(rows) == ['\n'] + (Line(rows[0]) + Tail(rows[1..]))
  {
    hide Line;
    Regrouped(['\n'], Line(rows[0]), Tail(rows[1..]));
  }

  lemma TablesSplit(rows: seq<seq<string>>)
    requires rows != []
    ensures Tables(rows) == [OneLines(rows[0])] + Tables(rows[1..])
  {
    hide OneLines;
  }

  lemma NoTail(r: Reader)
    requires r.Reader?
    ensures ReadFrom(r, Tail([])) == r && Tables([]) == [] && EndRecord(r).records + [] == EndRecord(r).records
  {
  }

  lemma ReadBreak(r: Reader, text: string)
    requires r.Reader? && r.mode in {Start, Bare, Quote}
    ensures ReadFrom(r, ['\n'] + text) == ReadFrom(EndRecord(r), text)
  {
    hide ReadFrom;
    ReadOn(r, ['\n'], text);
    ReadOne(r, '\n');
    StepComma(r);
  }

  lemma Records(before: seq<seq<string>>, record: seq<string>, rest: seq<seq<string>>)
    ensures (before + [record]) + rest == before + ([record] + rest)
  {
  }

  /** Lines joined by line feeds read as one record each. */
  lemma {:induction false} ReadLines(r: Reader, rows: seq<seq<string>>)
    requires r.Reader? && r.mode in {Start, Bare, Quote} && forall i | 0 <= i < |rows| :: rows[i] != []
    ensures var after := ReadFrom(r, Tail(rows));
            after.Reader? && after.mode != Quoted && EndRecord(after).records == EndRecord(r).records + Tables(rows) &&
            (!AtStart(r) || rows != [] ==> !AtStart(after))
    decreases |rows|
  {
    hide ReadFrom, Step, Line, Tail, Tables, OneLines, HasRead;
    if rows == [] {
      NoTail(r);
    } else {
      var line, rest, begun := Line(rows[0]), rows[1..], EndRecord(r);
      TailSplits(rows);
      TablesSplit(rows);
      ReadBreak(r, line + Tail(rest));
      ReadOn(begun, line, Tail(rest));
      ReadLine(begun, rows[0]);
      RecordRead(ReadFrom(begun, line), begun, OneLines(rows[0]));
      ReadLines(ReadFrom(begun, line), rest);
      Records(begun.records, OneLines(rows[0]), Tables(rest));
    }
  }

  /** The rows of a text after its first line. */
  function Tail(rows: seq<seq<string>>): string {
    if rows == [] then "" else "\n" + Line(rows[0]) + Tail(rows[1..])
  }

  lemma {:induction false} JoinIsTail(head: string, rows: seq<seq<string>>)
    ensures Join([head] + Lines(rows), '\n') == head + Tail(rows)
    decreases |rows|
  {
    if rows == [] {
    } else {
      hide Line, Join, Tail;
      JoinIsTail(Line(rows[0]), rows[1..]);
      JoinStep(head, [Line(rows[0])] + Lines(rows[1..]));
      LinesSplit(rows);
      TailSplits(rows);
    }
  }

  lemma JoinStep(head: string, rest: seq<string>)
    requires rest != []
    ensures Join([head] + rest, '\n') == head + (['\n'] + Join(rest, '\n'))
  {
    assert ([head] + rest)[1..] == rest;
  }

  lemma LinesSplit(rows: seq<seq<string>>)
    requires rows != []
    ensures [Line(rows[0])] + Lines(rows[1..]) == Lines(rows)
  {
    hide Line;
  }

  /** Any header of bare names over any printed rows; a lone empty name would print as nothing. */
  lemma ReadTable(names: seq<string>, rows: seq<seq<string>>)
    requires names != [] && forall i | 0 <= i < |names| :: IsBare(names[i])
    requires (forall i | 0 <= i < |rows| :: rows[i] != []) && (names != [""] || rows != [])
    ensures Read(Join(names, ',') + Tail(rows)) == Some([names] + Tables(rows))
  {
    hide ReadFrom, Step, IsBare, Join, Tail, Tables, HasRead;
    var start := Reader([], [], "", Start);
    ReadHeader(start, names);
    ReadOn(start, Join(names, ','), Tail(rows));
    var head := ReadFrom(start, Join(names, ','));
    RecordRead(head, start, names);
    if names != [""] {
      HeaderRead(head, start, names);
    }
    assert [] + [names] == [names];
    hide EndRecord, Read, AtStart;
    ReadLines(head, rows);
    ReadEnds(Join(names, ',') + Tail(rows), ReadFrom(start, Join(names, ',') + Tail(rows)));
  }

  lemma ReadEnds(s: string, r: Reader)
    requires r == ReadFrom(Reader([], [], "", Start), s) && r.Reader? && r.mode != Quoted && !AtStart(r)
    ensures Read(s) == Some(EndRecord(r).records)
  {
  }

  lemma RecordRead(r: Reader, before: Reader, fields: seq<string>)
    requires HasRead(r, before, fields) && before.fields == []
    ensures r.Reader? && r.mode in {Start, Bare, Quote} && EndRecord(r).records == before.records + [fields]
  {
    assert r.fields + [r.field] == fields;
  }

  lemma HeaderRead(r: Reader, before: Reader, names: seq<string>)
    requires HasRead(r, before, names) && before.fields == [] && names != [""]
    ensures !AtStart(r)
  {
    assert |names| == 1 ==> names == [names[0]];
  }

  /** A line break at the end of a text ends its last record and starts no other. */
  lemma {:induction false} LastBreakOptional(s: string)
    requires var r := ReadFrom(Reader([], [], "", Start), s); r.Reader? && r.mode != Quoted && !AtStart(r)
    ensures Read(s + "\n") == Read(s) && Read(s).Some?
  {
    var start := Reader([], [], "", Start);
    ReadOn(start, s, "\n");
    ReadOne(ReadFrom(start, s), '\n');
    StepComma(ReadFrom(start, s));
    hide ReadFrom, Step;
  }

  lemma ColumnsAreBare()
    ensures (forall i | 0 <= i < |COLUMNS| :: IsBare(COLUMNS[i])) && COLUMNS != [""]
  {
  }

  lemma CellsSpelled(rows: seq<Row>)
    ensures |Tables(Cells(rows))| == |rows| && forall i | 0 <= i < |rows| :: |Tables(Cells(rows))[i]| == |COLUMNS|
    ensures forall i, k | 0 <= i < |rows| && 0 <= k < |COLUMNS| ::
              Tables(Cells(rows))[i][k] ==
              OneLine(match rows[i](COLUMNS[k])
                      case Missing => ""
                      case Date(iso) => iso
                      case Object(json) => json
                      case Plain(text) => text)
  {
    hide OneLine;
  }

  /** The export reads back as the header and, for each row, exactly its cells with every line
      break turned into a space: quotes, commas and breaks never shift a column or a record. A cell
      holds the text of the row's value in its column, and nothing where there is none. */
  lemma ReadToCsv(rows: seq<Row>)
    ensures Read(ToCsv(rows)) == Some([COLUMNS] + Tables(Cells(rows)))
    ensures COLUMNS == ["id", "createdAt", "organizationId", "workspaceId", "systemId", "actorUserId",
                        "action", "targetType", "targetId", "origin", "metadata"]
    ensures |Tables(Cells(rows))| == |rows| && forall i | 0 <= i < |rows| :: |Tables(Cells(rows))[i]| == |COLUMNS|
    ensures forall i, k | 0 <= i < |rows| && 0 <= k < |COLUMNS| ::
              Tables(Cells(rows))[i][k] ==
              OneLine(match rows[i](COLUMNS[k])
                      case Missing => ""
                      case Date(iso) => iso
                      case Object(json) => json
                      case Plain(text) => text)
  {
    CellsSpelled(rows);
    hide OneLine, Read, Join, Lines, Tail, IsBare, Tables;
    ColumnsAreBare();
    JoinIsTail(Join(COLUMNS, ','), Cells(rows));
    ReadTable(COLUMNS, Cells(rows));
  }

  /** The first line break of a text, a line feed with the carriage return before it if there is one,
      becomes one space, and so on behind it; what stands before it stays as it is. */
  lemma {:induction false} OneLineAtBreak(a: string, b: string)
    requires '\n' !in a
    ensures OneLine(a + "\n" + b) == (if a != "" && a[|a| - 1] == '\r' then a[..|a| - 1] else a) + " " + OneLine(b)
    decreases |a|
  {
    var s := a + "\n" + b;
    if a == "" {
      assert s[1..] == b;
    } else if a == "\r" {
      assert s[2..] == b;
    } else {
      OneLineAtBreak(a[1..], b);
      assert s[1..] == a[1..] + "\n" + b;
      Kept(a, b);
    }
  }

  lemma Kept(a: string, b: string)
    requires |a| > 1 || (|a| == 1 && a != "\r")
    ensures var cut, rest := if a[|a| - 1] == '\r' then a[..|a| - 1] else a, a[1..];
            cut + " " + OneLine(b) ==
            [a[0]] + ((if rest != "" && rest[|rest| - 1] == '\r' then rest[..|rest| - 1] else rest) + " " + OneLine(b))
  {
    hide OneLine;
  }

  /** A cell comes back unchanged exactly when its text has no line feed. */
  lemma {:induction false} UnchangedIffOneLine(s: string)
    ensures OneLine(s) == s <==> '\n' !in s
    ensures '\n' !in OneLine(s)
  {
    if s == "" {
    } else {
      UnchangedIffOneLine(s[1..]);
      if |s| > 1 {
        UnchangedIffOneLine(s[2..]);
      }
    }
  }
}
