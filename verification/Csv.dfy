/** The userscript's CSV printer, and a reader for section 2 of RFC 4180 (with a bare LF also taken
    as a line end) that its output is proved to read back through. */
module Csv {
  import opened Wrappers

  const COLUMNS: seq<string> := [
    "set_code", "ptcgo_code", "number", "variant", "condition",
    "language", "quantity", "purchase_price", "currency", "source", "notes"
  ]

  /** A row object: a property that is absent, null or undefined is simply not in the map. */
  type Row = map<string, string>

  // ----- Printing -----

  predicate NeedsQuotes(s: string) {
    exists i | 0 <= i < |s| :: s[i] == ',' || s[i] == '"' || s[i] == '\n' || s[i] == '\r'
  }

  function DoubleQuotes(s: string): string {
    if s == [] then [] else (if s[0] == '"' then "\"\"" else [s[0]]) + DoubleQuotes(s[1..])
  }

  function CsvCell(v: Option<string>): string {
    if v.None? then ""
    else if NeedsQuotes(v.value) then "\"" + DoubleQuotes(v.value) + "\""
    else v.value
  }

  function Join(parts: seq<string>, separator: string): string {
    if parts == [] then ""
    else if |parts| == 1 then parts[0]
    else parts[0] + separator + Join(parts[1..], separator)
  }

  function Cell(row: Row, column: string): Option<string> {
    if column in row then Some(row[column]) else None
  }

  function Cells(row: Row, columns: seq<string>): seq<string> {
    seq(|columns|, i requires 0 <= i < |columns| => CsvCell(Cell(row, columns[i])))
  }

  function Lines(rows: seq<Row>, columns: seq<string>): seq<string> {
    [Join(columns, ",")] + seq(|rows|, i requires 0 <= i < |rows| => Join(Cells(rows[i], columns), ","))
  }

  function PrintTable(rows: seq<Row>, columns: seq<string>): string {
    Join(Lines(rows, columns), "\n") + "\n"
  }

  function ToCsv(rows: seq<Row>): string {
    PrintTable(rows, COLUMNS)
  }

  // ----- Reading (RFC 4180, section 2) -----

  /** Where the reader is within a record. */
  datatype Mode = FieldStart | Bare | Quoted | QuoteSeen

  type Record = seq<string>

  /** Reads `s` on, given the field and record so far and the records already read. None means the
      text is not CSV. */
  function ReadOn(s: string, mode: Mode, field: string, record: Record, done: seq<Record>)
    : Option<seq<Record>>
    decreases |s|
  {
    if s == [] then
      if mode.Quoted? then None
      else if mode.FieldStart? && record == [] then Some(done)
      else Some(done + [record + [field]])
    else
      var c, rest := s[0], s[1..];
      if mode.Quoted? then
        if c == '"' then ReadOn(rest, QuoteSeen, field, record, done)
        else ReadOn(rest, Quoted, field + [c], record, done)
      else if c == ',' then ReadOn(rest, FieldStart, "", record + [field], done)
      else if c == '\n' then ReadOn(rest, FieldStart, "", [], done + [record + [field]])
      else if c == '\r' then
        if rest != [] && rest[0] == '\n' then ReadOn(rest[1..], FieldStart, "", [], done + [record + [field]])
        else None
      else if c == '"' then
        if mode.FieldStart? then ReadOn(rest, Quoted, field, record, done)
        else if mode.QuoteSeen? then ReadOn(rest, Quoted, field + ['"'], record, done)
        else None
      else if mode.QuoteSeen? then None
      else ReadOn(rest, Bare, field + [c], record, done)
  }

  function Read(text: string): Option<seq<Record>> {
    ReadOn(text, FieldStart, "", [], [])
  }

  // ----- Reading back what was printed -----

  /** The text of a record, and of a list of records, as the printer lays them out. */
  function PrintFields(fields: Record): string {
    Join(seq(|fields|, i requires 0 <= i < |fields| => CsvCell(Some(fields[i]))), ",")
  }

  function PrintRecords(records: seq<Record>): string {
    if records == [] then "" else PrintFields(records[0]) + "\n" + PrintRecords(records[1..])
  }

  lemma {:induction false} ReadBareText(t: string, rest: string, field: string, record: Record,
                                        done: seq<Record>)
    requires !NeedsQuotes(t)
    ensures ReadOn(t + rest, Bare, field, record, done) == ReadOn(rest, Bare, field + t, record, done)
  {
    if t == [] {
      assert t + rest == rest && field + t == field;
    } else {
      assert (t + rest)[1..] == t[1..] + rest && (t + rest)[0] == t[0];
      assert forall i | 0 <= i < |t| - 1 :: t[1..][i] == t[i + 1];
      ReadBareText(t[1..], rest, field + [t[0]], record, done);
      assert field + [t[0]] + t[1..] == field + t;
    }
  }

  lemma {:induction false} ReadQuotedText(t: string, rest: string, field: string, record: Record,
                                          done: seq<Record>)
    ensures ReadOn(DoubleQuotes(t) + rest, Quoted, field, record, done)
         == ReadOn(rest, Quoted, field + t, record, done)
  {
    if t == [] {
      assert DoubleQuotes(t) + rest == rest && field + t == field;
    } else {
      var tail := DoubleQuotes(t[1..]) + rest;
      ReadQuotedText(t[1..], rest, field + [t[0]], record, done);
      assert field + [t[0]] + t[1..] == field + t;
      if t[0] == '"' {
        assert DoubleQuotes(t) + rest == ['"', '"'] + tail;
        assert (['"', '"'] + tail)[1..] == ['"'] + tail && (['"'] + tail)[1..] == tail;
      } else {
        assert DoubleQuotes(t) + rest == [t[0]] + tail;
        assert ([t[0]] + tail)[1..] == tail;
      }
    }
  }

  predicate EndsField(rest: string) {
    rest != [] && (rest[0] == ',' || rest[0] == '\n')
  }

  /** What the reader does with the end of a field. */
  function FieldDone(rest: string, v: string, record: Record, done: seq<Record>): Option<seq<Record>>
    requires EndsField(rest)
  {
    if rest[0] == ',' then ReadOn(rest[1..], FieldStart, "", record + [v], done)
    else ReadOn(rest[1..], FieldStart, "", [], done + [record + [v]])
  }

  lemma ReadQuotedCell(v: string, rest: string, record: Record, done: seq<Record>)
    requires EndsField(rest) && NeedsQuotes(v)
    ensures ReadOn(CsvCell(Some(v)) + rest, FieldStart, "", record, done) == FieldDone(rest, v, record, done)
  {
    var closed := ['"'] + rest;
    var inner := DoubleQuotes(v) + closed;
    assert CsvCell(Some(v)) + rest == ['"'] + inner;
    assert (['"'] + inner)[1..] == inner;
    ReadQuotedText(v, closed, "", record, done);
    assert "" + v == v && closed[1..] == rest;
    assert ReadOn(closed, Quoted, v, record, done) == ReadOn(rest, QuoteSeen, v, record, done);
  }

  lemma ReadBareCell(v: string, rest: string, record: Record, done: seq<Record>)
    requires EndsField(rest) && !NeedsQuotes(v) && v != []
    ensures ReadOn(v + rest, FieldStart, "", record, done) == FieldDone(rest, v, record, done)
  {
    assert (v + rest)[0] == v[0] && (v + rest)[1..] == v[1..] + rest;
    assert forall i | 0 <= i < |v| - 1 :: v[1..][i] == v[i + 1];
    assert "" + [v[0]] == [v[0]] && [v[0]] + v[1..] == v;
    assert ReadOn(v + rest, FieldStart, "", record, done) == ReadOn(v[1..] + rest, Bare, [v[0]], record, done);
    ReadBareText(v[1..], rest, [v[0]], record, done);
  }

  lemma ReadCell(v: string, rest: string, record: Record, done: seq<Record>)
    requires EndsField(rest)
    ensures ReadOn(CsvCell(Some(v)) + rest, FieldStart, "", record, done) == FieldDone(rest, v, record, done)
  {
    if NeedsQuotes(v) {
      ReadQuotedCell(v, rest, record, done);
    } else if v == [] {
      assert v + rest == rest;
    } else {
      ReadBareCell(v, rest, record, done);
    }
  }

  lemma {:induction false} ReadFields(fields: Record, rest: string, record: Record, done: seq<Record>)
    requires fields != []
    ensures ReadOn(PrintFields(fields) + "\n" + rest, FieldStart, "", record, done)
         == ReadOn(rest, FieldStart, "", [], done + [record + fields])
  {
    if |fields| == 1 {
      PrintedOne(fields, rest);
      ReadCell(fields[0], ['\n'] + rest, record, done);
      AfterAField(rest, fields[0], record, done);
      assert fields == [fields[0]];
    } else {
      var tail := PrintFields(fields[1..]) + "\n" + rest;
      PrintedMore(fields, rest);
      ReadCell(fields[0], [','] + tail, record, done);
      AfterAField(tail, fields[0], record, done);
      ReadFields(fields[1..], rest, record + [fields[0]], done);
      assert record + [fields[0]] + fields[1..] == record + fields;
    }
  }

  lemma PrintedOne(fields: Record, rest: string)
    requires |fields| == 1
    ensures PrintFields(fields) + "\n" + rest == CsvCell(Some(fields[0])) + (['\n'] + rest)
  {
  }

  lemma PrintedMore(fields: Record, rest: string)
    requires |fields| > 1
    ensures PrintFields(fields) + "\n" + rest
         == CsvCell(Some(fields[0])) + ([','] + (PrintFields(fields[1..]) + "\n" + rest))
  {
    var parts := seq(|fields|, i requires 0 <= i < |fields| => CsvCell(Some(fields[i])));
    assert parts[1..] == seq(|fields[1..]|, i requires 0 <= i < |fields[1..]| => CsvCell(Some(fields[1..][i])));
  }

  lemma AfterAField(tail: string, v: string, record: Record, done: seq<Record>)
    ensures FieldDone([','] + tail, v, record, done) == ReadOn(tail, FieldStart, "", record + [v], done)
    ensures FieldDone(['\n'] + tail, v, record, done) == ReadOn(tail, FieldStart, "", [], done + [record + [v]])
  {
    assert ([','] + tail)[1..] == tail && (['\n'] + tail)[1..] == tail;
  }

  lemma {:induction false} ReadRecords(records: seq<Record>, done: seq<Record>)
    requires forall i | 0 <= i < |records| :: records[i] != []
    ensures ReadOn(PrintRecords(records), FieldStart, "", [], done) == Some(done + records)
  {
    if records == [] {
      assert done + records == done;
    } else {
      ReadFields(records[0], PrintRecords(records[1..]), [], done);
      assert [] + records[0] == records[0];
      ReadRecords(records[1..], done + [records[0]]);
      assert done + [records[0]] + records[1..] == done + records;
    }
  }

  /** Any list of records with at least one field each reads back exactly, whatever its cells hold. */
  lemma RoundTrip(records: seq<Record>)
    requires forall i | 0 <= i < |records| :: records[i] != []
    ensures Read(PrintRecords(records)) == Some(records)
  {
    ReadRecords(records, []);
    assert [] + records == records;
  }

  // ----- toCsv itself -----

  /** What a reader should see of a row: its cells under the columns, absent ones empty. */
  function Fields(row: Row, columns: seq<string>): Record {
    seq(|columns|, i requires 0 <= i < |columns| => Cell(row, columns[i]).GetOr(""))
  }

  function Expected(rows: seq<Row>, columns: seq<string>): seq<Record> {
    [columns] + seq(|rows|, i requires 0 <= i < |rows| => Fields(rows[i], columns))
  }

  predicate PlainNames(columns: seq<string>) {
    forall i | 0 <= i < |columns| :: !NeedsQuotes(columns[i])
  }

  lemma PlainColumns()
    ensures PlainNames(COLUMNS) && COLUMNS != []
  {
    assert !NeedsQuotes("set_code") && !NeedsQuotes("ptcgo_code") && !NeedsQuotes("number");
    assert !NeedsQuotes("variant") && !NeedsQuotes("condition") && !NeedsQuotes("language");
    assert !NeedsQuotes("quantity") && !NeedsQuotes("purchase_price") && !NeedsQuotes("currency");
    assert !NeedsQuotes("source") && !NeedsQuotes("notes");
  }

  lemma HeaderIsPrinted(columns: seq<string>)
    requires PlainNames(columns)
    ensures PrintFields(columns) == Join(columns, ",")
  {
    assert seq(|columns|, i requires 0 <= i < |columns| => CsvCell(Some(columns[i]))) == columns;
  }

  lemma RowIsPrinted(row: Row, columns: seq<string>)
    ensures PrintFields(Fields(row, columns)) == Join(Cells(row, columns), ",")
  {
    var fields := Fields(row, columns);
    assert seq(|fields|, i requires 0 <= i < |fields| => CsvCell(Some(fields[i]))) == Cells(row, columns);
  }

  lemma LinesArePrinted(rows: seq<Row>, columns: seq<string>, i: nat)
    requires PlainNames(columns) && i <= |rows|
    ensures Lines(rows, columns)[i] == PrintFields(Expected(rows, columns)[i])
  {
    if i == 0 {
      HeaderIsPrinted(columns);
    } else {
      RowIsPrinted(rows[i - 1], columns);
    }
  }

  lemma {:induction false} JoinedLinesArePrinted(lines: seq<string>, records: seq<Record>)
    requires |lines| == |records| > 0
    requires forall i | 0 <= i < |lines| :: lines[i] == PrintFields(records[i])
    ensures Join(lines, "\n") + "\n" == PrintRecords(records)
  {
    if |lines| == 1 {
      assert PrintRecords(records[1..]) == "";
    } else {
      JoinedLinesArePrinted(lines[1..], records[1..]);
    }
  }

  lemma TableIsPrinted(rows: seq<Row>, columns: seq<string>)
    requires PlainNames(columns)
    ensures PrintTable(rows, columns) == PrintRecords(Expected(rows, columns))
  {
    forall i | 0 <= i < |Lines(rows, columns)|
      ensures Lines(rows, columns)[i] == PrintFields(Expected(rows, columns)[i])
    {
      LinesArePrinted(rows, columns, i);
    }
    JoinedLinesArePrinted(Lines(rows, columns), Expected(rows, columns));
  }

  lemma TableRoundTrip(rows: seq<Row>, columns: seq<string>)
    requires PlainNames(columns) && columns != []
    ensures Read(PrintTable(rows, columns)) == Some(Expected(rows, columns))
  {
    TableIsPrinted(rows, columns);
    RoundTrip(Expected(rows, columns));
  }

  /** For any rows of string cells, commas, quotes, CR and LF included, reading what `toCsv` prints
      gives back the header and exactly those cells. */
  lemma ToCsvRoundTrip(rows: seq<Row>)
    ensures Read(ToCsv(rows)) == Some(Expected(rows, COLUMNS))
  {
    PlainColumns();
    TableRoundTrip(rows, COLUMNS);
  }

  /** So two files are the same text exactly if they hold the same cells. */
  lemma ToCsvTellsRowsApart(rows: seq<Row>, others: seq<Row>)
    ensures ToCsv(rows) == ToCsv(others) <==> Expected(rows, COLUMNS) == Expected(others, COLUMNS)
  {
    ToCsvRoundTrip(rows);
    ToCsvRoundTrip(others);
    PlainColumns();
    TableIsPrinted(rows, COLUMNS);
    TableIsPrinted(others, COLUMNS);
  }

  // ----- How the text is laid out -----

  lemma {:induction false} JoinSnoc(parts: seq<string>, separator: string, last: string)
    requires parts != []
    ensures Join(parts + [last], separator) == Join(parts, separator) + separator + last
  {
    if |parts| == 1 {
      assert (parts + [last])[1..] == [last];
    } else {
      assert (parts + [last])[1..] == parts[1..] + [last];
      JoinSnoc(parts[1..], separator, last);
    }
  }

  /** A table is the line of its column names and then one line for each row, its cells with commas between
      them, each line ended by a line feed. */
  lemma RowsAddLines(rows: seq<Row>, row: Row)
    ensures ToCsv([]) == Join(COLUMNS, ",") + "\n"
    ensures ToCsv(rows + [row]) == ToCsv(rows) + Join(Cells(row, COLUMNS), ",") + "\n"
  {
    TableAddsLines(rows, row, COLUMNS);
  }

  lemma TableAddsLines(rows: seq<Row>, row: Row, columns: seq<string>)
    ensures PrintTable([], columns) == Join(columns, ",") + "\n"
    ensures PrintTable(rows + [row], columns) == PrintTable(rows, columns) + Join(Cells(row, columns), ",") + "\n"
  {
    assert Lines([], columns) == [Join(columns, ",")];
    assert Lines(rows + [row], columns) == Lines(rows, columns) + [Join(Cells(row, columns), ",")];
    JoinSnoc(Lines(rows, columns), "\n", Join(Cells(row, columns), ","));
  }

  /** An absent cell is empty, and one without a comma, a quote or a line end stands as it is. */
  lemma CellMeaning(s: string)
    ensures CsvCell(None) == ""
    ensures (forall i | 0 <= i < |s| :: s[i] !in {',', '"', '\n', '\r'}) ==> CsvCell(Some(s)) == s
    ensures (exists i | 0 <= i < |s| :: s[i] in {',', '"', '\n', '\r'}) ==>
              |CsvCell(Some(s))| >= |s| + 2 && CsvCell(Some(s))[0] == '"'
              && CsvCell(Some(s))[|CsvCell(Some(s))| - 1] == '"'
  {
    DoublingGrows(s);
  }

  lemma {:induction false} DoublingGrows(s: string)
    ensures |DoubleQuotes(s)| >= |s|
  {
    if s != [] {
      DoublingGrows(s[1..]);
    }
  }
}
