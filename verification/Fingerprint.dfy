/** What a build feeds to the hash that fingerprints its convergence. One character stands for one
    byte; the hash itself is not modelled, only that its input determines everything that goes in. */
module Fingerprint {
  import opened Text

  datatype Column = Column(table: string, name: string, ddl: string)
  datatype Input = Input(path: string, bytes: string)

  /** Everything a build converges a catalog from. */
  datatype Source = Source(version: int, columns: seq<Column>, inputs: seq<Input>)

  // ----- Decimal numbers -----

  function Digit(d: nat): (c: char)
    requires d < 10
    ensures IsDigit(c) && DigitValue(c) == d
  {
    '0' + d as char
  }

  function Decimal(n: nat): (s: string)
    ensures s != [] && AllDigits(s) && Value(s) == n
  {
    if n < 10 then [Digit(n)] else Decimal(n / 10) + [Digit(n % 10)]
  }

  function Signed(n: int): string {
    if n < 0 then "-" + Decimal(-n) else Decimal(n)
  }

  // ----- The stream -----

  datatype Kind = AddedColumn | EmbeddedInput

  /** One length-prefixed entry of the stream. */
  datatype Record = Record(kind: Kind, name: string, body: string)

  function Tag(kind: Kind): string {
    match kind
    case AddedColumn => "added_column="
    case EmbeddedInput => "input="
  }

  function Header(r: Record): string {
    Tag(r.kind) + (r.name + ":" + Decimal(|r.body|) + "\n")
  }

  function Entry(r: Record): string {
    Header(r) + r.body
  }

  function Entries(rs: seq<Record>): seq<string> {
    seq(|rs|, k requires 0 <= k < |rs| => Entry(rs[k]))
  }

  function Write(rs: seq<Record>): string {
    Concat(Entries(rs))
  }

  function Concat(parts: seq<string>): string {
    if parts == [] then "" else Concat(parts[..|parts| - 1]) + parts[|parts| - 1]
  }

  function OfColumn(c: Column): Record {
    Record(AddedColumn, c.table + "." + c.name, c.ddl)
  }

  function OfInput(i: Input): Record {
    Record(EmbeddedInput, i.path, i.bytes)
  }

  function ColumnRecords(columns: seq<Column>): seq<Record> {
    seq(|columns|, k requires 0 <= k < |columns| => OfColumn(columns[k]))
  }

  function InputRecords(inputs: seq<Input>): seq<Record> {
    seq(|inputs|, k requires 0 <= k < |inputs| => OfInput(inputs[k]))
  }

  function Records(s: Source): seq<Record> {
    ColumnRecords(s.columns) + InputRecords(s.inputs)
  }

  function VersionLine(version: int): string {
    "schema_version=" + (Signed(version) + "\n")
  }

  function StreamOf(s: Source): string {
    VersionLine(s.version) + Write(Records(s))
  }

  lemma Assoc(a: string, b: string, c: string)
    ensures a + b + c == a + (b + c)
  {
  }

  lemma WriteStep(h: string, rs: seq<Record>, k: nat)
    requires k < |rs|
    ensures h + Write(rs[..k]) + Header(rs[k]) + rs[k].body == h + Write(rs[..k + 1])
  {
    assert Entries(rs[..k + 1]) == Entries(rs[..k]) + [Entry(rs[k])];
    assert Entries(rs[..k + 1])[..k] == Entries(rs[..k]);
    Assoc(h + Write(rs[..k]), Header(rs[k]), rs[k].body);
    Assoc(h, Write(rs[..k]), Entry(rs[k]));
  }

  lemma {:induction false} ConcatAppends(a: seq<string>, b: seq<string>)
    ensures Concat(a + b) == Concat(a) + Concat(b)
  {
    if b == [] {
      assert a + b == a;
    } else {
      var front, last := b[..|b| - 1], b[|b| - 1];
      ConcatAppends(a, front);
      Assoc(Concat(a), Concat(front), last);
      assert (a + b)[..|a + b| - 1] == a + front;
    }
  }

  lemma EntriesAppend(a: seq<Record>, b: seq<Record>)
    ensures Entries(a + b) == Entries(a) + Entries(b)
  {
  }

  lemma WriteAppends(a: seq<Record>, b: seq<Record>)
    ensures Write(a + b) == Write(a) + Write(b)
  {
    EntriesAppend(a, b);
    ConcatAppends(Entries(a), Entries(b));
  }

  method HashColumns(h0: string, columns: seq<Column>) returns (h: string)
    ensures h == h0 + Write(ColumnRecords(columns))
  {
    h := h0;
    for i := 0 to |columns|
      invariant h == h0 + Write(ColumnRecords(columns)[..i])
    {
      WriteStep(h0, ColumnRecords(columns), i);
      h := h + Header(OfColumn(columns[i]));
      h := h + columns[i].ddl;
    }
    assert ColumnRecords(columns)[..|columns|] == ColumnRecords(columns);
  }

  method HashInputs(h0: string, inputs: seq<Input>) returns (h: string)
    ensures h == h0 + Write(InputRecords(inputs))
  {
    h := h0;
    for i := 0 to |inputs|
      invariant h == h0 + Write(InputRecords(inputs)[..i])
    {
      WriteStep(h0, InputRecords(inputs), i);
      h := h + Header(OfInput(inputs[i]));
      h := h + inputs[i].bytes;
    }
    assert InputRecords(inputs)[..|inputs|] == InputRecords(inputs);
  }

  /** The bytes handed to the hash, update by update. */
  method Stream(version: int, columns: seq<Column>, inputs: seq<Input>) returns (h: string)
    ensures h == StreamOf(Source(version, columns, inputs))
  {
    h := "schema_version=";
    h := h + (Signed(version) + "\n");
    h := HashColumns(h, columns);
    h := HashInputs(h, inputs);
    WriteAppends(ColumnRecords(columns), InputRecords(inputs));
    Assoc(VersionLine(version), Write(ColumnRecords(columns)), Write(InputRecords(inputs)));
  }

  // ----- Reading it back -----

  /** A colon, some digits and the end of a line: what separates a name from the body it announces. */
  predicate SeparatorAt(s: string, i: int, n: int) {
    && 0 <= i && 0 < n && i + 1 + n < |s|
    && s[i] == ':' && s[i + 1 + n] == '\n' && forall k | i < k <= i + n :: IsDigit(s[k])
  }

  /** A name that cannot be mistaken for a shorter one with its length. */
  predicate HeaderFree(name: string) {
    forall i, n | 0 <= i < |name| && 0 < n < |name| :: !SeparatorAt(name, i, n)
  }

  /** It is enough that a name holds no colon, or no line feed. */
  lemma PlainNamesAreHeaderFree(name: string)
    requires ':' !in name || '\n' !in name
    ensures HeaderFree(name)
  {
    assert forall i | 0 <= i < |name| :: name[i] in name;
  }

  /** In a stream that starts with a header, the first separator is the one that ends the name. */
  lemma FirstSeparator(name: string, digits: string, rest: string, s: string)
    requires HeaderFree(name) && digits != [] && AllDigits(digits) && s == name + ":" + digits + "\n" + rest
    ensures SeparatorAt(s, |name|, |digits|)
    ensures forall n | SeparatorAt(s, |name|, n) :: n == |digits|
    ensures forall i, n | 0 <= i < |name| :: !SeparatorAt(s, i, n)
    ensures s[..|name|] == name && s[|name| + 1..|name| + 1 + |digits|] == digits
    ensures s[|name| + 1 + |digits| + 1..] == rest
  {
    var end := |name| + 1 + |digits|;
    assert s[|name|] == ':' && s[end] == '\n' && s[|name| + 1..end] == digits;
    forall n | SeparatorAt(s, |name|, n) ensures n == |digits| {
      OneLineEnd(s, |name|, n, |digits|);
    }
    forall i, n | 0 <= i < |name| && SeparatorAt(s, i, n) ensures false {
      NoEarlierSeparator(name, s, i, n);
    }
  }

  lemma OneLineEnd(s: string, i: nat, n: nat, m: nat)
    requires SeparatorAt(s, i, n) && SeparatorAt(s, i, m)
    ensures n == m
  {
    assert IsDigit(s[i + 1 + n]) <==> n < m;
    assert IsDigit(s[i + 1 + m]) <==> m < n;
  }

  lemma NoEarlierSeparator(name: string, s: string, i: nat, n: nat)
    requires HeaderFree(name) && |name| < |s| && name == s[..|name|] && s[|name|] == ':' && i < |name|
    ensures !SeparatorAt(s, i, n)
  {
    if SeparatorAt(s, i, n) {
      assert s[|name|] == ':';
      assert SeparatorAt(name, i, n);
    }
  }

  function Body(r: Record): string {
    r.name + ":" + Decimal(|r.body|) + "\n" + r.body
  }

  lemma TagFirst(r: Record, x: string, s: string)
    requires s == Header(r) + r.body + x
    ensures |s| >= |Tag(r.kind)| > 0 && s[0] == Tag(r.kind)[0] && s[|Tag(r.kind)|..] == Body(r) + x
  {
    var tag := Tag(r.kind);
    assert s == tag + (Body(r) + x);
  }

  lemma SameBody(r: Record, x: string, t: Record, y: string)
    requires HeaderFree(r.name) && HeaderFree(t.name) && Body(r) + x == Body(t) + y
    ensures r.name == t.name && r.body == t.body && x == y
  {
    var s := Body(r) + x;
    var dr, dt := Decimal(|r.body|), Decimal(|t.body|);
    Assoc(r.name + ":" + dr + "\n", r.body, x);
    Assoc(t.name + ":" + dt + "\n", t.body, y);
    SameRecord(r.name, dr, r.body + x, t.name, dt, t.body + y, s);
    SamePrefix(r.body, x, t.body, y);
  }

  lemma SamePrefix(a: string, x: string, b: string, y: string)
    requires |a| == |b| && a + x == b + y
    ensures a == b && x == y
  {
    assert a == (a + x)[..|a|] && b == (b + y)[..|b|] && x == (a + x)[|a|..] && y == (b + y)[|b|..];
  }

  /** What a stream starts with determines its first record and what follows it. */
  lemma FirstRecord(r: Record, x: string, t: Record, y: string)
    requires HeaderFree(r.name) && HeaderFree(t.name)
    requires Header(r) + r.body + x == Header(t) + t.body + y
    ensures r == t && x == y
  {
    var s := Header(r) + r.body + x;
    TagFirst(r, x, s);
    TagFirst(t, y, s);
    SameBody(r, x, t, y);
  }

  lemma SameRecord(n: string, d: string, z: string, n': string, d': string, z': string, s: string)
    requires HeaderFree(n) && HeaderFree(n') && d != [] && d' != [] && AllDigits(d) && AllDigits(d')
    requires s == n + ":" + d + "\n" + z && s == n' + ":" + d' + "\n" + z'
    ensures n == n' && d == d' && z == z'
  {
    FirstSeparator(n, d, z, s);
    FirstSeparator(n', d', z', s);
  }

  predicate HeadersFree(rs: seq<Record>) {
    forall k | 0 <= k < |rs| :: HeaderFree(rs[k].name)
  }

  lemma {:induction false} WriteTellsRecordsApart(a: seq<Record>, b: seq<Record>)
    requires HeadersFree(a) && HeadersFree(b) && Write(a) == Write(b)
    ensures a == b
  {
    if a != [] && b != [] {
      FromTheFront(a);
      FromTheFront(b);
      FirstRecord(a[0], Write(a[1..]), b[0], Write(b[1..]));
      WriteTellsRecordsApart(a[1..], b[1..]);
      Uncons(a, b);
    } else {
      WritesSomething(a);
      WritesSomething(b);
    }
  }

  lemma Uncons<T>(a: seq<T>, b: seq<T>)
    requires a != [] && b != [] && a[0] == b[0] && a[1..] == b[1..]
    ensures a == b
  {
    assert a == [a[0]] + a[1..] && b == [b[0]] + b[1..];
  }

  lemma FromTheFront(a: seq<Record>)
    requires a != []
    ensures Write(a) == Header(a[0]) + a[0].body + Write(a[1..])
  {
    WriteAppends(a[..1], a[1..]);
    assert a == a[..1] + a[1..];
    assert Entries(a[..1]) == [Entry(a[0])] && Entries(a[..1])[..0] == [];
    assert Write(a[..1]) == Concat([]) + Entry(a[0]) == Entry(a[0]);
  }

  lemma WritesSomething(a: seq<Record>)
    ensures Write(a) == [] <==> a == []
  {
  }

  lemma SignedIsInjective(v: int, w: int)
    requires Signed(v) == Signed(w)
    ensures v == w
  {
    var s := Signed(v);
    assert v >= 0 ==> IsDigit(s[0]);
    assert w >= 0 ==> IsDigit(s[0]);
    assert v < 0 ==> s[1..] == Decimal(-v);
    assert w < 0 ==> s[1..] == Decimal(-w);
  }

  lemma VersionIsOneLine(v: int)
    ensures forall k | 0 <= k < |Signed(v)| :: Signed(v)[k] != '\n'
  {
    assert v < 0 ==> Signed(v)[1..] == Decimal(-v);
  }

  lemma SameVersion(v: int, x: string, w: int, y: string)
    requires VersionLine(v) + x == VersionLine(w) + y
    ensures v == w && x == y
  {
    AfterTheTag(v, x);
    AfterTheTag(w, y);
    VersionIsOneLine(v);
    VersionIsOneLine(w);
    OneLine(Signed(v), x, Signed(w), y, Signed(v) + "\n" + x);
    SignedIsInjective(v, w);
  }

  lemma AfterTheTag(v: int, x: string)
    ensures |VersionLine(v) + x| >= |"schema_version="|
    ensures (VersionLine(v) + x)[|"schema_version="|..] == Signed(v) + "\n" + x
  {
  }

  lemma OneLine(a: string, x: string, b: string, y: string, s: string)
    requires (forall k | 0 <= k < |a| :: a[k] != '\n') && (forall k | 0 <= k < |b| :: b[k] != '\n')
    requires s == a + "\n" + x && s == b + "\n" + y
    ensures a == b && x == y
  {
    assert s[|a|] == '\n' && s[|b|] == '\n' && s[..|a|] == a && s[..|b|] == b;
    assert s[|a| + 1..] == x && s[|b| + 1..] == y;
  }

  // ----- The stream determines what went in -----

  /** Names that cannot be confused with each other or with what they announce. A name without a
      colon is always header-free. */
  predicate WellNamed(s: Source) {
    && (forall k | 0 <= k < |s.columns| ::
          '.' !in s.columns[k].table && HeaderFree(s.columns[k].table + "." + s.columns[k].name))
    && (forall k | 0 <= k < |s.inputs| :: HeaderFree(s.inputs[k].path))
  }

  /** Two builds feed the hash the same bytes exactly when they converge from the same version,
      columns and inputs, whatever the inputs hold. */
  lemma StreamsAreUnique(s: Source, t: Source)
    requires WellNamed(s) && WellNamed(t)
    ensures StreamOf(s) == StreamOf(t) <==> s == t
  {
    if StreamOf(s) == StreamOf(t) {
      RecordsAreHeaderFree(s);
      RecordsAreHeaderFree(t);
      SameParts(s.version, Records(s), t.version, Records(t));
      SameRecords(s, t);
    }
  }

  lemma RecordsAreHeaderFree(s: Source)
    requires WellNamed(s)
    ensures HeadersFree(Records(s))
  {
  }

  lemma SameParts(v: int, x: seq<Record>, w: int, y: seq<Record>)
    requires HeadersFree(x) && HeadersFree(y) && VersionLine(v) + Write(x) == VersionLine(w) + Write(y)
    ensures v == w && x == y
  {
    SameVersion(v, Write(x), w, Write(y));
    WriteTellsRecordsApart(x, y);
  }

  lemma SameRecords(s: Source, t: Source)
    requires WellNamed(s) && WellNamed(t) && Records(s) == Records(t)
    ensures s.columns == t.columns && s.inputs == t.inputs
  {
    var n, m := |s.columns|, |t.columns|;
    assert n < |Records(s)| ==> Records(s)[n].kind == EmbeddedInput;
    assert m < |Records(t)| ==> Records(t)[m].kind == EmbeddedInput;
    assert n == m;
    forall k | 0 <= k < n ensures s.columns[k] == t.columns[k] {
      assert Records(s)[k] == OfColumn(s.columns[k]) && Records(t)[k] == OfColumn(t.columns[k]);
      FirstDot(s.columns[k].table, s.columns[k].name, t.columns[k].table, t.columns[k].name);
    }
    forall k | 0 <= k < |s.inputs| ensures s.inputs[k] == t.inputs[k] {
      assert Records(s)[n + k] == OfInput(s.inputs[k]) && Records(t)[n + k] == OfInput(t.inputs[k]);
    }
  }

  lemma FirstDot(a: string, x: string, b: string, y: string)
    requires '.' !in a && '.' !in b && a + "." + x == b + "." + y
    ensures a == b && x == y
  {
    var s := a + "." + x;
    assert s[|a|] == '.' && s[..|a|] == a && s[|a| + 1..] == x;
    var t := b + "." + y;
    assert t[|b|] == '.' && t[..|b|] == b && t[|b| + 1..] == y;
  }

  // ----- What the conditions on names are for -----

  /** With a dot in a table's name, the split between table and column is lost. */
  lemma DottedTablesCollide()
    ensures var s, t := Source(1, [Column("a.b", "c", "")], []), Source(1, [Column("a", "b.c", "")], []);
            s != t && StreamOf(s) == StreamOf(t)
  {
    assert "a.b" + "." + "c" == "a" + "." + "b.c";
  }

  /** A path that itself looks like a header can hide an input: here one input's path and contents
      read back as a shorter path with other contents. */
  lemma HeaderLikePathsCollide()
    ensures var s, t := Source(1, [], [Input("p", "\n:0\n")]), Source(1, [], [Input("p:4\n\n", "")]);
            s != t && StreamOf(s) == StreamOf(t)
  {
    var s, t := Source(1, [], [Input("p", "\n:0\n")]), Source(1, [], [Input("p:4\n\n", "")]);
    OneInput("p", "\n:0\n");
    OneInput("p:4\n\n", "");
    assert Decimal(4) == "4" && Decimal(0) == "0";
    SameTexts();
    assert s.inputs[0].path != t.inputs[0].path;
  }

  lemma OneInput(path: string, bytes: string)
    ensures StreamOf(Source(1, [], [Input(path, bytes)]))
         == StreamOf(Source(1, [], [])) + ("input=" + (path + ":" + Decimal(|bytes|) + "\n") + bytes)
  {
    InputsAddToTheStream(1, [], [], Input(path, bytes));
    assert [] + [Input(path, bytes)] == [Input(path, bytes)];
  }

  lemma SameTexts()
    ensures "input=" + ("p" + ":" + "4" + "\n") + "\n:0\n" == "input=" + ("p:4\n\n" + ":" + "0" + "\n") + ""
  {
    assert ("p" + ":" + "4" + "\n") + "\n:0\n" == ("p:4\n\n" + ":" + "0" + "\n") + "";
  }

  // ----- The bytes -----

  /** The stream is the line of the version, then for each added column and each input a line with its name
      and the length of its text, and the text. */
  lemma StreamOfNothing(v: int)
    ensures StreamOf(Source(v, [], [])) == "schema_version=" + Signed(v) + "\n"
  {
    assert Records(Source(v, [], [])) == [];
    assert Write([]) == "";
  }

  lemma WriteOneMore(rs: seq<Record>, r: Record)
    ensures Write(rs + [r]) == Write(rs) + Entry(r)
  {
    WriteAppends(rs, [r]);
    assert Entries([r]) == [Entry(r)];
    assert Concat([Entry(r)]) == Concat([Entry(r)][..0]) + Entry(r);
    assert [Entry(r)][..0] == [];
  }

  lemma StreamOneMore(s: Source, t: Source, r: Record)
    requires t.version == s.version && Records(t) == Records(s) + [r]
    ensures StreamOf(t) == StreamOf(s) + Entry(r)
  {
    WriteOneMore(Records(s), r);
    Assoc(VersionLine(s.version), Write(Records(s)), Entry(r));
  }

  lemma ColumnsAddToTheStream(v: int, columns: seq<Column>, c: Column)
    ensures StreamOf(Source(v, columns + [c], []))
         == StreamOf(Source(v, columns, []))
            + ("added_column=" + (c.table + "." + c.name + ":" + Decimal(|c.ddl|) + "\n") + c.ddl)
  {
    StreamOneMore(Source(v, columns, []), Source(v, columns + [c], []), OfColumn(c));
  }

  lemma InputsAddToTheStream(v: int, columns: seq<Column>, inputs: seq<Input>, i: Input)
    ensures StreamOf(Source(v, columns, inputs + [i]))
         == StreamOf(Source(v, columns, inputs))
            + ("input=" + (i.path + ":" + Decimal(|i.bytes|) + "\n") + i.bytes)
  {
    InputRecordsAppend(columns, inputs, i);
    StreamOneMore(Source(v, columns, inputs), Source(v, columns, inputs + [i]), OfInput(i));
  }

  lemma InputRecordsAppend(columns: seq<Column>, inputs: seq<Input>, i: Input)
    ensures ColumnRecords(columns) + InputRecords(inputs + [i])
         == ColumnRecords(columns) + InputRecords(inputs) + [OfInput(i)]
  {
    assert InputRecords(inputs + [i]) == InputRecords(inputs) + [OfInput(i)];
  }
}
