/** The scanner against texts that are written, not scanned: values with nested brackets and quoted strings,
    with other text between them. Whatever the strings hold, each value is taken whole. */
module BracketValues {
  import opened Wrappers
  import opened BracketScanner

  /** A character of a quoted string: any but a quote or a backslash, or a backslash and any character. */
  datatype Quoted = Literal(c: char) | Escape(c: char)

  /** What a value is made of: other characters, quoted strings, and bracketed runs. */
  datatype Item = Bare(c: char) | Text(quoted: seq<Quoted>) | Nest(curly: bool, items: seq<Item>)

  predicate Proper(item: Item) {
    match item
    case Bare(c) => c !in {'"', '\\', '{', '}', '[', ']'}
    case Text(quoted) => forall q | q in quoted :: q.Literal? ==> q.c != '"' && q.c != '\\'
    case Nest(_, items) => forall x | x in items :: Proper(x)
  }

  function WriteQuoted(quoted: seq<Quoted>): string {
    if quoted == [] then ""
    else (if quoted[0].Literal? then [quoted[0].c] else ['\\', quoted[0].c]) + WriteQuoted(quoted[1..])
  }

  function Write(item: Item): string {
    match item
    case Bare(c) => [c]
    case Text(quoted) => ['"'] + WriteQuoted(quoted) + ['"']
    case Nest(curly, items) => [if curly then '{' else '['] + WriteAll(items) + [if curly then '}' else ']']
  }

  function WriteAll(items: seq<Item>): string {
    if items == [] then "" else Write(items[0]) + WriteAll(items[1..])
  }

  // ----- Crossing what was written -----

  predicate StandsAt(text: string, p: nat, part: string) {
    p + |part| <= |text| && forall k | 0 <= k < |part| :: text[p + k] == part[k]
  }

  /** Outside strings, with nothing escaped. */
  predicate Clear(text: string, i: nat, k: nat)
    requires i <= k <= |text|
  {
    !Escaped(text, i, k) && !InString(text, i, k)
  }

  /** From p to q the depth of the opener at i comes back to where it was and is never less on the way. */
  predicate Crosses(text: string, i: nat, p: nat, q: nat) {
    && i < |text| && i <= p <= q <= |text|
    && Clear(text, i, q) && Depth(text, i, q) == Depth(text, i, p)
    && forall k | p <= k <= q :: Depth(text, i, k) >= Depth(text, i, p)
  }

  lemma CrossOn(text: string, i: nat, p: nat, q: nat, r: nat)
    requires Crosses(text, i, p, q) && Crosses(text, i, q, r)
    ensures Crosses(text, i, p, r)
  {
  }

  lemma Parts(text: string, p: nat, a: string, b: string)
    requires StandsAt(text, p, a + b)
    ensures StandsAt(text, p, a) && StandsAt(text, p + |a|, b)
  {
    var whole := a + b;
    assert forall k | 0 <= k < |a| :: whole[k] == a[k];
    forall k | 0 <= k < |b| ensures text[p + |a| + k] == b[k] {
      assert whole[|a| + k] == b[k];
    }
  }

  lemma OneCharacter(text: string, p: nat, c: char)
    requires StandsAt(text, p, [c])
    ensures p < |text| && text[p] == c
  {
    assert [c][0] == c;
  }

  lemma CrossBare(text: string, i: nat, p: nat, c: char)
    requires i < |text| && i <= p && IsOpener(text[i]) && StandsAt(text, p, [c]) && Clear(text, i, p)
    requires Proper(Bare(c))
    ensures Crosses(text, i, p, p + 1)
  {
    OneCharacter(text, p, c);
    DepthStep(text, i, p);
  }

  /** Inside a string, not escaped, at the same depth. */
  predicate Within(text: string, i: nat, p: nat, k: nat)
    requires i < |text| && i <= p <= |text| && i <= k <= |text|
  {
    InString(text, i, k) && !Escaped(text, i, k) && Depth(text, i, k) == Depth(text, i, p)
  }

  predicate Level(text: string, i: nat, p: nat, q: nat)
    requires i < |text| && i <= p <= q <= |text|
  {
    forall k | p <= k <= q :: Depth(text, i, k) == Depth(text, i, p)
  }

  lemma {:induction false} CrossQuoted(text: string, i: nat, p: nat, quoted: seq<Quoted>)
    requires i < |text| && i <= p <= |text| && IsOpener(text[i]) && StandsAt(text, p, WriteQuoted(quoted))
    requires Proper(Text(quoted)) && InString(text, i, p) && !Escaped(text, i, p)
    ensures Within(text, i, p, p + |WriteQuoted(quoted)|)
    ensures Level(text, i, p, p + |WriteQuoted(quoted)|)
    decreases |quoted|
  {
    if quoted != [] {
      var q := quoted[0];
      assert q in quoted;
      var first := if q.Literal? then [q.c] else ['\\', q.c];
      Parts(text, p, first, WriteQuoted(quoted[1..]));
      if q.Literal? {
        OneCharacter(text, p, q.c);
        DepthStep(text, i, p);
      } else {
        assert text[p + 0] == first[0] && text[p + 1] == first[1];
        DepthStep(text, i, p);
        DepthStep(text, i, p + 1);
      }
      CrossQuoted(text, i, p + |first|, quoted[1..]);
    }
  }

  lemma CrossText(text: string, i: nat, p: nat, quoted: seq<Quoted>)
    requires i < |text| && i <= p && IsOpener(text[i]) && StandsAt(text, p, Write(Text(quoted))) && Clear(text, i, p)
    requires Proper(Text(quoted))
    ensures Crosses(text, i, p, p + |Write(Text(quoted))|)
  {
    var body := WriteQuoted(quoted);
    assert Write(Text(quoted)) == ['"'] + (body + ['"']);
    Parts(text, p, ['"'], body + ['"']);
    Parts(text, p + 1, body, ['"']);
    OneCharacter(text, p, '"');
    OneCharacter(text, p + 1 + |body|, '"');
    DepthStep(text, i, p);
    CrossQuoted(text, i, p + 1, quoted);
    DepthStep(text, i, p + 1 + |body|);
  }

  lemma {:induction false} CrossItem(text: string, i: nat, p: nat, item: Item)
    requires i < |text| && i <= p && IsOpener(text[i]) && StandsAt(text, p, Write(item)) && Clear(text, i, p)
    requires Proper(item)
    ensures Crosses(text, i, p, p + |Write(item)|)
    decreases item, 0
  {
    match item
    case Bare(c) => CrossBare(text, i, p, c);
    case Text(quoted) => CrossText(text, i, p, quoted);
    case Nest(curly, items) =>
      var body := WriteAll(items);
      EnterNest(text, i, p, curly, body);
      CrossAll(text, i, p + 1, items);
      LeaveNest(text, i, p, curly, body);
  }

  function Opener(curly: bool): char {
    if curly then '{' else '['
  }

  function Closer(curly: bool): char {
    if curly then '}' else ']'
  }

  /** The depth behind a bracket that opens, when the opener at i is of this kind or of the other. */
  lemma EnterNest(text: string, i: nat, p: nat, curly: bool, body: string)
    requires i < |text| && i <= p && IsOpener(text[i])
    requires StandsAt(text, p, [Opener(curly)] + body + [Closer(curly)]) && Clear(text, i, p)
    ensures p + 1 + |body| < |text| && text[p + 1 + |body|] == Closer(curly)
    ensures StandsAt(text, p + 1, body) && Clear(text, i, p + 1)
    ensures Depth(text, i, p + 1) == Depth(text, i, p) + if text[i] == Opener(curly) then 1 else 0
  {
    assert [Opener(curly)] + body + [Closer(curly)] == [Opener(curly)] + (body + [Closer(curly)]);
    Parts(text, p, [Opener(curly)], body + [Closer(curly)]);
    Parts(text, p + 1, body, [Closer(curly)]);
    OneCharacter(text, p, Opener(curly));
    OneCharacter(text, p + 1 + |body|, Closer(curly));
    DepthStep(text, i, p);
  }

  lemma LeaveNest(text: string, i: nat, p: nat, curly: bool, body: string)
    requires i < |text| && i <= p && IsOpener(text[i])
    requires p + 1 + |body| < |text| && text[p + 1 + |body|] == Closer(curly)
    requires Depth(text, i, p + 1) == Depth(text, i, p) + if text[i] == Opener(curly) then 1 else 0
    requires Crosses(text, i, p + 1, p + 1 + |body|)
    ensures Crosses(text, i, p, p + |body| + 2)
  {
    DepthStep(text, i, p + 1 + |body|);
  }

  lemma {:induction false} CrossAll(text: string, i: nat, p: nat, items: seq<Item>)
    requires i < |text| && i <= p <= |text| && IsOpener(text[i]) && StandsAt(text, p, WriteAll(items)) && Clear(text, i, p)
    requires forall x | x in items :: Proper(x)
    ensures Crosses(text, i, p, p + |WriteAll(items)|)
    decreases items
  {
    if items != [] {
      assert items[0] in items;
      Parts(text, p, Write(items[0]), WriteAll(items[1..]));
      CrossItem(text, i, p, items[0]);
      CrossAll(text, i, p + |Write(items[0])|, items[1..]);
      CrossOn(text, i, p, p + |Write(items[0])|, p + |WriteAll(items)|);
    }
  }

  /** A bracketed value closes where it ends, whatever stands before and after it. */
  lemma WrittenValuesClose(text: string, i: nat, value: Item)
    requires value.Nest? && Proper(value) && StandsAt(text, i, Write(value))
    ensures Closes(text, i, i + |Write(value)| - 1)
  {
    var body := WriteAll(value.items);
    assert [Opener(value.curly)] + body + [Closer(value.curly)] == [Opener(value.curly)] + (body + [Closer(value.curly)]);
    Parts(text, i, [Opener(value.curly)], body + [Closer(value.curly)]);
    OneCharacter(text, i, Opener(value.curly));
    OpenerIsDeep(text, i);
    EnterNest(text, i, i, value.curly, body);
    CrossAll(text, i, i + 1, value.items);
    DepthStep(text, i, i + 1 + |body|);
  }

  // ----- Whole texts -----

  /** Text without openers, then a value. */
  datatype Chunk = Chunk(before: string, value: Item)

  predicate NoOpeners(s: string) {
    '{' !in s && '[' !in s
  }

  predicate WellWritten(chunks: seq<Chunk>) {
    forall c | c in chunks :: NoOpeners(c.before) && c.value.Nest? && Proper(c.value)
  }

  function Flight(chunks: seq<Chunk>, tail: string): string {
    if chunks == [] then tail else chunks[0].before + (Write(chunks[0].value) + Flight(chunks[1..], tail))
  }

  /** Where the values stand. */
  function Places(chunks: seq<Chunk>, p: nat): Slices {
    if chunks == [] then []
    else
      var i := p + |chunks[0].before|;
      [(i, i + |Write(chunks[0].value)| - 1)] + Places(chunks[1..], i + |Write(chunks[0].value)|)
  }

  /** From p on, exactly the slices of the values close, one after another. */
  ghost predicate Takes(text: string, p: nat, taken: Slices) {
    && AllClose(ClosesIn(text), taken)
    && LeftToRight(taken)
    && (forall n | 0 <= n < |taken| :: p <= taken[n].0)
    && (forall i: nat | p <= i < |text| && IsOpener(text[i]) :: Covered(taken, i))
  }

  lemma CoveredFurtherOn(first: (nat, nat), rest: Slices, k: nat)
    requires Covered(rest, k)
    ensures Covered([first] + rest, k)
  {
    var n :| 0 <= n < |rest| && rest[n].0 <= k <= rest[n].1;
    assert ([first] + rest)[n + 1] == rest[n];
  }

  lemma TakesOneMore(text: string, p: nat, i: nat, j: nat, rest: Slices)
    requires p <= i <= j && Closes(text, i, j) && Takes(text, j + 1, rest)
    requires forall k | p <= k < i && k < |text| :: !IsOpener(text[k])
    ensures Takes(text, p, [(i, j)] + rest)
  {
    var first: (nat, nat) := (i, j);
    var taken := [first] + rest;
    assert taken[0] == first && forall n | 0 < n < |taken| :: taken[n] == rest[n - 1];
    forall k: nat | p <= k < |text| && IsOpener(text[k]) ensures Covered(taken, k) {
      if k > j {
        CoveredFurtherOn(first, rest, k);
      } else {
        assert taken[0].0 <= k <= taken[0].1;
      }
    }
  }

  lemma NoOpenersThere(text: string, p: nat, part: string)
    requires StandsAt(text, p, part) && NoOpeners(part)
    ensures forall k | p <= k < p + |part| :: !IsOpener(text[k])
  {
    forall k | p <= k < p + |part| ensures !IsOpener(text[k]) {
      assert text[p + (k - p)] == part[k - p] && part[k - p] in part;
    }
  }

  function EndOfFirst(chunks: seq<Chunk>, p: nat): (end: nat)
    requires chunks != []
  {
    p + |chunks[0].before| + |Write(chunks[0].value)|
  }

  lemma FirstChunk(text: string, p: nat, chunks: seq<Chunk>, tail: string)
    requires chunks != [] && WellWritten(chunks) && StandsAt(text, p, Flight(chunks, tail))
    ensures var i, end := p + |chunks[0].before|, EndOfFirst(chunks, p);
            && i < end <= |text|
            && StandsAt(text, i, Write(chunks[0].value)) && StandsAt(text, end, Flight(chunks[1..], tail))
            && end + |Flight(chunks[1..], tail)| == p + |Flight(chunks, tail)|
            && Closes(text, i, end - 1)
            && forall k | p <= k < i :: !IsOpener(text[k])
    ensures WellWritten(chunks[1..])
  {
    var c, rest := chunks[0], Flight(chunks[1..], tail);
    assert c in chunks;
    var i := p + |c.before|;
    Parts(text, p, c.before, Write(c.value) + rest);
    Parts(text, i, Write(c.value), rest);
    NoOpenersThere(text, p, c.before);
    WrittenValuesClose(text, i, c.value);
    forall d | d in chunks[1..] ensures NoOpeners(d.before) && d.value.Nest? && Proper(d.value) {
      assert d in chunks;
    }
  }

  lemma TakeFirst(text: string, p: nat, chunks: seq<Chunk>, tail: string)
    requires chunks != [] && WellWritten(chunks) && StandsAt(text, p, Flight(chunks, tail))
    requires Takes(text, EndOfFirst(chunks, p), Places(chunks[1..], EndOfFirst(chunks, p)))
    ensures Takes(text, p, Places(chunks, p))
  {
    FirstChunk(text, p, chunks, tail);
    var i, end := p + |chunks[0].before|, EndOfFirst(chunks, p);
    TakesOneMore(text, p, i, end - 1, Places(chunks[1..], end));
  }

  lemma {:induction false} ValuesAreTaken(text: string, p: nat, chunks: seq<Chunk>, tail: string)
    requires StandsAt(text, p, Flight(chunks, tail)) && p + |Flight(chunks, tail)| == |text|
    requires WellWritten(chunks) && NoOpeners(tail)
    ensures Takes(text, p, Places(chunks, p))
    decreases |chunks|
  {
    if chunks == [] {
      NoOpenersThere(text, p, tail);
    } else {
      FirstChunk(text, p, chunks, tail);
      ValuesAreTaken(text, EndOfFirst(chunks, p), chunks[1..], tail);
      TakeFirst(text, p, chunks, tail);
    }
  }

  lemma TakesIsScan(text: string, taken: Slices)
    requires Takes(text, 0, taken)
    ensures IsScan(ClosesIn(text), 0, taken)
  {
    forall i: nat, j: nat | ClosesIn(text)(i, j) ensures Covered(taken, i) {
      assert Closes(text, i, j);
    }
  }

  /** The values of more than 32 characters that parse, in order. */
  function Parsed<V>(chunks: seq<Chunk>, parse: string -> Option<V>): seq<V> {
    if chunks == [] then []
    else BlobOfValue(chunks[0].value, parse) + Parsed(chunks[1..], parse)
  }

  lemma {:induction false} GatherFront<T, V>(f: T -> seq<V>, x: T, s: seq<T>)
    ensures Gather(f, [x] + s) == f(x) + Gather(f, s)
  {
    if s == [] {
      assert [x] + s == [x] && [x][..0] == [];
      assert Gather(f, [x]) == Gather(f, [x][..0]) + f(x);
    } else {
      var front, last := s[..|s| - 1], s[|s| - 1];
      GatherFront(f, x, front);
      assert [x] + s == [x] + front + [last] && s == front + [last];
      GatherOneMore(f, [x] + front, last);
      GatherOneMore(f, front, last);
    }
  }

  lemma OneBlob<V>(text: string, i: nat, written: string, parse: string -> Option<V>)
    requires StandsAt(text, i, written) && written != ""
    ensures var place: (nat, nat) := (i, i + |written| - 1);
            BlobAt(text, parse)(place) == if |written| > 32 && parse(written).Some? then [parse(written).value] else []
  {
    assert text[i..i + |written|] == written;
  }

  lemma PushPlace<V>(text: string, place: (nat, nat), rest: Slices, parse: string -> Option<V>)
    ensures Pushed(text, [place] + rest, parse) == BlobAt(text, parse)(place) + Pushed(text, rest, parse)
  {
    GatherFront<(nat, nat), V>(BlobAt(text, parse), place, rest);
  }

  function BlobOfValue<V>(value: Item, parse: string -> Option<V>): seq<V> {
    var written := Write(value);
    if |written| > 32 && parse(written).Some? then [parse(written).value] else []
  }

  function FirstPlace(chunks: seq<Chunk>, p: nat): (place: (nat, nat))
    requires chunks != [] && Write(chunks[0].value) != ""
  {
    (p + |chunks[0].before|, EndOfFirst(chunks, p) - 1)
  }

  lemma PlacesStep(chunks: seq<Chunk>, p: nat)
    requires chunks != [] && Write(chunks[0].value) != ""
    ensures Places(chunks, p) == [FirstPlace(chunks, p)] + Places(chunks[1..], EndOfFirst(chunks, p))
  {
  }

  lemma FirstBlob<V>(text: string, p: nat, chunks: seq<Chunk>, tail: string, parse: string -> Option<V>)
    requires chunks != [] && WellWritten(chunks) && StandsAt(text, p, Flight(chunks, tail))
    ensures Write(chunks[0].value) != ""
    ensures BlobAt(text, parse)(FirstPlace(chunks, p)) == BlobOfValue(chunks[0].value, parse)
  {
    FirstChunk(text, p, chunks, tail);
    OneBlob(text, p + |chunks[0].before|, Write(chunks[0].value), parse);
  }

  lemma FirstPushed<V>(text: string, p: nat, chunks: seq<Chunk>, tail: string, parse: string -> Option<V>)
    requires chunks != [] && WellWritten(chunks) && StandsAt(text, p, Flight(chunks, tail))
    ensures Pushed(text, Places(chunks, p), parse)
         == BlobOfValue(chunks[0].value, parse) + Pushed(text, Places(chunks[1..], EndOfFirst(chunks, p)), parse)
  {
    FirstBlob(text, p, chunks, tail, parse);
    PlacesStep(chunks, p);
    PushPlace(text, FirstPlace(chunks, p), Places(chunks[1..], EndOfFirst(chunks, p)), parse);
  }

  lemma PushFirst<V>(text: string, p: nat, chunks: seq<Chunk>, tail: string, parse: string -> Option<V>)
    requires chunks != [] && WellWritten(chunks) && StandsAt(text, p, Flight(chunks, tail))
    requires Pushed(text, Places(chunks[1..], EndOfFirst(chunks, p)), parse) == Parsed(chunks[1..], parse)
    ensures Pushed(text, Places(chunks, p), parse) == Parsed(chunks, parse)
  {
    FirstPushed(text, p, chunks, tail, parse);
  }

  lemma {:induction false} PushedValues<V>(text: string, p: nat, chunks: seq<Chunk>, tail: string,
                                           parse: string -> Option<V>)
    requires StandsAt(text, p, Flight(chunks, tail)) && WellWritten(chunks)
    ensures Pushed(text, Places(chunks, p), parse) == Parsed(chunks, parse)
    decreases |chunks|
  {
    if chunks != [] {
      FirstChunk(text, p, chunks, tail);
      PushedValues(text, EndOfFirst(chunks, p), chunks[1..], tail, parse);
      PushFirst(text, p, chunks, tail, parse);
    }
  }

  /** From a text that is values with other text between them the scanner extracts exactly the values longer
      than 32 characters that parse, in their order: brackets and quotes inside strings mislead it nowhere. */
  lemma WrittenValuesAreExtracted<V>(chunks: seq<Chunk>, tail: string, parse: string -> Option<V>, out: seq<V>)
    requires WellWritten(chunks) && NoOpeners(tail)
    requires Extracted(Flight(chunks, tail), parse, out)
    ensures out == Parsed(chunks, parse)
  {
    var text := Flight(chunks, tail);
    var taken :| IsExtraction(text, parse, out, taken);
    assert StandsAt(text, 0, text);
    ValuesAreTaken(text, 0, chunks, tail);
    var places := Places(chunks, 0);
    TakesIsScan(text, places);
    ScanIsUnique(text, taken, places);
    PushedValues(text, 0, chunks, tail, parse);
  }
}
