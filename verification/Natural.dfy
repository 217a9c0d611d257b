/** Natural ordering of user-given names. `lower` stands for `char::to_lowercase`, one character to
    a text; nothing here depends on which map it is. */
module Natural {
  import opened Orders
  import opened Text

  datatype Chunk = Digits(digits: string) | Words(text: string)

  type Lower = char -> string

  // ----- Splitting -----

  function Push(lower: Lower, out: seq<Chunk>, ch: char): seq<Chunk> {
    var n := |out|;
    if n > 0 && out[n - 1].Digits? && IsDigit(ch) then out[n - 1 := Digits(out[n - 1].digits + [ch])]
    else if n > 0 && out[n - 1].Words? && !IsDigit(ch) then out[n - 1 := Words(out[n - 1].text + lower(ch))]
    else if IsDigit(ch) then out + [Digits([ch])]
    else out + [Words(lower(ch))]
  }

  function ChunksOf(lower: Lower, s: string): seq<Chunk> {
    if s == [] then [] else Push(lower, ChunksOf(lower, s[..|s| - 1]), s[|s| - 1])
  }

  method Chunks(lower: Lower, s: string) returns (out: seq<Chunk>)
    ensures out == ChunksOf(lower, s)
  {
    out := [];
    for i := 0 to |s|
      invariant out == ChunksOf(lower, s[..i])
    {
      var ch := s[i];
      var digit := IsDigit(ch);
      assert s[..i + 1][..i] == s[..i];
      if out != [] && out[|out| - 1].Digits? && digit {
        out := out[|out| - 1 := Digits(out[|out| - 1].digits + [ch])];
      } else if out != [] && out[|out| - 1].Words? && !digit {
        out := out[|out| - 1 := Words(out[|out| - 1].text + lower(ch))];
      } else if digit {
        out := out + [Digits([ch])];
      } else {
        out := out + [Words(lower(ch))];
      }
    }
    assert s[..|s|] == s;
  }

  function Folded(lower: Lower, s: string): string {
    if s == [] then []
    else Folded(lower, s[..|s| - 1]) + (if IsDigit(s[|s| - 1]) then [s[|s| - 1]] else lower(s[|s| - 1]))
  }

  function Flatten(chunks: seq<Chunk>): string {
    if chunks == [] then []
    else
      var last := chunks[|chunks| - 1];
      Flatten(chunks[..|chunks| - 1]) + (if last.Digits? then last.digits else last.text)
  }

  /** Maximal runs: no two neighbours are of one kind, and a digit run is nonempty and all digits. */
  predicate AreRuns(chunks: seq<Chunk>) {
    && (forall i | 0 < i < |chunks| :: chunks[i].Digits? != chunks[i - 1].Digits?)
    && (forall i | 0 <= i < |chunks| && chunks[i].Digits? ::
          chunks[i].digits != [] && AllDigits(chunks[i].digits))
  }

  /** The chunks of a name are its maximal runs, and put back together they are the name in lower
      case. */
  lemma {:induction false} ChunksAreRuns(lower: Lower, s: string)
    ensures AreRuns(ChunksOf(lower, s))
    ensures Flatten(ChunksOf(lower, s)) == Folded(lower, s)
  {
    if s != [] {
      ChunksAreRuns(lower, s[..|s| - 1]);
      PushKeepsRuns(lower, ChunksOf(lower, s[..|s| - 1]), s[|s| - 1]);
      FlattenAfterPush(lower, ChunksOf(lower, s[..|s| - 1]), s[|s| - 1]);
    }
  }

  lemma PushKeepsRuns(lower: Lower, out: seq<Chunk>, ch: char)
    requires AreRuns(out)
    ensures AreRuns(Push(lower, out, ch))
  {
    if out != [] && out[|out| - 1].Digits? {
      assert AllDigits(out[|out| - 1].digits);
    }
  }

  lemma FlattenAfterPush(lower: Lower, out: seq<Chunk>, ch: char)
    ensures Flatten(Push(lower, out, ch)) == Flatten(out) + (if IsDigit(ch) then [ch] else lower(ch))
  {
    var next := Push(lower, out, ch);
    if |next| == |out| {
      assert next[..|out| - 1] == out[..|out| - 1];
    } else {
      assert next[..|out|] == out;
    }
  }

  // ----- Comparing -----

  function CmpText(a: string, b: string): Ordering {
    LexCmp(CmpChar, a, b)
  }

  /** Two digit runs, by length and then digit by digit, once leading zeros are gone. */
  function CmpDigits(p: string, q: string): Ordering {
    var (p, q) := (StripZeros(p), StripZeros(q));
    if |p| != |q| then CmpInt(|p|, |q|) else CmpText(p, q)
  }

  function CmpChunk(x: Chunk, y: Chunk): Ordering {
    match (x, y)
    case (Digits(p), Digits(q)) => CmpDigits(p, q)
    case (Words(p), Words(q)) => CmpText(p, q)
    case (Digits(_), Words(_)) => Less
    case (Words(_), Digits(_)) => Greater
  }

  function Cmp(lower: Lower, a: string, b: string): Ordering {
    LexCmp(CmpChunk, ChunksOf(lower, a), ChunksOf(lower, b))
  }

  method NaturalCmp(lower: Lower, a: string, b: string) returns (ord: Ordering)
    ensures ord == Cmp(lower, a, b)
    ensures ord == Less <==> NameBefore(lower, a, b)
    ensures ord == Greater <==> NameBefore(lower, b, a)
  {
    NaturalMeaning(lower, a, b);
    var ca := Chunks(lower, a);
    var cb := Chunks(lower, b);
    ord := Compare(CmpChunk, ca, cb);
  }

  // ----- The order is a total preorder -----

  lemma CharsArePreordered()
    ensures IsPreorder(CmpChar)
    ensures forall x, y :: CmpChar(x, y) == Equal <==> x == y
  {}

  lemma CmpTextIsAnOrder(a: string, b: string, c: string)
    ensures CmpText(a, b) == Equal <==> a == b
    ensures CmpText(b, a) == CmpText(a, b).Flip()
    ensures Chains(CmpText(a, b), CmpText(b, c), CmpText(a, c))
  {
    CharsArePreordered();
    LexEqual(CmpChar, a, b);
    LexFlip(CmpChar, a, b);
    LexChains(CmpChar, a, b, c);
  }

  /** A chunk with the leading zeros of a number removed: what the comparison looks at. */
  function Stripped(x: Chunk): Chunk {
    match x
    case Digits(d) => Digits(StripZeros(d))
    case Words(_) => x
  }

  lemma ChunksArePreordered()
    ensures IsPreorder(CmpChunk)
    ensures forall x, y :: CmpChunk(x, y) == Equal <==> Stripped(x) == Stripped(y)
  {
    forall x, y ensures CmpChunk(x, y) == Equal <==> Stripped(x) == Stripped(y) {
      EqualChunks(x, y);
    }
    forall x, y ensures CmpChunk(y, x) == CmpChunk(x, y).Flip() {
      FlippedChunks(x, y);
    }
    forall x, y, z ensures Chains(CmpChunk(x, y), CmpChunk(y, z), CmpChunk(x, z)) {
      ChainedChunks(x, y, z);
    }
  }

  function Body(x: Chunk): string {
    if x.Digits? then StripZeros(x.digits) else x.text
  }

  /** The comparison of two chunks, given which of them are numbers and what is compared. */
  function CmpBodies(xd: bool, x: string, yd: bool, y: string): Ordering {
    if xd != yd then (if xd then Less else Greater)
    else if xd && |x| != |y| then CmpInt(|x|, |y|)
    else CmpText(x, y)
  }

  lemma ChunksCompareByBody(x: Chunk, y: Chunk)
    ensures CmpChunk(x, y) == CmpBodies(x.Digits?, Body(x), y.Digits?, Body(y))
    ensures Stripped(x) == Stripped(y) <==> x.Digits? == y.Digits? && Body(x) == Body(y)
  {
  }

  lemma BodiesArePreordered(xd: bool, x: string, yd: bool, y: string, zd: bool, z: string)
    ensures CmpBodies(xd, x, yd, y) == Equal <==> xd == yd && x == y
    ensures CmpBodies(yd, y, xd, x) == CmpBodies(xd, x, yd, y).Flip()
    ensures Chains(CmpBodies(xd, x, yd, y), CmpBodies(yd, y, zd, z), CmpBodies(xd, x, zd, z))
  {
    CmpTextIsAnOrder(x, y, z);
  }

  lemma EqualChunks(x: Chunk, y: Chunk)
    ensures CmpChunk(x, y) == Equal <==> Stripped(x) == Stripped(y)
  {
    ChunksCompareByBody(x, y);
    BodiesArePreordered(x.Digits?, Body(x), y.Digits?, Body(y), true, "");
  }

  lemma FlippedChunks(x: Chunk, y: Chunk)
    ensures CmpChunk(y, x) == CmpChunk(x, y).Flip()
  {
    ChunksCompareByBody(x, y);
    ChunksCompareByBody(y, x);
    BodiesArePreordered(x.Digits?, Body(x), y.Digits?, Body(y), true, "");
  }

  lemma ChainedChunks(x: Chunk, y: Chunk, z: Chunk)
    ensures Chains(CmpChunk(x, y), CmpChunk(y, z), CmpChunk(x, z))
  {
    ChunksCompareByBody(x, y);
    ChunksCompareByBody(y, z);
    ChunksCompareByBody(x, z);
    BodiesArePreordered(x.Digits?, Body(x), y.Digits?, Body(y), z.Digits?, Body(z));
  }

  function StrippedChunks(lower: Lower, s: string): seq<Chunk> {
    var chunks := ChunksOf(lower, s);
    seq(|chunks|, i requires 0 <= i < |chunks| => Stripped(chunks[i]))
  }

  /** `natural_cmp` is reflexive, swap-symmetric and transitive. */
  lemma NaturalIsPreordered(lower: Lower, a: string, b: string, c: string)
    ensures Cmp(lower, a, a) == Equal
    ensures Cmp(lower, b, a) == Cmp(lower, a, b).Flip()
    ensures Chains(Cmp(lower, a, b), Cmp(lower, b, c), Cmp(lower, a, c))
  {
    ChunksArePreordered();
    LexRefl(CmpChunk, ChunksOf(lower, a));
    LexFlip(CmpChunk, ChunksOf(lower, a), ChunksOf(lower, b));
    LexChains(CmpChunk, ChunksOf(lower, a), ChunksOf(lower, b), ChunksOf(lower, c));
  }

  /** It ties two names exactly when their lower-cased chunks agree, leading zeros apart. */
  lemma NaturalTies(lower: Lower, a: string, b: string)
    ensures Cmp(lower, a, b) == Equal <==> StrippedChunks(lower, a) == StrippedChunks(lower, b)
  {
    TiesByChunk(ChunksOf(lower, a), ChunksOf(lower, b), StrippedChunks(lower, a), StrippedChunks(lower, b));
  }

  predicate StripsTo(chunks: seq<Chunk>, stripped: seq<Chunk>) {
    |stripped| == |chunks| && forall i | 0 <= i < |chunks| :: stripped[i] == Stripped(chunks[i])
  }

  lemma TiesByChunk(x: seq<Chunk>, y: seq<Chunk>, p: seq<Chunk>, q: seq<Chunk>)
    requires StripsTo(x, p) && StripsTo(y, q)
    ensures LexCmp(CmpChunk, x, y) == Equal <==> p == q
  {
    LexTies(CmpChunk, x, y);
    if |x| == |y| {
      forall i | 0 <= i < |x| ensures CmpChunk(x[i], y[i]) == Equal <==> p[i] == q[i] {
        EqualChunks(x[i], y[i]);
      }
    }
  }

  // ----- Digit runs compare as numbers -----

  lemma {:induction false} ZerosAreWorthless(s: string)
    requires AllDigits(s)
    ensures Value(StripZeros(s)) == Value(s)
  {
    if s != [] && s[0] == '0' {
      ZerosAreWorthless(s[1..]);
      LeadingZero(s);
    }
  }

  lemma {:induction false} LeadingZero(s: string)
    requires AllDigits(s) && s != [] && s[0] == '0'
    ensures Value(s[1..]) == Value(s)
  {
    if |s| > 1 {
      LeadingZero(s[..|s| - 1]);
      assert s[..|s| - 1][1..] == s[1..][..|s| - 2];
    }
  }

  lemma {:induction false} ShorterIsSmaller(p: string, q: string)
    requires AllDigits(p) && AllDigits(q)
    requires |p| < |q| && q[0] != '0'
    ensures Value(p) < Value(q)
  {
    if p != [] {
      ShorterIsSmaller(p[..|p| - 1], q[..|q| - 1]);
    } else if |q| > 1 {
      ShorterIsSmaller([], q[..|q| - 1]);
    }
  }

  lemma {:induction false} SameLengthByDigits(p: string, q: string)
    requires AllDigits(p) && AllDigits(q) && |p| == |q|
    ensures CmpText(p, q) == CmpInt(Value(p), Value(q))
  {
    if p != [] {
      var (pf, qf) := (p[..|p| - 1], q[..|q| - 1]);
      SameLengthByDigits(pf, qf);
      LexFromTheRight(CmpChar, pf, qf, p[|p| - 1], q[|q| - 1]);
      assert p == pf + [p[|p| - 1]] && q == qf + [q[|q| - 1]];
    }
  }

  /** Digit runs of any length compare as the numbers they denote. */
  lemma DigitsCompareAsNumbers(p: string, q: string)
    requires AllDigits(p) && AllDigits(q)
    ensures CmpDigits(p, q) == CmpInt(Value(p), Value(q))
  {
    ZerosAreWorthless(p);
    ZerosAreWorthless(q);
    var (sp, sq) := (StripZeros(p), StripZeros(q));
    if |sp| < |sq| {
      ShorterIsSmaller(sp, sq);
    } else if |sq| < |sp| {
      ShorterIsSmaller(sq, sp);
    } else {
      SameLengthByDigits(sp, sq);
    }
  }

  /** "Pack 2" before "Pack 10": names alike up to a number are ordered by the number. */
  lemma NumberedNames(lower: Lower, name: string, p: string, q: string)
    requires name == [] || !IsDigit(name[|name| - 1])
    requires AllDigits(p) && AllDigits(q) && p != [] && q != []
    ensures Cmp(lower, name + p, name + q) == CmpInt(Value(p), Value(q))
  {
    NumberIsOneChunk(lower, name, p);
    NumberIsOneChunk(lower, name, q);
    AfterACommonName(ChunksOf(lower, name), Digits(p), Digits(q));
    DigitsCompareAsNumbers(p, q);
  }

  lemma AfterACommonName(name: seq<Chunk>, x: Chunk, y: Chunk)
    ensures LexCmp(CmpChunk, name + [x], name + [y]) == CmpChunk(x, y)
  {
    ChunksArePreordered();
    LexCommonPrefix(CmpChunk, name, [x], [y]);
    LexOfOne(CmpChunk, x, y);
  }

  lemma ChunksSnoc(lower: Lower, s: string, ch: char)
    ensures ChunksOf(lower, s + [ch]) == Push(lower, ChunksOf(lower, s), ch)
  {
    assert (s + [ch])[..|s|] == s;
  }

  lemma LastChunkOfAName(lower: Lower, name: string)
    requires name != [] && !IsDigit(name[|name| - 1])
    ensures var out := ChunksOf(lower, name); out != [] && out[|out| - 1].Words?
  {
    ChunksSnoc(lower, name[..|name| - 1], name[|name| - 1]);
    assert name[..|name| - 1] + [name[|name| - 1]] == name;
  }

  lemma PushOntoDigits(lower: Lower, before: seq<Chunk>, run: string, d: char)
    requires IsDigit(d)
    ensures Push(lower, before + [Digits(run)], d) == before + [Digits(run + [d])]
  {
    var out := before + [Digits(run)];
    assert out[|before|] == Digits(run);
    assert out[|before| := Digits(run + [d])] == before + [Digits(run + [d])];
  }

  lemma {:induction false} NumberIsOneChunk(lower: Lower, name: string, p: string)
    requires name == [] || !IsDigit(name[|name| - 1])
    requires AllDigits(p) && p != []
    ensures ChunksOf(lower, name + p) == ChunksOf(lower, name) + [Digits(p)]
  {
    var front, d := p[..|p| - 1], p[|p| - 1];
    assert p == front + [d] && name + p == name + front + [d];
    ChunksSnoc(lower, name + front, d);
    if front == [] {
      assert name + front == name && [d] == p;
      if name != [] {
        LastChunkOfAName(lower, name);
      }
    } else {
      NumberIsOneChunk(lower, name, front);
      PushOntoDigits(lower, ChunksOf(lower, name), front, d);
    }
  }

  // ----- What the order means -----

  predicate SameChunk(x: Chunk, y: Chunk)
    requires x.Digits? ==> AllDigits(x.digits)
    requires y.Digits? ==> AllDigits(y.digits)
  {
    if x.Digits? && y.Digits? then Value(x.digits) == Value(y.digits)
    else x.Words? && y.Words? && x.text == y.text
  }

  /** A smaller number, an earlier text, or a number before a text. */
  predicate ChunkBefore(x: Chunk, y: Chunk)
    requires x.Digits? ==> AllDigits(x.digits)
    requires y.Digits? ==> AllDigits(y.digits)
  {
    if x.Digits? && y.Digits? then Value(x.digits) < Value(y.digits)
    else if x.Words? && y.Words? then TextBefore(x.text, y.text)
    else x.Digits?
  }

  predicate Numeric(chunks: seq<Chunk>) {
    forall i | 0 <= i < |chunks| && chunks[i].Digits? :: AllDigits(chunks[i].digits)
  }

  predicate ChunksBeforeAt(x: seq<Chunk>, y: seq<Chunk>, k: int)
    requires Numeric(x) && Numeric(y)
  {
    && 0 <= k <= |x| && k < |y|
    && (forall i | 0 <= i < k :: SameChunk(x[i], y[i]))
    && (k < |x| ==> ChunkBefore(x[k], y[k]))
  }

  /** At the first run where two names differ the first one ends or has the earlier run: the smaller number,
      the earlier text, or a number where the other has a text. */
  ghost predicate NameBefore(lower: Lower, a: string, b: string) {
    var x, y := ChunksOf(lower, a), ChunksOf(lower, b);
    Numeric(x) && Numeric(y) && exists k :: ChunksBeforeAt(x, y, k)
  }

  ghost predicate NamesTie(lower: Lower, a: string, b: string) {
    !NameBefore(lower, a, b) && !NameBefore(lower, b, a)
  }

  lemma ChunkMeaning(x: Chunk, y: Chunk)
    requires x.Digits? ==> AllDigits(x.digits)
    requires y.Digits? ==> AllDigits(y.digits)
    ensures CmpChunk(x, y) == Equal <==> SameChunk(x, y)
    ensures CmpChunk(x, y) == Less <==> ChunkBefore(x, y)
  {
    if x.Digits? && y.Digits? {
      DigitsCompareAsNumbers(x.digits, y.digits);
    } else if x.Words? && y.Words? {
      TextOrder(x.text, y.text);
      CmpTextIsAnOrder(x.text, y.text, "");
    }
  }

  lemma ChunksMeaning(x: seq<Chunk>, y: seq<Chunk>)
    requires Numeric(x) && Numeric(y)
    ensures LexCmp(CmpChunk, x, y) == Less <==> exists k :: ChunksBeforeAt(x, y, k)
  {
    LexMeaning(CmpChunk, x, y);
    forall k ensures LessAt(CmpChunk, x, y, k) <==> ChunksBeforeAt(x, y, k) {
      if 0 <= k <= |x| && k < |y| {
        forall i | 0 <= i < k ensures CmpChunk(x[i], y[i]) == Equal <==> SameChunk(x[i], y[i]) {
          ChunkMeaning(x[i], y[i]);
        }
        if k < |x| {
          ChunkMeaning(x[k], y[k]);
        }
      }
    }
  }

  /** `natural_cmp` answers Less exactly when the first name comes before the second, Greater when the
      second does, and Equal when neither does. */
  lemma NaturalMeaning(lower: Lower, a: string, b: string)
    ensures Cmp(lower, a, b) == Less <==> NameBefore(lower, a, b)
    ensures Cmp(lower, a, b) == Greater <==> NameBefore(lower, b, a)
    ensures Cmp(lower, a, b) == Equal <==> NamesTie(lower, a, b)
  {
    ChunksAreRuns(lower, a);
    ChunksAreRuns(lower, b);
    ChunksMeaning(ChunksOf(lower, a), ChunksOf(lower, b));
    ChunksMeaning(ChunksOf(lower, b), ChunksOf(lower, a));
    NaturalIsPreordered(lower, a, b, a);
  }

  // ----- Names by their runs -----

  predicate NoDigits(s: string) {
    forall i | 0 <= i < |s| :: !IsDigit(s[i])
  }

  lemma {:induction false} WordsAreOneChunk(lower: Lower, s: string)
    requires NoDigits(s)
    ensures ChunksOf(lower, s) == if s == "" then [] else [Words(Folded(lower, s))]
  {
    if s != "" {
      var front, ch := s[..|s| - 1], s[|s| - 1];
      WordsAreOneChunk(lower, front);
      assert !IsDigit(ch);
      if front != "" {
        var out := [Words(Folded(lower, front))];
        assert out[0 := Words(out[0].text + lower(ch))] == [Words(Folded(lower, s))];
      } else {
        assert Folded(lower, s) == [] + lower(ch) == lower(ch);
      }
    }
  }

  /** Names without digits compare as their case-folded texts. */
  lemma WordsCompareAsText(lower: Lower, a: string, b: string)
    requires NoDigits(a) && NoDigits(b) && a != "" && b != ""
    ensures Cmp(lower, a, b) == Less <==> TextBefore(Folded(lower, a), Folded(lower, b))
    ensures Cmp(lower, a, b) == Equal <==> Folded(lower, a) == Folded(lower, b)
  {
    WordsAreOneChunk(lower, a);
    WordsAreOneChunk(lower, b);
    LexOfOne(CmpChunk, Words(Folded(lower, a)), Words(Folded(lower, b)));
    TextOrder(Folded(lower, a), Folded(lower, b));
    CmpTextIsAnOrder(Folded(lower, a), Folded(lower, b), "");
  }

  /** Where a run ends and another begins, the chunks of the two parts stand side by side. */
  predicate RunEnds(s: string, t: string) {
    t != "" && (s == "" || IsDigit(s[|s| - 1]) != IsDigit(t[0]))
  }

  lemma LastChunkKind(lower: Lower, s: string)
    requires s != ""
    ensures var out := ChunksOf(lower, s); out != [] && (out[|out| - 1].Digits? <==> IsDigit(s[|s| - 1]))
  {
  }

  lemma PushBehind(lower: Lower, before: seq<Chunk>, out: seq<Chunk>, ch: char)
    requires out != []
    ensures Push(lower, before + out, ch) == before + Push(lower, out, ch)
  {
    var n := |out|;
    var last := out[n - 1];
    assert (before + out)[|before| + n - 1] == last;
    if last.Digits? && IsDigit(ch) {
      var longer := Digits(last.digits + [ch]);
      assert (before + out)[|before| + n - 1 := longer] == before + out[n - 1 := longer];
    } else if last.Words? && !IsDigit(ch) {
      var longer := Words(last.text + lower(ch));
      assert (before + out)[|before| + n - 1 := longer] == before + out[n - 1 := longer];
    }
  }

  lemma FirstRunBehind(lower: Lower, s: string, ch: char)
    requires RunEnds(s, [ch])
    ensures ChunksOf(lower, s + [ch]) == ChunksOf(lower, s) + ChunksOf(lower, [ch])
  {
    ChunksSnoc(lower, s, ch);
    ChunksSnoc(lower, "", ch);
    assert "" + [ch] == [ch];
    if s != "" {
      LastChunkKind(lower, s);
    }
  }

  lemma NextBehind(lower: Lower, s: string, front: string, ch: char, before: seq<Chunk>, out: seq<Chunk>)
    requires out != [] && ChunksOf(lower, front) == out && ChunksOf(lower, s + front) == before + out
    ensures ChunksOf(lower, (s + front) + [ch]) == before + ChunksOf(lower, front + [ch])
  {
    ChunksSnoc(lower, s + front, ch);
    ChunksSnoc(lower, front, ch);
    PushBehind(lower, before, out, ch);
  }

  lemma {:induction false} RunsSideBySide(lower: Lower, s: string, t: string)
    requires RunEnds(s, t)
    ensures ChunksOf(lower, s + t) == ChunksOf(lower, s) + ChunksOf(lower, t)
    decreases |t|
  {
    var front, ch := t[..|t| - 1], t[|t| - 1];
    assert t == front + [ch];
    if front == "" {
      assert t == [ch];
      FirstRunBehind(lower, s, ch);
    } else {
      assert front[0] == t[0];
      RunsSideBySide(lower, s, front);
      LastChunkKind(lower, front);
      NextBehind(lower, s, front, ch, ChunksOf(lower, s), ChunksOf(lower, front));
      assert (s + front) + [ch] == s + t;
    }
  }

  /** A name sorts before its own extension by further runs. */
  lemma ExtensionsComeLater(lower: Lower, name: string, more: string)
    requires RunEnds(name, more)
    ensures Cmp(lower, name, name + more) == Less
  {
    RunsSideBySide(lower, name, more);
    ChunksArePreordered();
    LastChunkKind(lower, more);
    LexCommonPrefix(CmpChunk, ChunksOf(lower, name), [], ChunksOf(lower, more));
    assert ChunksOf(lower, name) + [] == ChunksOf(lower, name);
  }

  /** Where the last run of other characters than digits starts. */
  function WordsFrom(s: string): (i: nat)
    ensures i <= |s| && (i == 0 || IsDigit(s[i - 1])) && forall k | i <= k < |s| :: !IsDigit(s[k])
  {
    if s == "" || IsDigit(s[|s| - 1]) then |s| else WordsFrom(s[..|s| - 1])
  }

  lemma {:induction false} FirstChunkKind(lower: Lower, s: string)
    requires s != ""
    ensures var out := ChunksOf(lower, s); out != [] && (out[0].Digits? <==> IsDigit(s[0]))
  {
    if |s| > 1 {
      FirstChunkKind(lower, s[..|s| - 1]);
    }
  }

  lemma PushKeepsFirst(lower: Lower, out: seq<Chunk>, ch: char)
    requires out != [] && out[0].Words?
    ensures var next := Push(lower, out, ch); next != [] && next[0].Words? && out[0].text <= next[0].text
  {
  }

  /** Whatever follows, the first run of a text that begins with words begins with those words. */
  lemma {:induction false} FirstChunkGrows(lower: Lower, words: string, s: string)
    requires NoDigits(words) && words != "" && words <= s
    ensures var out := ChunksOf(lower, s);
            out != [] && out[0].Words? && Folded(lower, words) <= out[0].text
    decreases |s|
  {
    if |s| == |words| {
      assert s == words;
      WordsAreOneChunk(lower, words);
    } else {
      var front := s[..|s| - 1];
      assert words <= front;
      FirstChunkGrows(lower, words, front);
      PushKeepsFirst(lower, ChunksOf(lower, front), s[|s| - 1]);
    }
  }

  /** At the end of a name that does not end in a digit, and at its very beginning, a digit sorts before
      anything else. */
  lemma DigitsComeFirst(lower: Lower, name: string, digits: string, words: string)
    requires digits != "" && IsDigit(digits[0]) && words != "" && !IsDigit(words[0])
    requires name == "" || (!IsDigit(name[|name| - 1]) && lower(words[0]) != "")
    ensures Cmp(lower, name + digits, name + words) == Less
  {
    if name == "" {
      assert name + digits == digits && name + words == words;
      FirstChunkKind(lower, digits);
      FirstChunkKind(lower, words);
    } else {
      var i := WordsFrom(name);
      var before, run := name[..i], name[i..];
      assert name == before + run && run[|run| - 1] == name[|name| - 1];
      assert name + digits == before + (run + digits) && name + words == before + (run + words);
      RunsSideBySide(lower, before, run + digits);
      RunsSideBySide(lower, before, run + words);
      RunsSideBySide(lower, run, digits);
      WordsAreOneChunk(lower, run);
      var x := ChunksOf(lower, run + digits);
      var y := ChunksOf(lower, run + words);
      RunComesFirst(lower, run, words);
      assert x[0] == Words(Folded(lower, run));
      ChunksArePreordered();
      LexCommonPrefix(CmpChunk, ChunksOf(lower, before), x, y);
    }
  }

  lemma FoldedSnoc(lower: Lower, s: string, ch: char)
    ensures Folded(lower, s + [ch]) == Folded(lower, s) + if IsDigit(ch) then [ch] else lower(ch)
  {
    assert (s + [ch])[..|s|] == s;
  }

  lemma ProperPrefix(a: string, more: string, text: string)
    requires more != "" && a + more <= text
    ensures CmpText(a, text) == Less
  {
    assert text[..|a|] == (a + more)[..|a|] == a;
    TextOrder(a, text);
  }

  /** A run of words sorts before any text it is continued to. */
  lemma RunComesFirst(lower: Lower, run: string, words: string)
    requires NoDigits(run) && run != "" && words != "" && !IsDigit(words[0]) && lower(words[0]) != ""
    ensures var out := ChunksOf(lower, run + words);
            out != [] && CmpChunk(Words(Folded(lower, run)), out[0]) == Less
  {
    var longer := run + [words[0]];
    assert longer <= run + words;
    FirstChunkGrows(lower, longer, run + words);
    FoldedSnoc(lower, run, words[0]);
    ProperPrefix(Folded(lower, run), lower(words[0]), ChunksOf(lower, run + words)[0].text);
  }
}
