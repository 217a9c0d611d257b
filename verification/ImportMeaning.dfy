/** What a matched row is matched to, what it carries along, and why a row is refused: said of the row and
    the catalog's own rows. */
module ImportMeaning {
  import opened Wrappers
  import opened Text
  import opened CardText
  import opened StableSort
  import opened Queries
  import Natural
  import opened ImportResolver

  // ----- Numbers and names -----

  predicate Blank(s: string) {
    forall i | 0 <= i < |s| :: IsWhitespace(s[i])
  }

  lemma {:induction false} BlanksAreTrimmed(gap: string, s: string)
    requires Blank(gap)
    ensures TrimStart(gap + s) == TrimStart(s)
  {
    if gap == "" {
      assert gap + s == s;
    } else {
      assert (gap + s)[1..] == gap[1..] + s;
      assert forall i | 0 <= i < |gap[1..]| :: gap[1..][i] == gap[i + 1];
      BlanksAreTrimmed(gap[1..], s);
    }
  }

  lemma {:induction false} TrimmedOnce(s: string)
    ensures TrimStart(TrimStart(s)) == TrimStart(s)
  {
    if s != "" && IsWhitespace(s[0]) {
      TrimmedOnce(s[1..]);
    }
  }

  lemma {:induction false} BlanksAreTrimmedBehind(s: string, gap: string)
    requires Blank(gap)
    ensures TrimEnd(s + gap) == TrimEnd(s)
  {
    if gap == "" {
      assert s + gap == s;
    } else {
      assert (s + gap)[..|s + gap| - 1] == s + gap[..|gap| - 1];
      BlanksAreTrimmedBehind(s, gap[..|gap| - 1]);
    }
  }

  /** A number of digits loses its leading zeros and nothing else; any other only the white space around it. */
  lemma NormalizedNumbers(raw: string)
    ensures var s, n := Trim(raw), NormalizeNumber(raw);
            if s != "" && AllDigits(s) then
              n != "" && AllDigits(n) && Value(n) == Value(s) && (n[0] != '0' || n == "0")
            else n == s
  {
    var s := Trim(raw);
    if s != "" && AllDigits(s) {
      Natural.ZerosAreWorthless(s);
      assert Value("") == 0 && Value("0") == 0;
    }
  }

  /** A collector number that begins with its set's code, with or without white space after it, has the core
      of the number without the code. */
  lemma PrefixedNumbersShareACore(f: Folding, setCode: string, bare: string, prefixed: string, gap: string)
    requires Blank(gap) && f.lower(Trim(prefixed)) == f.lower(setCode) + gap + f.lower(Trim(bare))
    requires !(f.lower(setCode) <= f.lower(Trim(bare)))
    ensures NumberCore(f, prefixed, setCode) == NumberCore(f, bare, setCode) == NormalizeNumber(f.lower(Trim(bare)))
  {
    var prefix, number := f.lower(setCode), f.lower(Trim(bare));
    var lower := f.lower(Trim(prefixed));
    assert lower == prefix + (gap + number) && lower[|prefix|..] == gap + number;
    BlanksAreTrimmed(gap, number);
    TrimmedOnce(number);
    assert Trim(TrimStart(number)) == Trim(number);
  }

  /** And two such numbers have one core exactly when what follows the code denotes the same number, if that
      is all digits. */
  lemma CoresCompareByValue(f: Folding, setCode: string, a: string, b: string)
    requires !(f.lower(setCode) <= f.lower(Trim(a))) && !(f.lower(setCode) <= f.lower(Trim(b)))
    requires AllDigits(f.lower(Trim(a))) && AllDigits(f.lower(Trim(b)))
    requires f.lower(Trim(a)) != "" && f.lower(Trim(b)) != ""
    ensures NumberCore(f, a, setCode) == NumberCore(f, b, setCode)
       <==> Value(f.lower(Trim(a))) == Value(f.lower(Trim(b)))
  {
    NumbersNormalizeByValue(f.lower(Trim(a)), f.lower(Trim(b)));
  }

  /** Trailing descriptors make no difference to the name that is looked for. */
  lemma DescriptorsAreNotWanted(f: Folding, name: string, gap: string, descriptor: string)
    requires name != "" && Trim(name) == name && Blank(gap)
    ensures '(' !in descriptor ==> Wanted(f, name + gap + "(" + descriptor + ")") == Wanted(f, name)
    ensures '[' !in descriptor ==> Wanted(f, name + gap + "[" + descriptor + "]") == Wanted(f, name)
  {
    TrimmedEnds(name);
    BlanksAreTrimmedBehind(name, gap);
    assert TrimEnd(name) == name;
    DescriptorsAreDropped(name + gap, descriptor);
    var round, square := name + gap + "(" + descriptor + ")", name + gap + "[" + descriptor + "]";
    assert round[0] == name[0] == square[0];
    TrimOfTrimmed(round);
    TrimOfTrimmed(square);
  }

  /** So a row whose name has one finds the card the row without it finds. */
  lemma DescribedRowsFindTheSameCard(cat: Catalog, f: Folding, row: ParsedRow, setCode: Option<string>, name: string,
                                     described: string, card: Card)
    requires Wanted(f, described) == Wanted(f, name)
    ensures FindCard(cat, f, row.(name := Some(name)), setCode) == Found(card)
       <==> FindCard(cat, f, row.(name := Some(described)), setCode) == Found(card)
  {
    TheResolverNeverGuesses(cat, f, row.(name := Some(name)), setCode, card);
    TheResolverNeverGuesses(cat, f, row.(name := Some(described)), setCode, card);
  }

  // ----- The set -----

  /** The hint, or the row's set name, is the set's own in one of the ways a set can be named. */
  predicate Names(s: SetRow, hint: string, name: Option<string>) {
    || AsciiLower(s.code) == AsciiLower(hint)
    || (s.ptcgo.Some? && AsciiLower(s.ptcgo.value) == AsciiLower(hint))
    || (name.Some? && AsciiLower(s.name) == AsciiLower(name.value))
    || AsciiLower(s.name) == AsciiLower(hint)
  }

  predicate Aliased(cat: Catalog, text: string, code: string) {
    AsciiLower(text) in cat.aliases && cat.aliases[AsciiLower(text)] == code
  }

  lemma SetWhereFits(cat: Catalog, p: SetRow -> bool)
    ensures SetWhere(cat, p).Some? ==> exists s :: s in cat.sets && p(s) && s.code == SetWhere(cat, p).value
  {
    FirstMeaning(p, cat.sets);
    if SetWhere(cat, p).Some? {
      var i :| IsFirst(p, cat.sets, i);
      assert cat.sets[i] in cat.sets;
    }
  }

  /** A hint resolves to the code of a set that it names, or, if it names none, to what an alias says. */
  lemma ResolvedSetsAreNamed(cat: Catalog, hint: string, name: Option<string>, code: string)
    requires ResolveSet(cat, hint, name) == Some(code)
    ensures (exists s :: s in cat.sets && s.code == code && Names(s, hint, name))
         || ((forall s | s in cat.sets :: !Names(s, hint, name))
             && (Aliased(cat, hint, code) || (name.Some? && Aliased(cat, name.value, code))))
  {
    SetWhereFits(cat, HasCode(hint));
    SetWhereFits(cat, HasPtcgo(hint));
    SetWhereFits(cat, HasName(hint));
    FirstMeaning(HasCode(hint), cat.sets);
    FirstMeaning(HasPtcgo(hint), cat.sets);
    FirstMeaning(HasName(hint), cat.sets);
    if name.Some? {
      SetWhereFits(cat, HasName(name.value));
      FirstMeaning(HasName(name.value), cat.sets);
    }
  }

  // ----- The card and the printing -----

  /** The card has the row's number in the row's set, or that number but for the set's prefix and leading
      zeros, or the row's number and name somewhere. */
  predicate CardFits(f: Folding, row: ParsedRow, setCode: Option<string>, c: Card) {
    || (setCode == Some(c.setCode) && c.number == NormalizeNumber(row.number))
    || (setCode == Some(c.setCode)
        && NumberCore(f, c.number, c.setCode) == NumberCore(f, NormalizeNumber(row.number), c.setCode))
    || (c.number == NormalizeNumber(row.number)
        && row.name.Some? && f.fold(c.name) == f.fold(StripGroups(Trim(row.name.value))) != "")
  }

  lemma AnywhereTest(f: Folding, number: string, name: string, c: Card)
    ensures Anywhere(f, number, Wanted(f, name))(c)
       <==> c.number == number && f.fold(c.name) == f.fold(StripGroups(Trim(name)))
  {
    assert Named(f, Wanted(f, name))(c) <==> f.fold(c.name) == Wanted(f, name);
  }

  lemma FoundCardsFit(cat: Catalog, f: Folding, row: ParsedRow, setCode: Option<string>, c: Card)
    requires FindCard(cat, f, row, setCode) == Found(c)
    ensures c in cat.cards && CardFits(f, row, setCode, c)
  {
    TheResolverNeverGuesses(cat, f, row, setCode, c);
    if row.name.Some? {
      AnywhereTest(f, NormalizeNumber(row.number), row.name.value, c);
    }
  }

  /** A matched row names a live printing, of its own variant, of a card that fits it, and carries everything
      else the file said of it. */
  lemma MatchedRowsFit(cat: Catalog, f: Folding, row: ParsedRow, r: ResolvedRow)
    requires ResolveRow(cat, f, row) == Ok(r)
    ensures exists c, p ::
              && c in cat.cards && CardFits(f, row, ResolveSet(cat, row.setHint, row.setName), c)
              && p in cat.printings && p.card == c.id && p.variant == row.variant && !p.deprecated
              && r.printing == p.id && r.cardName == c.name && r.setCode == c.setCode
    ensures r.number == NormalizeNumber(row.number) && r.variant == row.variant && r.condition == row.condition
    ensures r.language == row.language && r.purchasePrice == row.purchasePrice && r.acquiredAt == row.acquiredAt
    ensures r.tags == row.tags && r.sourceLine == row.sourceLine % 0x1_0000_0000 && r.alreadyOwned == 0
  {
    var setCode := ResolveSet(cat, row.setHint, row.setName);
    var c := FindCard(cat, f, row, setCode).card;
    FoundCardsFit(cat, f, row, setCode, c);
    FirstMeaning(PrintingFor(c, row.variant), cat.printings);
    var i :| IsFirst(PrintingFor(c, row.variant), cat.printings, i);
    assert cat.printings[i] in cat.printings;
  }

  /** A row whose hint is a set's code, with one card of that set on its number and one live printing of its
      variant, is matched to that. */
  lemma PlainRowsAreMatched(cat: Catalog, f: Folding, row: ParsedRow, s: SetRow, c: Card, p: Printing)
    requires s in cat.sets && AsciiLower(s.code) == AsciiLower(row.setHint)
    requires forall t | t in cat.sets && AsciiLower(t.code) == AsciiLower(row.setHint) :: t.code == s.code
    requires c in cat.cards && c.setCode == s.code && c.number == NormalizeNumber(row.number)
    requires forall d | d in cat.cards && d.setCode == s.code && d.number == NormalizeNumber(row.number) :: d == c
    requires p in cat.printings && p.card == c.id && p.variant == row.variant && !p.deprecated
    requires forall q | q in cat.printings && q.card == c.id && q.variant == row.variant && !q.deprecated :: q == p
    ensures ResolveRow(cat, f, row).Ok?
    ensures var r := ResolveRow(cat, f, row).value;
            r.printing == p.id && r.cardName == c.name && r.setCode == s.code
  {
    OnlyCandidateIsFirst(HasCode(row.setHint), cat.sets, s, s.code);
    FirstIsTheOne(Exact(s.code, NormalizeNumber(row.number)), cat.cards, c);
    FirstIsTheOne(PrintingFor(c, row.variant), cat.printings, p);
    LookupsAddUp(cat, f, row, s.code, c, p);
  }

  lemma FirstIsTheOne<T(!new)>(test: T -> bool, table: seq<T>, x: T)
    requires x in table && test(x) && forall y | y in table && test(y) :: y == x
    ensures FirstWhere(test, table) == Some(x)
  {
    FirstMeaning(test, table);
    var k :| 0 <= k < |table| && table[k] == x;
    var i :| IsFirst(test, table, i);
    assert table[i] in table;
  }

  lemma OnlyCandidateIsFirst(test: SetRow -> bool, table: seq<SetRow>, x: SetRow, code: string)
    requires x in table && test(x) && forall y | y in table && test(y) :: y.code == code
    ensures FirstWhere(test, table).Some? && FirstWhere(test, table).value.code == code
  {
    FirstMeaning(test, table);
    var k :| 0 <= k < |table| && table[k] == x;
    var i :| IsFirst(test, table, i);
    assert table[i] in table;
  }

  // ----- Why a row is refused -----

  function InSet(setCode: string, number: string): Card -> bool {
    (c: Card) => c.setCode == setCode && c.number == number
  }

  function CoreInSet(f: Folding, setCode: string, number: string): Card -> bool {
    (c: Card) => c.setCode == setCode && NumberCore(f, c.number, setCode) == NumberCore(f, number, setCode)
  }

  function NamedAnywhere(f: Folding, number: string, name: string): Card -> bool {
    (c: Card) => c.number == number && f.fold(c.name) == f.fold(StripGroups(Trim(name)))
  }

  predicate SameTexts(texts: seq<string>, cards: seq<Card>, text: Card -> string) {
    |texts| == |cards| && forall i | 0 <= i < |cards| :: texts[i] == text(cards[i])
  }

  function NameOf(): Card -> string {
    (c: Card) => c.name
  }

  function SetOf(): Card -> string {
    (c: Card) => c.setCode
  }

  /** What each refusal of a card says. */
  predicate ReasonHolds(cat: Catalog, f: Folding, row: ParsedRow, setCode: Option<string>, reason: Reason) {
    var number := NormalizeNumber(row.number);
    match reason
    case AmbiguousInSet(code, n, names) =>
      && setCode == Some(code) && n == number
      && Filter(InSet(code, number), cat.cards) == []
      && |Filter(CoreInSet(f, code, number), cat.cards)| >= 2
      && SameTexts(names, Filter(CoreInSet(f, code, number), cat.cards), NameOf())
    case AmbiguousAnywhere(want, n, codes) =>
      && row.name == Some(want) && n == number
      && |Filter(NamedAnywhere(f, number, want), cat.cards)| >= 2
      && SameTexts(codes, Filter(NamedAnywhere(f, number, want), cat.cards), SetOf())
    case NotInSet(code, n) =>
      && setCode == Some(code) && n == number && row.name.None?
      && Filter(CoreInSet(f, code, number), cat.cards) == []
    case NotInSetNorAnywhere(code, n, want) =>
      && setCode == Some(code) && n == number && row.name == Some(want)
      && Filter(CoreInSet(f, code, number), cat.cards) == []
      && (f.fold(StripGroups(Trim(want))) == "" || Filter(NamedAnywhere(f, number, want), cat.cards) == [])
    case NotAnywhere(want, n, hint) =>
      && setCode.None? && n == number && row.name == Some(want) && hint == row.setHint
      && (f.fold(StripGroups(Trim(want))) == "" || Filter(NamedAnywhere(f, number, want), cat.cards) == [])
    case UnknownSet(hint) => setCode.None? && row.name.None? && hint == row.setHint
    case NoSuchVariant(_, _) => false
  }

  lemma {:induction false} SameFilter(p: Card -> bool, q: Card -> bool, s: seq<Card>)
    requires forall c: Card :: p(c) == q(c)
    ensures Filter(p, s) == Filter(q, s)
  {
    if s != [] {
      SameFilter(p, q, s[1..]);
    }
  }

  lemma {:induction false} NoHits(p: Card -> bool, s: seq<Card>)
    ensures FirstWhere(p, s).None? ==> Filter(p, s) == []
  {
    if s != [] {
      NoHits(p, s[1..]);
    }
  }

  lemma SameHits(f: Folding, number: string, name: string, cards: seq<Card>)
    ensures Filter(Anywhere(f, number, Wanted(f, name)), cards) == Filter(NamedAnywhere(f, number, name), cards)
  {
    var p, q := Anywhere(f, number, Wanted(f, name)), NamedAnywhere(f, number, name);
    forall c: Card ensures p(c) == q(c) {
      AnywhereTest(f, number, name, c);
    }
    SameFilter(p, q, cards);
  }

  /** What the search over the whole catalog comes to. */
  lemma FallbackMeaning(cat: Catalog, f: Folding, name: string, number: string)
    ensures var m, hits := GlobalFallback(cat, f, name, number), Filter(NamedAnywhere(f, number, name), cat.cards);
            && (m.Ambiguous? ==> m.candidates == hits && |hits| >= 2)
            && (m.NoMatch? ==> f.fold(StripGroups(Trim(name))) == "" || hits == [])
  {
    SameHits(f, number, name, cat.cards);
  }

  lemma AnywhereRefuses(cat: Catalog, f: Folding, row: ParsedRow, setCode: Option<string>, reason: Reason)
    requires FindAnywhere(cat, f, row, setCode) == Refused(reason)
    requires setCode.Some? ==> Filter(CoreInSet(f, setCode.value, NormalizeNumber(row.number)), cat.cards) == []
    ensures ReasonHolds(cat, f, row, setCode, reason)
  {
    var number := NormalizeNumber(row.number);
    if row.name.Some? {
      FallbackMeaning(cat, f, row.name.value, number);
    }
  }

  /** A refused row is told the truth: the set or name that was looked for, and the candidates there were. */
  lemma RefusalsAreTrue(cat: Catalog, f: Folding, row: ParsedRow, setCode: Option<string>, reason: Reason)
    requires FindCard(cat, f, row, setCode) == Refused(reason)
    ensures ReasonHolds(cat, f, row, setCode, reason)
  {
    var number := NormalizeNumber(row.number);
    if setCode.Some? {
      var code := setCode.value;
      SameFilter(SharesCore(f, code, number), CoreInSet(f, code, number), cat.cards);
      NoHits(InSet(code, number), cat.cards);
      SamePredicateSameFirst(Exact(code, number), InSet(code, number), cat.cards);
      if SetScopedMatch(cat, f, code, number, row.name).NoMatch? {
        AnywhereRefuses(cat, f, row, setCode, reason);
      }
    } else {
      AnywhereRefuses(cat, f, row, setCode, reason);
    }
  }

  /** And a row whose card was found is refused only when the card has no live printing of its variant. */
  lemma RefusedRows(cat: Catalog, f: Folding, row: ParsedRow, u: UnmatchedRow)
    requires ResolveRow(cat, f, row) == Err(u)
    ensures var setCode := ResolveSet(cat, row.setHint, row.setName);
            || ReasonHolds(cat, f, row, setCode, u.reason)
            || exists c ::
                 && c in cat.cards && CardFits(f, row, setCode, c) && u.reason == NoSuchVariant(row.variant, c.name)
                 && forall p | p in cat.printings && p.card == c.id && p.variant == row.variant :: p.deprecated
    ensures u.setHint == row.setHint && u.number == row.number && u.variant == row.variant
    ensures u.sourceLine == row.sourceLine % 0x1_0000_0000
  {
    var setCode := ResolveSet(cat, row.setHint, row.setName);
    match FindCard(cat, f, row, setCode)
    case Refused(reason) => RefusalsAreTrue(cat, f, row, setCode, reason);
    case Found(c) =>
      FoundCardsFit(cat, f, row, setCode, c);
      FirstMeaning(PrintingFor(c, row.variant), cat.printings);
      forall p | p in cat.printings && p.card == c.id && p.variant == row.variant ensures p.deprecated {
        var i :| 0 <= i < |cat.printings| && cat.printings[i] == p;
        assert !PrintingFor(c, row.variant)(cat.printings[i]);
      }
  }
}
