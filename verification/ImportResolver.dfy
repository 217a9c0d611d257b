/** Resolving the rows of an import file against the catalog, which is read-only here. */
module ImportResolver {
  import opened Wrappers
  import opened Text
  import opened CardText
  import opened StableSort
  import opened Queries

  datatype SetRow = SetRow(code: string, ptcgo: Option<string>, name: string)
  datatype Card = Card(id: string, setCode: string, number: string, name: string)
  datatype Printing = Printing(id: string, card: string, variant: string, language: string, deprecated: bool)

  /** Tables in the order a query walks them. Aliases are keyed by their case-folded label. */
  datatype Catalog = Catalog(sets: seq<SetRow>, aliases: map<string, string>, cards: seq<Card>,
                             printings: seq<Printing>)

  datatype ParsedRow = ParsedRow(sourceLine: nat, setHint: string, setName: Option<string>, name: Option<string>,
                                 number: string, variant: string, condition: string, language: string,
                                 purchasePrice: Option<int>, acquiredAt: Option<string>, tags: seq<string>)

  datatype ResolvedRow = ResolvedRow(sourceLine: nat, printing: string, cardName: string, setCode: string,
                                     number: string, variant: string, condition: string, language: string,
                                     purchasePrice: Option<int>, acquiredAt: Option<string>, tags: seq<string>,
                                     alreadyOwned: nat)

  /** Why a row was not matched; the importer renders these as sentences. */
  datatype Reason =
    | AmbiguousInSet(setCode: string, number: string, names: seq<string>)
    | AmbiguousAnywhere(want: string, number: string, setCodes: seq<string>)
    | NotInSet(setCode: string, number: string)
    | NotInSetNorAnywhere(setCode: string, number: string, want: string)
    | NotAnywhere(want: string, number: string, hint: string)
    | UnknownSet(hint: string)
    | NoSuchVariant(variant: string, cardName: string)

  datatype UnmatchedRow = UnmatchedRow(sourceLine: nat, setHint: string, number: string, variant: string,
                                       reason: Reason)

  datatype Report = Report(matched: seq<ResolvedRow>, unmatched: seq<UnmatchedRow>)

  /** `as u32`. */
  function U32(n: nat): nat {
    n % 0x1_0000_0000
  }

  // ----- The set -----

  predicate SameNoCase(a: string, b: string) {
    AsciiLower(a) == AsciiLower(b)
  }

  function SetWhere(cat: Catalog, p: SetRow -> bool): Option<string> {
    match FirstWhere(p, cat.sets)
    case None => None
    case Some(s) => Some(s.code)
  }

  function AliasOf(cat: Catalog, text: string): Option<string> {
    var key := AsciiLower(text);
    if key in cat.aliases then Some(cat.aliases[key]) else None
  }

  function HasCode(hint: string): SetRow -> bool {
    (s: SetRow) => SameNoCase(s.code, hint)
  }

  function HasPtcgo(hint: string): SetRow -> bool {
    (s: SetRow) => s.ptcgo.Some? && SameNoCase(s.ptcgo.value, hint)
  }

  function HasName(name: string): SetRow -> bool {
    (s: SetRow) => SameNoCase(s.name, name)
  }

  function Try<T>(name: Option<string>, f: string -> Option<T>): Option<T> {
    if name.Some? then f(name.value) else None
  }

  /** Six lookups, the first that answers wins. */
  function ResolveSet(cat: Catalog, hint: string, name: Option<string>): Option<string> {
    OrElse(SetWhere(cat, HasCode(hint)),
    OrElse(SetWhere(cat, HasPtcgo(hint)),
    OrElse(Try(name, n => SetWhere(cat, HasName(n))),
    OrElse(SetWhere(cat, HasName(hint)),
    OrElse(Try(name, n => AliasOf(cat, n)),
           AliasOf(cat, hint))))))
  }

  // ----- The card -----

  datatype CardMatch = One(card: Card) | Ambiguous(candidates: seq<Card>) | NoMatch

  function Exact(setCode: string, number: string): Card -> bool {
    (c: Card) => c.setCode == setCode && c.number == number
  }

  /** Cards of a set whose number has the same core as the row's. */
  function SharesCore(f: Folding, setCode: string, number: string): Card -> bool {
    (c: Card) => c.setCode == setCode && NumberCore(f, c.number, setCode) == NumberCore(f, number, setCode)
  }

  function Named(f: Folding, folded: string): Card -> bool {
    (c: Card) => f.fold(c.name) == folded
  }

  function CoreAndName(f: Folding, setCode: string, number: string, folded: string): Card -> bool {
    (c: Card) => SharesCore(f, setCode, number)(c) && Named(f, folded)(c)
  }

  function Anywhere(f: Folding, number: string, folded: string): Card -> bool {
    (c: Card) => c.number == number && Named(f, folded)(c)
  }

  function Wanted(f: Folding, name: string): string {
    f.fold(StripGroups(Trim(name)))
  }

  function SetScopedMatch(cat: Catalog, f: Folding, setCode: string, number: string, name: Option<string>)
    : CardMatch
  {
    var hits := Filter(SharesCore(f, setCode, number), cat.cards);
    if hits == [] then NoMatch
    else if |hits| == 1 then One(hits[0])
    else
      var named := if name.Some? then Filter(Named(f, Wanted(f, name.value)), hits) else [];
      if |named| == 1 then One(named[0]) else Ambiguous(hits)
  }

  function GlobalFallback(cat: Catalog, f: Folding, name: string, number: string): CardMatch {
    var folded := Wanted(f, name);
    if folded == "" then NoMatch
    else
      var hits := Filter(Anywhere(f, number, folded), cat.cards);
      if hits == [] then NoMatch else if |hits| == 1 then One(hits[0]) else Ambiguous(hits)
  }

  datatype Finding = Found(card: Card) | Refused(reason: Reason)

  function Names(cards: seq<Card>): seq<string> {
    seq(|cards|, i requires 0 <= i < |cards| => cards[i].name)
  }

  function SetCodes(cards: seq<Card>): seq<string> {
    seq(|cards|, i requires 0 <= i < |cards| => cards[i].setCode)
  }

  function FindAnywhere(cat: Catalog, f: Folding, row: ParsedRow, setCode: Option<string>): Finding {
    var number := NormalizeNumber(row.number);
    match row.name
    case None => Refused(if setCode.Some? then NotInSet(setCode.value, number) else UnknownSet(row.setHint))
    case Some(want) =>
      match GlobalFallback(cat, f, want, number)
      case One(card) => Found(card)
      case Ambiguous(cards) => Refused(AmbiguousAnywhere(want, number, SetCodes(cards)))
      case NoMatch =>
        Refused(if setCode.Some? then NotInSetNorAnywhere(setCode.value, number, want)
                else NotAnywhere(want, number, row.setHint))
  }

  /** Exact number, then number core within the set, then name and number anywhere. */
  function FindCard(cat: Catalog, f: Folding, row: ParsedRow, setCode: Option<string>): Finding {
    var number := NormalizeNumber(row.number);
    if setCode.None? then FindAnywhere(cat, f, row, setCode)
    else
      match FirstWhere(Exact(setCode.value, number), cat.cards)
      case Some(card) => Found(card)
      case None =>
        match SetScopedMatch(cat, f, setCode.value, number, row.name)
        case One(card) => Found(card)
        case Ambiguous(cards) => Refused(AmbiguousInSet(setCode.value, number, Names(cards)))
        case NoMatch => FindAnywhere(cat, f, row, setCode)
  }

  // ----- The row -----

  function PrintingFor(card: Card, variant: string): Printing -> bool {
    (p: Printing) => p.card == card.id && p.variant == variant && !p.deprecated
  }

  function Reject(row: ParsedRow, reason: Reason): UnmatchedRow {
    UnmatchedRow(U32(row.sourceLine), row.setHint, row.number, row.variant, reason)
  }

  function Accept(row: ParsedRow, card: Card, printing: string): ResolvedRow {
    ResolvedRow(U32(row.sourceLine), printing, card.name, card.setCode, NormalizeNumber(row.number), row.variant,
                row.condition, row.language, row.purchasePrice, row.acquiredAt, row.tags, 0)
  }

  function ResolveIn(cat: Catalog, f: Folding, row: ParsedRow, setCode: Option<string>)
    : Result<ResolvedRow, UnmatchedRow>
  {
    match FindCard(cat, f, row, setCode)
    case Refused(reason) => Err(Reject(row, reason))
    case Found(card) =>
      match FirstWhere(PrintingFor(card, row.variant), cat.printings)
      case None => Err(Reject(row, NoSuchVariant(row.variant, card.name)))
      case Some(p) => Ok(Accept(row, card, p.id))
  }

  function ResolveRow(cat: Catalog, f: Folding, row: ParsedRow): Result<ResolvedRow, UnmatchedRow> {
    ResolveIn(cat, f, row, ResolveSet(cat, row.setHint, row.setName))
  }

  function Resolver(cat: Catalog, f: Folding): ParsedRow -> Result<ResolvedRow, UnmatchedRow> {
    (row: ParsedRow) => ResolveRow(cat, f, row)
  }

  function Resolved(cat: Catalog, f: Folding, rows: seq<ParsedRow>): Report {
    Report(Oks(Resolver(cat, f), rows), Errs(Resolver(cat, f), rows))
  }

  /** The importer's loop. It remembers what each (hint, name) pair resolved to, and answers as if it did
      not. */
  method Resolve(cat: Catalog, f: Folding, rows: seq<ParsedRow>) returns (report: Report)
    ensures report == Resolved(cat, f, rows)
  {
    report := Report([], []);
    var cache: map<(string, Option<string>), Option<string>> := map[];
    for i := 0 to |rows|
      invariant report == Resolved(cat, f, rows[..i])
      invariant forall key | key in cache :: cache[key] == ResolveSet(cat, key.0, key.1)
    {
      assert rows[..i + 1][..i] == rows[..i];
      var row := rows[i];
      var key := (row.setHint, row.setName);
      if key !in cache {
        cache := cache[key := ResolveSet(cat, key.0, key.1)];
      }
      var outcome := ResolveIn(cat, f, row, cache[key]);
      if outcome.Ok? {
        report := report.(matched := report.matched + [outcome.value]);
      } else {
        report := report.(unmatched := report.unmatched + [outcome.error]);
      }
    }
    assert rows[..|rows|] == rows;
  }

  // ----- Resolving is row by row -----

  /** Resolving two files one after the other gives the two reports one after the other. */
  lemma ResolveAppends(cat: Catalog, f: Folding, xs: seq<ParsedRow>, ys: seq<ParsedRow>)
    ensures var r, x, y := Resolved(cat, f, xs + ys), Resolved(cat, f, xs), Resolved(cat, f, ys);
            r.matched == x.matched + y.matched && r.unmatched == x.unmatched + y.unmatched
  {
    ResultsAppend(Resolver(cat, f), xs, ys);
  }

  predicate AnswersFor(cat: Catalog, f: Folding, rows: seq<ParsedRow>, matched: seq<ResolvedRow>) {
    |rows| == |matched| && forall i | 0 <= i < |rows| :: ResolveRow(cat, f, rows[i]) == Ok(matched[i])
  }

  predicate RefusalsFor(cat: Catalog, f: Folding, rows: seq<ParsedRow>, unmatched: seq<UnmatchedRow>) {
    |rows| == |unmatched| && forall i | 0 <= i < |rows| :: ResolveRow(cat, f, rows[i]) == Err(unmatched[i])
  }

  function Matching(cat: Catalog, f: Folding, rows: seq<ParsedRow>): seq<ParsedRow> {
    Filter(IsOk(Resolver(cat, f)), rows)
  }

  function Failing(cat: Catalog, f: Folding, rows: seq<ParsedRow>): seq<ParsedRow> {
    Filter(IsErr(Resolver(cat, f)), rows)
  }

  /** Every row lands in exactly one list, in file order: the matched list answers the rows that resolve
      one by one, the unmatched list those that do not, and no row is lost. */
  lemma EveryRowIsInOneList(cat: Catalog, f: Folding, rows: seq<ParsedRow>)
    ensures AnswersFor(cat, f, Matching(cat, f, rows), Resolved(cat, f, rows).matched)
    ensures RefusalsFor(cat, f, Failing(cat, f, rows), Resolved(cat, f, rows).unmatched)
    ensures multiset(Matching(cat, f, rows)) + multiset(Failing(cat, f, rows)) == multiset(rows)
    ensures |Resolved(cat, f, rows).matched| + |Resolved(cat, f, rows).unmatched| == |rows|
  {
    var r := Resolver(cat, f);
    OksAnswer(r, rows);
    ErrsAnswer(r, rows);
    FilterPartitions(IsOk(r), IsErr(r), rows);
    var good, bad := Matching(cat, f, rows), Failing(cat, f, rows);
    assert |multiset(good) + multiset(bad)| == |good| + |bad| && |multiset(rows)| == |rows|;
  }

  // ----- The resolver never guesses -----

  /** A row's card is found by its exact number; or, that failing, it is the only card of the set with the
      number's core, or the only one of those with the row's name; or, no card of the set sharing the core
      (or the set being unknown), it is the only card in the catalog with the row's number and name. */
  predicate Justified(cat: Catalog, f: Folding, row: ParsedRow, setCode: Option<string>, card: Card) {
    var number := NormalizeNumber(row.number);
    || (setCode.Some? && FirstRow(Exact(setCode.value, number), cat.cards, card))
    || (setCode.Some? && NoneOf(Exact(setCode.value, number), cat.cards)
        && OnlyInSet(cat, f, setCode.value, number, row.name, card))
    || ((setCode.Some? ==> NoneOf(SharesCore(f, setCode.value, number), cat.cards))
        && OnlyInCatalog(cat, f, number, row.name, card))
  }

  predicate OnlyInSet(cat: Catalog, f: Folding, setCode: string, number: string, name: Option<string>, card: Card) {
    || OnlyRow(SharesCore(f, setCode, number), cat.cards, card)
    || (name.Some? && OnlyRow(CoreAndName(f, setCode, number, Wanted(f, name.value)), cat.cards, card))
  }

  predicate OnlyInCatalog(cat: Catalog, f: Folding, number: string, name: Option<string>, card: Card) {
    name.Some? && Wanted(f, name.value) != "" && OnlyRow(Anywhere(f, number, Wanted(f, name.value)), cat.cards, card)
  }

  lemma ScopedMeaning(cat: Catalog, f: Folding, setCode: string, number: string, name: Option<string>, card: Card)
    ensures SetScopedMatch(cat, f, setCode, number, name) == One(card)
       <==> OnlyInSet(cat, f, setCode, number, name, card)
    ensures SetScopedMatch(cat, f, setCode, number, name) == NoMatch
       <==> NoneOf(SharesCore(f, setCode, number), cat.cards)
  {
    var core := SharesCore(f, setCode, number);
    FilterMeaning(core, cat.cards);
    OnlyIff(core, cat.cards, card);
    if name.Some? {
      var both := CoreAndName(f, setCode, number, Wanted(f, name.value));
      FilterTwice(core, Named(f, Wanted(f, name.value)), both, cat.cards);
      OnlyIff(both, cat.cards, card);
      OnlyOneNarrows(core, Named(f, Wanted(f, name.value)), cat.cards);
    }
  }

  /** Narrowing a single hit leaves that hit or none. */
  lemma OnlyOneNarrows(p: Card -> bool, q: Card -> bool, s: seq<Card>)
    ensures |Filter(p, s)| == 1 && Filter(q, Filter(p, s)) != [] ==> Filter(q, Filter(p, s)) == Filter(p, s)
    ensures |Filter(q, Filter(p, s))| <= |Filter(p, s)|
  {
    var hits := Filter(p, s);
    if |hits| == 1 {
      assert hits[1..] == [];
      assert hits == [hits[0]];
    }
  }

  lemma AnywhereMeaning(cat: Catalog, f: Folding, row: ParsedRow, setCode: Option<string>, card: Card)
    ensures FindAnywhere(cat, f, row, setCode) == Found(card)
       <==> OnlyInCatalog(cat, f, NormalizeNumber(row.number), row.name, card)
  {
    if row.name.Some? {
      OnlyIff(Anywhere(f, NormalizeNumber(row.number), Wanted(f, row.name.value)), cat.cards, card);
    }
  }

  /** A card with the exact number shares its core. */
  lemma ExactSharesCore(cat: Catalog, f: Folding, setCode: string, number: string)
    requires NoneOf(SharesCore(f, setCode, number), cat.cards)
    ensures NoneOf(Exact(setCode, number), cat.cards)
  {
    forall j | 0 <= j < |cat.cards| ensures !Exact(setCode, number)(cat.cards[j]) {
      assert !SharesCore(f, setCode, number)(cat.cards[j]);
    }
  }

  /** The resolver settles on a card exactly when that is justified; every other row, and so every row
      with several candidates past the exact lookup, is left unmatched. */
  lemma TheResolverNeverGuesses(cat: Catalog, f: Folding, row: ParsedRow, setCode: Option<string>, card: Card)
    ensures FindCard(cat, f, row, setCode) == Found(card) <==> Justified(cat, f, row, setCode, card)
  {
    AnywhereMeaning(cat, f, row, setCode, card);
    if setCode.Some? {
      var number := NormalizeNumber(row.number);
      FirstMeaning(Exact(setCode.value, number), cat.cards);
      FirstIff(Exact(setCode.value, number), cat.cards, card);
      ScopedMeaning(cat, f, setCode.value, number, row.name, card);
      if NoneOf(SharesCore(f, setCode.value, number), cat.cards) {
        ExactSharesCore(cat, f, setCode.value, number);
      }
    }
  }

  // ----- Except where two cards of a set share a number -----

  /** The exact lookup takes the first card the query walks to, whatever the row calls its card. Its
      answer survives every order of the table exactly when no other card of the set has that number. */
  lemma ExactLookupFollowsTableOrder(cat: Catalog, f: Folding, row: ParsedRow, setCode: string, card: Card)
    requires FirstRow(Exact(setCode, NormalizeNumber(row.number)), cat.cards, card)
    ensures (forall cards, name | multiset(cards) == multiset(cat.cards) ::
               FindCard(cat.(cards := cards), f, row.(name := name), Some(setCode)) == Found(card))
       <==> forall c | c in cat.cards && Exact(setCode, NormalizeNumber(row.number))(c) :: c == card
  {
    var exact := Exact(setCode, NormalizeNumber(row.number));
    if forall c | c in cat.cards && exact(c) :: c == card {
      forall cards, name | multiset(cards) == multiset(cat.cards)
        ensures FindCard(cat.(cards := cards), f, row.(name := name), Some(setCode)) == Found(card)
      {
        OnlyExactCardIsFirst(exact, cat.cards, cards, card);
      }
    } else {
      var c :| c in cat.cards && exact(c) && c != card;
      var cards := BringToFront(cat.cards, c);
      assert FindCard(cat.(cards := cards), f, row.(name := row.name), Some(setCode)) == Found(c);
    }
  }

  lemma OnlyExactCardIsFirst(exact: Card -> bool, table: seq<Card>, cards: seq<Card>, card: Card)
    requires FirstRow(exact, table, card) && multiset(cards) == multiset(table)
    requires forall c | c in table && exact(c) :: c == card
    ensures FirstWhere(exact, cards) == Some(card)
  {
    assert card in multiset(cards);
    FirstMeaning(exact, cards);
    var i :| 0 <= i < |cards| && cards[i] == card;
    var j :| IsFirst(exact, cards, j);
    assert cards[j] in multiset(table);
  }

  /** What the three lookups give is what the row is matched to. */
  lemma LookupsAddUp(cat: Catalog, f: Folding, row: ParsedRow, setCode: string, card: Card, p: Printing)
    requires ResolveSet(cat, row.setHint, row.setName) == Some(setCode)
    requires FirstWhere(Exact(setCode, NormalizeNumber(row.number)), cat.cards) == Some(card)
    requires FirstWhere(PrintingFor(card, row.variant), cat.printings) == Some(p)
    ensures ResolveRow(cat, f, row) == Ok(Accept(row, card, p.id))
  {
  }

  /** A card printed under its set, and a live printing of it. */
  predicate Carries(row: ParsedRow, card: Card, setCode: string, p: Printing) {
    Exact(setCode, NormalizeNumber(row.number))(card) && PrintingFor(card, row.variant)(p)
  }

  lemma HintIsTheCode(cat: Catalog, s: SetRow, row: ParsedRow)
    requires cat.sets == [s] && HasCode(row.setHint)(s)
    ensures ResolveSet(cat, row.setHint, row.setName) == Some(s.code)
  {
  }

  /** When several artworks of a set carry one number, a row that names the second is matched to whichever
      the table has first. */
  lemma SharedNumbersAreGuessed(f: Folding, s: SetRow, first: Card, second: Card, p: Printing, q: Printing,
                                row: ParsedRow)
    requires HasCode(row.setHint)(s) && first.id != second.id && p.id != q.id && row.name == Some(second.name)
    requires Carries(row, first, s.code, p) && Carries(row, second, s.code, q)
    ensures ResolveRow(Catalog([s], map[], [first, second], [p, q]), f, row) == Ok(Accept(row, first, p.id))
    ensures ResolveRow(Catalog([s], map[], [second, first], [p, q]), f, row) == Ok(Accept(row, second, q.id))
    ensures Accept(row, first, p.id) != Accept(row, second, q.id)
  {
    var cat, other := Catalog([s], map[], [first, second], [p, q]), Catalog([s], map[], [second, first], [p, q]);
    HintIsTheCode(cat, s, row);
    HintIsTheCode(other, s, row);
    FirstOfTwo(PrintingFor(first, row.variant), p, q);
    FirstOfTwo(PrintingFor(second, row.variant), p, q);
    LookupsAddUp(cat, f, row, s.code, first, p);
    LookupsAddUp(other, f, row, s.code, second, q);
  }

  // ----- What resolving a set promises -----

  predicate AliasesAreLive(cat: Catalog) {
    forall a | a in cat.aliases :: exists i | 0 <= i < |cat.sets| :: cat.sets[i].code == cat.aliases[a]
  }

  predicate IsSet(cat: Catalog, code: string) {
    exists i | 0 <= i < |cat.sets| :: cat.sets[i].code == code
  }

  lemma SetWhereIsASet(cat: Catalog, p: SetRow -> bool)
    ensures SetWhere(cat, p).Some? ==> IsSet(cat, SetWhere(cat, p).value)
  {
    FirstMeaning(p, cat.sets);
    if SetWhere(cat, p).Some? {
      var i :| IsFirst(p, cat.sets, i);
      assert cat.sets[i].code == SetWhere(cat, p).value;
    }
  }

  /** A resolved hint is the code of a set the catalog has. */
  lemma ResolvedSetsExist(cat: Catalog, hint: string, name: Option<string>)
    requires AliasesAreLive(cat)
    ensures ResolveSet(cat, hint, name).Some? ==> IsSet(cat, ResolveSet(cat, hint, name).value)
  {
    SetWhereIsASet(cat, HasCode(hint));
    SetWhereIsASet(cat, HasPtcgo(hint));
    SetWhereIsASet(cat, HasName(hint));
    if name.Some? {
      SetWhereIsASet(cat, HasName(name.value));
    }
  }

  predicate NoCode(cat: Catalog, hint: string) {
    NoneOf(HasCode(hint), cat.sets) && NoneOf(HasPtcgo(hint), cat.sets)
  }

  predicate NoName(cat: Catalog, name: Option<string>) {
    name.Some? ==> NoneOf(HasName(name.value), cat.sets)
  }

  /** A set code beats a ptcgo code, a ptcgo code a set name, the row's own set name the hint read as one,
      and any of them an alias, which is asked only when no set answers. */
  lemma SetLookupsInOrder(cat: Catalog, hint: string, name: Option<string>, i: int)
    ensures IsFirst(HasCode(hint), cat.sets, i) ==> ResolveSet(cat, hint, name) == Some(cat.sets[i].code)
    ensures NoneOf(HasCode(hint), cat.sets) && IsFirst(HasPtcgo(hint), cat.sets, i) ==>
              ResolveSet(cat, hint, name) == Some(cat.sets[i].code)
    ensures NoCode(cat, hint) && name.Some? && IsFirst(HasName(name.value), cat.sets, i) ==>
              ResolveSet(cat, hint, name) == Some(cat.sets[i].code)
    ensures NoCode(cat, hint) && NoName(cat, name) && IsFirst(HasName(hint), cat.sets, i) ==>
              ResolveSet(cat, hint, name) == Some(cat.sets[i].code)
    ensures NoCode(cat, hint) && NoName(cat, name) && NoName(cat, Some(hint)) ==>
              ResolveSet(cat, hint, name) == OrElse(Try(name, n => AliasOf(cat, n)), AliasOf(cat, hint))
  {
    FirstMeaning(HasCode(hint), cat.sets);
    FirstMeaning(HasPtcgo(hint), cat.sets);
    FirstMeaning(HasName(hint), cat.sets);
    if name.Some? {
      FirstMeaning(HasName(name.value), cat.sets);
    }
  }

  lemma {:induction false} SamePredicateSameFirst<T(!new)>(p: T -> bool, q: T -> bool, s: seq<T>)
    requires forall x :: p(x) <==> q(x)
    ensures FirstWhere(p, s) == FirstWhere(q, s)
  {
    if s != [] {
      SamePredicateSameFirst(p, q, s[1..]);
    }
  }

  /** Letter case in the hint or the set name makes no difference. */
  lemma SetHintsIgnoreCase(cat: Catalog, h: string, h': string, n: Option<string>, n': Option<string>)
    requires SameNoCase(h, h') && n.Some? == n'.Some? && (n.Some? ==> SameNoCase(n.value, n'.value))
    ensures ResolveSet(cat, h, n) == ResolveSet(cat, h', n')
  {
    SamePredicateSameFirst(HasCode(h), HasCode(h'), cat.sets);
    SamePredicateSameFirst(HasPtcgo(h), HasPtcgo(h'), cat.sets);
    SamePredicateSameFirst(HasName(h), HasName(h'), cat.sets);
    if n.Some? {
      SamePredicateSameFirst(HasName(n.value), HasName(n'.value), cat.sets);
    }
  }

  /** A matched row names a live printing, of its variant, of the card that was found. */
  lemma MatchedRowsNamePrintings(cat: Catalog, f: Folding, row: ParsedRow)
    requires ResolveRow(cat, f, row).Ok?
    ensures var r, found := ResolveRow(cat, f, row).value,
                            FindCard(cat, f, row, ResolveSet(cat, row.setHint, row.setName));
            && found.Found?
            && r.cardName == found.card.name && r.setCode == found.card.setCode
            && exists i | 0 <= i < |cat.printings| ::
                 cat.printings[i].id == r.printing && PrintingFor(found.card, row.variant)(cat.printings[i])
  {
    var setCode := ResolveSet(cat, row.setHint, row.setName);
    var card := FindCard(cat, f, row, setCode).card;
    FirstMeaning(PrintingFor(card, row.variant), cat.printings);
    var i :| IsFirst(PrintingFor(card, row.variant), cat.printings, i);
    assert cat.printings[i].id == ResolveRow(cat, f, row).value.printing;
  }
}
