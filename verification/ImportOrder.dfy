/** Three of the resolver's lookups take the first row a query walks to: the set by code, ptcgo code or
    name, the card by exact number, and the printing by card and variant. When its answer depends on the
    order of those tables, and when it does not. */
module ImportOrder {
  import opened Wrappers
  import opened StableSort
  import opened Queries
  import opened CardText
  import opened ImportResolver

  /** The same catalog with its tables walked in another order. */
  predicate Reordered(a: Catalog, b: Catalog) {
    && multiset(a.sets) == multiset(b.sets)
    && multiset(a.cards) == multiset(b.cards)
    && multiset(a.printings) == multiset(b.printings)
    && a.aliases == b.aliases
  }

  /** What a row is matched to, if it is matched. */
  function Answer(cat: Catalog, f: Folding, row: ParsedRow): Option<ResolvedRow> {
    match ResolveRow(cat, f, row)
    case Ok(r) => Some(r)
    case Err(_) => None
  }

  function CardOf(finding: Finding): Option<Card> {
    match finding
    case Found(card) => Some(card)
    case Refused(_) => None
  }

  // ----- The set -----

  /** The test of the first of the four set lookups that any set passes. */
  function DecidingTest(cat: Catalog, hint: string, name: Option<string>): Option<SetRow -> bool> {
    if !NoneOf(HasCode(hint), cat.sets) then Some(HasCode(hint))
    else if !NoneOf(HasPtcgo(hint), cat.sets) then Some(HasPtcgo(hint))
    else if name.Some? && !NoneOf(HasName(name.value), cat.sets) then Some(HasName(name.value))
    else if !NoneOf(HasName(hint), cat.sets) then Some(HasName(hint))
    else None
  }

  function AliasFor(cat: Catalog, hint: string, name: Option<string>): Option<string> {
    OrElse(Try(name, n => AliasOf(cat, n)), AliasOf(cat, hint))
  }

  function CodeOf(s: Option<SetRow>): Option<string> {
    if s.Some? then Some(s.value.code) else None
  }

  predicate CodeOfA(p: SetRow -> bool, sets: seq<SetRow>, code: string) {
    exists i | 0 <= i < |sets| :: p(sets[i]) && sets[i].code == code
  }

  /** What the set lookups give in some order of the sets. */
  predicate MayResolve(cat: Catalog, hint: string, name: Option<string>, code: Option<string>) {
    match DecidingTest(cat, hint, name)
    case Some(p) => code.Some? && CodeOfA(p, cat.sets, code.value)
    case None => code == AliasFor(cat, hint, name)
  }

  lemma ResolvedByTheTest(cat: Catalog, hint: string, name: Option<string>)
    ensures var test := DecidingTest(cat, hint, name);
            && (test.Some? ==> !NoneOf(test.value, cat.sets))
            && (test.Some? ==> ResolveSet(cat, hint, name) == CodeOf(FirstWhere(test.value, cat.sets)))
            && (test.None? ==> ResolveSet(cat, hint, name) == AliasFor(cat, hint, name))
  {
    FirstMeaning(HasCode(hint), cat.sets);
    FirstMeaning(HasPtcgo(hint), cat.sets);
    FirstMeaning(HasName(hint), cat.sets);
    if name.Some? {
      FirstMeaning(HasName(name.value), cat.sets);
    }
  }

  lemma ResolvesToWhatItMay(cat: Catalog, hint: string, name: Option<string>)
    ensures MayResolve(cat, hint, name, ResolveSet(cat, hint, name))
  {
    ResolvedByTheTest(cat, hint, name);
    var test := DecidingTest(cat, hint, name);
    if test.Some? {
      FirstMeaning(test.value, cat.sets);
      var i :| IsFirst(test.value, cat.sets, i);
      assert cat.sets[i].code == ResolveSet(cat, hint, name).value;
    }
  }

  lemma TestInAnyOrder(a: Catalog, b: Catalog, hint: string, name: Option<string>)
    requires Reordered(a, b)
    ensures DecidingTest(a, hint, name) == DecidingTest(b, hint, name)
  {
    SameNone(HasCode(hint), a.sets, b.sets);
    SameNone(HasPtcgo(hint), a.sets, b.sets);
    SameNone(HasName(hint), a.sets, b.sets);
    if name.Some? {
      SameNone(HasName(name.value), a.sets, b.sets);
    }
  }

  lemma SameNone<T>(p: T -> bool, a: seq<T>, b: seq<T>)
    requires multiset(a) == multiset(b)
    ensures NoneOf(p, a) <==> NoneOf(p, b)
  {
    if NoneOf(p, a) {
      NoneInAnyOrder(p, a, b);
    }
    if NoneOf(p, b) {
      NoneInAnyOrder(p, b, a);
    }
  }

  lemma CodeInAnyOrder(p: SetRow -> bool, a: seq<SetRow>, b: seq<SetRow>, code: string)
    requires multiset(a) == multiset(b) && CodeOfA(p, a, code)
    ensures CodeOfA(p, b, code)
  {
    var i :| 0 <= i < |a| && p(a[i]) && a[i].code == code;
    SameRows(a, b, a[i]);
  }

  lemma ResolveInAnyOrder(a: Catalog, b: Catalog, hint: string, name: Option<string>, code: Option<string>)
    requires Reordered(a, b) && MayResolve(a, hint, name, code)
    ensures MayResolve(b, hint, name, code)
  {
    TestInAnyOrder(a, b, hint, name);
    var test := DecidingTest(a, hint, name);
    if test.Some? {
      CodeInAnyOrder(test.value, a.sets, b.sets, code.value);
    }
  }

  /** Whatever the set lookups may give, some order of the sets makes them give it. */
  lemma EveryCodeIsGiven(cat: Catalog, hint: string, name: Option<string>, code: Option<string>)
    returns (sets: seq<SetRow>)
    requires MayResolve(cat, hint, name, code)
    ensures multiset(sets) == multiset(cat.sets) && ResolveSet(cat.(sets := sets), hint, name) == code
  {
    sets := cat.sets;
    var test := DecidingTest(cat, hint, name);
    if test.Some? {
      var i :| 0 <= i < |cat.sets| && test.value(cat.sets[i]) && cat.sets[i].code == code.value;
      sets := AnyCanBeFirst(test.value, cat.sets, Some(cat.sets[i]));
    }
    TestInAnyOrder(cat, cat.(sets := sets), hint, name);
    ResolvedByTheTest(cat.(sets := sets), hint, name);
  }

  /** The sets that pass a test have one code between them. */
  predicate OneCode(p: SetRow -> bool, sets: seq<SetRow>) {
    forall i, j | 0 <= i < |sets| && 0 <= j < |sets| && p(sets[i]) && p(sets[j]) :: sets[i].code == sets[j].code
  }

  predicate SetIsClear(cat: Catalog, hint: string, name: Option<string>) {
    var test := DecidingTest(cat, hint, name);
    test.Some? ==> OneCode(test.value, cat.sets)
  }

  lemma ClearSets(cat: Catalog, hint: string, name: Option<string>)
    ensures SetIsClear(cat, hint, name)
       <==> forall code :: MayResolve(cat, hint, name, code) ==> code == ResolveSet(cat, hint, name)
  {
    ResolvesToWhatItMay(cat, hint, name);
    var test := DecidingTest(cat, hint, name);
    if test.Some? && !OneCode(test.value, cat.sets) {
      var i, j :| 0 <= i < |cat.sets| && 0 <= j < |cat.sets| && test.value(cat.sets[i]) && test.value(cat.sets[j])
                  && cat.sets[i].code != cat.sets[j].code;
      assert MayResolve(cat, hint, name, Some(cat.sets[i].code)) && MayResolve(cat, hint, name, Some(cat.sets[j].code));
    }
  }

  /** A hint resolves alike in every order of the sets exactly when the sets that pass the deciding test
      have one code between them. */
  lemma SetLookupFollowsTableOrder(cat: Catalog, hint: string, name: Option<string>)
    ensures (forall sets | multiset(sets) == multiset(cat.sets) ::
               ResolveSet(cat.(sets := sets), hint, name) == ResolveSet(cat, hint, name))
       <==> SetIsClear(cat, hint, name)
  {
    ClearSets(cat, hint, name);
    if SetIsClear(cat, hint, name) {
      forall sets | multiset(sets) == multiset(cat.sets)
        ensures ResolveSet(cat.(sets := sets), hint, name) == ResolveSet(cat, hint, name)
      {
        var other := cat.(sets := sets);
        ResolvesToWhatItMay(other, hint, name);
        ResolveInAnyOrder(other, cat, hint, name, ResolveSet(other, hint, name));
      }
    } else {
      var code :| MayResolve(cat, hint, name, code) && code != ResolveSet(cat, hint, name);
      var sets := EveryCodeIsGiven(cat, hint, name, code);
    }
  }

  // ----- The card -----

  function ExactFor(row: ParsedRow, setCode: string): Card -> bool {
    Exact(setCode, NormalizeNumber(row.number))
  }

  /** Some card of the resolved set has the row's number. */
  predicate HitsExactly(cat: Catalog, row: ParsedRow, setCode: Option<string>) {
    setCode.Some? && !NoneOf(ExactFor(row, setCode.value), cat.cards)
  }

  /** The searches after the exact one settle on this card, or on none. */
  ghost predicate SettlesOn(cat: Catalog, f: Folding, row: ParsedRow, setCode: Option<string>, card: Option<Card>) {
    if card.Some? then Justified(cat, f, row, setCode, card.value)
    else forall c :: !Justified(cat, f, row, setCode, c)
  }

  lemma SettlesOnTheFound(cat: Catalog, f: Folding, row: ParsedRow, setCode: Option<string>, card: Option<Card>)
    ensures SettlesOn(cat, f, row, setCode, card) <==> card == CardOf(FindCard(cat, f, row, setCode))
  {
    forall c ensures FindCard(cat, f, row, setCode) == Found(c) <==> Justified(cat, f, row, setCode, c) {
      TheResolverNeverGuesses(cat, f, row, setCode, c);
    }
  }

  /** What the card lookups give in some order of the cards. */
  ghost predicate MayFind(cat: Catalog, f: Folding, row: ParsedRow, setCode: Option<string>, card: Option<Card>) {
    if HitsExactly(cat, row, setCode) then MayGive(ExactFor(row, setCode.value), cat.cards, card)
    else SettlesOn(cat, f, row, setCode, card)
  }

  lemma ExactHitIsFirst(cat: Catalog, f: Folding, row: ParsedRow, setCode: Option<string>)
    requires HitsExactly(cat, row, setCode)
    ensures CardOf(FindCard(cat, f, row, setCode)) == FirstWhere(ExactFor(row, setCode.value), cat.cards)
  {
    FirstMeaning(ExactFor(row, setCode.value), cat.cards);
  }

  lemma FindsWhatItMay(cat: Catalog, f: Folding, row: ParsedRow, setCode: Option<string>)
    ensures MayFind(cat, f, row, setCode, CardOf(FindCard(cat, f, row, setCode)))
  {
    if HitsExactly(cat, row, setCode) {
      ExactHitIsFirst(cat, f, row, setCode);
      FirstMayBeGiven(ExactFor(row, setCode.value), cat.cards);
    } else {
      SettlesOnTheFound(cat, f, row, setCode, CardOf(FindCard(cat, f, row, setCode)));
    }
  }

  lemma JustifiedInAnyOrder(a: Catalog, b: Catalog, f: Folding, row: ParsedRow, setCode: Option<string>, card: Card)
    requires Reordered(a, b) && !HitsExactly(a, row, setCode) && Justified(a, f, row, setCode, card)
    ensures Justified(b, f, row, setCode, card)
  {
    var number := NormalizeNumber(row.number);
    if setCode.Some? {
      NoneInAnyOrder(ExactFor(row, setCode.value), a.cards, b.cards);
      SameNone(SharesCore(f, setCode.value, number), a.cards, b.cards);
      OnlyInAnyOrder(SharesCore(f, setCode.value, number), a.cards, b.cards, card);
    }
    if row.name.Some? {
      var want := Wanted(f, row.name.value);
      OnlyInAnyOrder(Anywhere(f, number, want), a.cards, b.cards, card);
      if setCode.Some? {
        OnlyInAnyOrder(CoreAndName(f, setCode.value, number, want), a.cards, b.cards, card);
      }
    }
  }

  lemma MissInAnyOrder(a: Catalog, b: Catalog, f: Folding, row: ParsedRow, setCode: Option<string>)
    requires Reordered(a, b) && !HitsExactly(a, row, setCode)
    ensures !HitsExactly(b, row, setCode)
    ensures CardOf(FindCard(a, f, row, setCode)) == CardOf(FindCard(b, f, row, setCode))
  {
    if setCode.Some? {
      NoneInAnyOrder(ExactFor(row, setCode.value), a.cards, b.cards);
    }
    OneWay(a, b, f, row, setCode);
    OneWay(b, a, f, row, setCode);
  }

  lemma OneWay(a: Catalog, b: Catalog, f: Folding, row: ParsedRow, setCode: Option<string>)
    requires Reordered(a, b) && !HitsExactly(a, row, setCode)
    ensures FindCard(a, f, row, setCode).Found? ==>
              FindCard(b, f, row, setCode) == FindCard(a, f, row, setCode)
  {
    if FindCard(a, f, row, setCode).Found? {
      var card := FindCard(a, f, row, setCode).card;
      TheResolverNeverGuesses(a, f, row, setCode, card);
      JustifiedInAnyOrder(a, b, f, row, setCode, card);
      TheResolverNeverGuesses(b, f, row, setCode, card);
    }
  }

  lemma FindInAnyOrder(a: Catalog, b: Catalog, f: Folding, row: ParsedRow, setCode: Option<string>,
                       card: Option<Card>)
    requires Reordered(a, b)
    ensures MayFind(a, f, row, setCode, card) <==> MayFind(b, f, row, setCode, card)
  {
    if HitsExactly(a, row, setCode) {
      SameNone(ExactFor(row, setCode.value), a.cards, b.cards);
      GivenInAnyOrder(ExactFor(row, setCode.value), a.cards, b.cards, card);
    } else {
      MissInAnyOrder(a, b, f, row, setCode);
      SettlesOnTheFound(a, f, row, setCode, card);
      SettlesOnTheFound(b, f, row, setCode, card);
    }
  }

  lemma EveryCardIsGiven(cat: Catalog, f: Folding, row: ParsedRow, setCode: Option<string>, card: Option<Card>)
    returns (cards: seq<Card>)
    requires MayFind(cat, f, row, setCode, card)
    ensures multiset(cards) == multiset(cat.cards)
    ensures CardOf(FindCard(cat.(cards := cards), f, row, setCode)) == card
  {
    cards := cat.cards;
    if HitsExactly(cat, row, setCode) {
      cards := AnyCanBeFirst(ExactFor(row, setCode.value), cat.cards, card);
      SameNone(ExactFor(row, setCode.value), cat.cards, cards);
      ExactHitIsFirst(cat.(cards := cards), f, row, setCode);
    } else {
      SettlesOnTheFound(cat, f, row, setCode, card);
      assert cat.(cards := cards) == cat;
    }
  }

  /** The cards that pass the exact lookup are one card. */
  predicate CardIsClear(cat: Catalog, row: ParsedRow, setCode: Option<string>) {
    setCode.Some? ==>
      forall c, d | c in cat.cards && d in cat.cards && ExactFor(row, setCode.value)(c)
                    && ExactFor(row, setCode.value)(d) :: c == d
  }

  lemma ClearCards(cat: Catalog, f: Folding, row: ParsedRow, setCode: Option<string>)
    ensures CardIsClear(cat, row, setCode)
       <==> forall card :: MayFind(cat, f, row, setCode, card) ==> card == CardOf(FindCard(cat, f, row, setCode))
  {
    FindsWhatItMay(cat, f, row, setCode);
    if setCode.Some? && !CardIsClear(cat, row, setCode) {
      var exact := ExactFor(row, setCode.value);
      var c, d :| c in cat.cards && d in cat.cards && exact(c) && exact(d) && c != d;
      assert MayFind(cat, f, row, setCode, Some(c)) && MayFind(cat, f, row, setCode, Some(d));
    }
    if !HitsExactly(cat, row, setCode) {
      forall card ensures SettlesOn(cat, f, row, setCode, card) ==> card == CardOf(FindCard(cat, f, row, setCode)) {
        SettlesOnTheFound(cat, f, row, setCode, card);
      }
      if setCode.Some? {
        assert forall c | c in cat.cards :: !ExactFor(row, setCode.value)(c);
      }
    }
  }

  /** Once the set is known, the card found is the same in every order of the cards exactly when the set
      has at most one card with the row's number. */
  lemma CardLookupFollowsTableOrder(cat: Catalog, f: Folding, row: ParsedRow, setCode: Option<string>)
    ensures (forall cards | multiset(cards) == multiset(cat.cards) ::
               CardOf(FindCard(cat.(cards := cards), f, row, setCode)) == CardOf(FindCard(cat, f, row, setCode)))
       <==> CardIsClear(cat, row, setCode)
  {
    ClearCards(cat, f, row, setCode);
    if CardIsClear(cat, row, setCode) {
      forall cards | multiset(cards) == multiset(cat.cards)
        ensures CardOf(FindCard(cat.(cards := cards), f, row, setCode)) == CardOf(FindCard(cat, f, row, setCode))
      {
        var other := cat.(cards := cards);
        FindsWhatItMay(other, f, row, setCode);
        FindInAnyOrder(other, cat, f, row, setCode, CardOf(FindCard(other, f, row, setCode)));
      }
    } else {
      var card :| MayFind(cat, f, row, setCode, card) && card != CardOf(FindCard(cat, f, row, setCode));
      var cards := EveryCardIsGiven(cat, f, row, setCode, card);
    }
  }

  // ----- The printing -----

  function PrintingOf(cat: Catalog, card: Card, variant: string): Option<string> {
    match FirstWhere(PrintingFor(card, variant), cat.printings)
    case None => None
    case Some(p) => Some(p.id)
  }

  /** The live printings of a card in a variant, whatever their language, have one id. */
  predicate PrintingIsClear(cat: Catalog, card: Card, variant: string) {
    forall p, q | p in cat.printings && q in cat.printings && PrintingFor(card, variant)(p)
                  && PrintingFor(card, variant)(q) :: p.id == q.id
  }

  /** The printing found is the same in every order of the printings exactly when the card has at most one
      live printing of the variant: the lookup does not look at the language. */
  lemma PrintingLookupFollowsTableOrder(cat: Catalog, card: Card, variant: string)
    ensures (forall printings | multiset(printings) == multiset(cat.printings) ::
               PrintingOf(cat.(printings := printings), card, variant) == PrintingOf(cat, card, variant))
       <==> PrintingIsClear(cat, card, variant)
  {
    var p := PrintingFor(card, variant);
    FirstMayBeGiven(p, cat.printings);
    if PrintingIsClear(cat, card, variant) {
      forall printings | multiset(printings) == multiset(cat.printings)
        ensures PrintingOf(cat.(printings := printings), card, variant) == PrintingOf(cat, card, variant)
      {
        FirstMayBeGiven(p, printings);
        GivenInAnyOrder(p, printings, cat.printings, FirstWhere(p, printings));
        assert NoneOf(p, cat.printings) <==> FirstWhere(p, cat.printings).None?;
      }
    } else {
      var x, y :| x in cat.printings && y in cat.printings && p(x) && p(y) && x.id != y.id;
      var z := if PrintingOf(cat, card, variant) == Some(x.id) then y else x;
      assert MayGive(p, cat.printings, Some(z));
      var printings := AnyCanBeFirst(p, cat.printings, Some(z));
      assert PrintingOf(cat.(printings := printings), card, variant) == Some(z.id);
    }
  }

  // ----- The row -----

  function MatchOf(row: ParsedRow, card: Option<Card>, printing: Option<Printing>): Option<ResolvedRow> {
    if card.Some? && printing.Some? then Some(Accept(row, card.value, printing.value.id)) else None
  }

  /** What a row is matched to with a given set, if the three lookups come out this way. */
  ghost predicate MayMatch(cat: Catalog, f: Folding, row: ParsedRow, setCode: Option<string>, card: Option<Card>,
                     printing: Option<Printing>)
  {
    && MayResolve(cat, row.setHint, row.setName, setCode)
    && MayFind(cat, f, row, setCode, card)
    && (if card.Some? then MayGive(PrintingFor(card.value, row.variant), cat.printings, printing) else printing.None?)
  }

  ghost predicate MayAnswer(cat: Catalog, f: Folding, row: ParsedRow, answer: Option<ResolvedRow>) {
    exists setCode, card, printing ::
      MayMatch(cat, f, row, setCode, card, printing) && MatchOf(row, card, printing) == answer
  }

  function FoundPrinting(cat: Catalog, row: ParsedRow, card: Option<Card>): Option<Printing> {
    if card.Some? then FirstWhere(PrintingFor(card.value, row.variant), cat.printings) else None
  }

  lemma AnswerIsAMatch(cat: Catalog, f: Folding, row: ParsedRow)
    ensures var card := CardOf(FindCard(cat, f, row, ResolveSet(cat, row.setHint, row.setName)));
            Answer(cat, f, row) == MatchOf(row, card, FoundPrinting(cat, row, card))
  {
  }

  lemma AnswersWhatItMay(cat: Catalog, f: Folding, row: ParsedRow)
    ensures MayAnswer(cat, f, row, Answer(cat, f, row))
  {
    var setCode := ResolveSet(cat, row.setHint, row.setName);
    var card := CardOf(FindCard(cat, f, row, setCode));
    ResolvesToWhatItMay(cat, row.setHint, row.setName);
    FindsWhatItMay(cat, f, row, setCode);
    if card.Some? {
      FirstMayBeGiven(PrintingFor(card.value, row.variant), cat.printings);
    }
    AnswerIsAMatch(cat, f, row);
    assert MayMatch(cat, f, row, setCode, card, FoundPrinting(cat, row, card));
  }

  lemma MatchInAnyOrder(a: Catalog, b: Catalog, f: Folding, row: ParsedRow, setCode: Option<string>,
                        card: Option<Card>, printing: Option<Printing>)
    requires Reordered(a, b) && MayMatch(a, f, row, setCode, card, printing)
    ensures MayMatch(b, f, row, setCode, card, printing)
  {
    ResolveInAnyOrder(a, b, row.setHint, row.setName, setCode);
    FindInAnyOrder(a, b, f, row, setCode, card);
    if card.Some? {
      GivenInAnyOrder(PrintingFor(card.value, row.variant), a.printings, b.printings, printing);
    }
  }

  lemma AnswerInAnyOrder(a: Catalog, b: Catalog, f: Folding, row: ParsedRow)
    requires Reordered(a, b)
    ensures MayAnswer(a, f, row, Answer(b, f, row))
  {
    AnswersWhatItMay(b, f, row);
    var setCode, card, printing :|
      MayMatch(b, f, row, setCode, card, printing) && MatchOf(row, card, printing) == Answer(b, f, row);
    MatchInAnyOrder(b, a, f, row, setCode, card, printing);
  }

  lemma CardsOnly(cat: Catalog, other: Catalog, f: Folding, row: ParsedRow, setCode: Option<string>)
    requires cat.cards == other.cards
    ensures FindCard(cat, f, row, setCode) == FindCard(other, f, row, setCode)
  {
  }

  lemma SetsOnly(cat: Catalog, other: Catalog, hint: string, name: Option<string>)
    requires cat.sets == other.sets && cat.aliases == other.aliases
    ensures ResolveSet(cat, hint, name) == ResolveSet(other, hint, name)
  {
    ResolvedByTheTest(cat, hint, name);
    ResolvedByTheTest(other, hint, name);
  }

  lemma EveryAnswerIsGiven(cat: Catalog, f: Folding, row: ParsedRow, answer: Option<ResolvedRow>)
    returns (other: Catalog)
    requires MayAnswer(cat, f, row, answer)
    ensures Reordered(cat, other) && Answer(other, f, row) == answer
  {
    var setCode, card, printing :|
      MayMatch(cat, f, row, setCode, card, printing) && MatchOf(row, card, printing) == answer;
    var sets := EveryCodeIsGiven(cat, row.setHint, row.setName, setCode);
    var cards := EveryCardIsGiven(cat, f, row, setCode, card);
    var printings := cat.printings;
    if card.Some? {
      printings := AnyCanBeFirst(PrintingFor(card.value, row.variant), cat.printings, printing);
    }
    other := Catalog(sets, cat.aliases, cards, printings);
    SetsOnly(cat.(sets := sets), other, row.setHint, row.setName);
    CardsOnly(cat.(cards := cards), other, f, row, setCode);
    AnswerIsAMatch(other, f, row);
  }

  /** The answers a row gets, over all orders of the three tables, are exactly those the lookups may add up
      to, each table's rows taken in turn. */
  lemma AnswersOverAllOrders(cat: Catalog, f: Folding, row: ParsedRow, answer: Option<ResolvedRow>)
    ensures MayAnswer(cat, f, row, answer)
       <==> exists other :: Reordered(cat, other) && Answer(other, f, row) == answer
  {
    if MayAnswer(cat, f, row, answer) {
      var other := EveryAnswerIsGiven(cat, f, row, answer);
    }
    if other :| Reordered(cat, other) && Answer(other, f, row) == answer {
      AnswerInAnyOrder(cat, other, f, row);
    }
  }

  /** Any two choices of a set that passes the deciding test, a card of that set with the number (or, there
      being none, the one card the other searches settle on) and a live printing of it add up to one match. */
  ghost predicate OneMatch(cat: Catalog, f: Folding, row: ParsedRow) {
    forall x, y | MayAnswer(cat, f, row, x) && MayAnswer(cat, f, row, y) :: x == y
  }

  /** So the resolver guesses at a row, its match depending on the order of the tables, exactly when two
      choices add up to different matches. */
  lemma GuessesExactlyWhenChoicesDiffer(cat: Catalog, f: Folding, row: ParsedRow)
    ensures (forall other | Reordered(cat, other) :: Answer(other, f, row) == Answer(cat, f, row))
       <==> OneMatch(cat, f, row)
  {
    AnswersWhatItMay(cat, f, row);
    if OneMatch(cat, f, row) {
      forall other | Reordered(cat, other) ensures Answer(other, f, row) == Answer(cat, f, row) {
        AnswerInAnyOrder(cat, other, f, row);
      }
    }
    if forall other | Reordered(cat, other) :: Answer(other, f, row) == Answer(cat, f, row) {
      forall x | MayAnswer(cat, f, row, x) ensures x == Answer(cat, f, row) {
        var other := EveryAnswerIsGiven(cat, f, row, x);
      }
    }
  }

  /** In particular there is no guess when the set, the card and the printing are each the only one. */
  lemma ClearRowsAreNotGuessed(cat: Catalog, f: Folding, row: ParsedRow, other: Catalog)
    requires Reordered(cat, other)
    requires SetIsClear(cat, row.setHint, row.setName)
    requires var setCode := ResolveSet(cat, row.setHint, row.setName);
             var card := CardOf(FindCard(cat, f, row, setCode));
             CardIsClear(cat, row, setCode) && (card.Some? ==> PrintingIsClear(cat, card.value, row.variant))
    ensures Answer(other, f, row) == Answer(cat, f, row)
  {
    var setCode := ResolveSet(cat, row.setHint, row.setName);
    ClearSets(cat, row.setHint, row.setName);
    ClearCards(cat, f, row, setCode);
    AnswerIsAMatch(cat, f, row);
    var found := CardOf(FindCard(cat, f, row, setCode));
    if found.Some? {
      FirstMayBeGiven(PrintingFor(found.value, row.variant), cat.printings);
    }
    forall x | MayAnswer(cat, f, row, x) ensures x == Answer(cat, f, row) {
      var code, card, printing :| MayMatch(cat, f, row, code, card, printing) && MatchOf(row, card, printing) == x;
      assert code == setCode && card == found;
    }
    GuessesExactlyWhenChoicesDiffer(cat, f, row);
  }

  // ----- One failing input for each lookup -----

  lemma FirstOfTwoSets(cat: Catalog, a: SetRow, b: SetRow, hint: string, name: Option<string>)
    requires cat.sets == [a, b] && HasPtcgo(hint)(a) && !HasCode(hint)(a) && !HasCode(hint)(b)
    ensures ResolveSet(cat, hint, name) == Some(a.code)
  {
    assert cat.sets[0] == a && cat.sets[1] == b;
    assert NoneOf(HasCode(hint), cat.sets) && IsFirst(HasPtcgo(hint), cat.sets, 0);
    SetLookupsInOrder(cat, hint, name, 0);
  }

  /** Two sets share a ptcgo code, and each has a card with the row's number. The row names the second
      set's card; which set's card it is matched to is the order of the sets. */
  lemma SharedPtcgoCodesAreGuessed(f: Folding, a: SetRow, b: SetRow, first: Card, second: Card, p: Printing,
                                   q: Printing, row: ParsedRow)
    requires a.code != b.code && HasPtcgo(row.setHint)(a) && HasPtcgo(row.setHint)(b)
    requires !HasCode(row.setHint)(a) && !HasCode(row.setHint)(b)
    requires first.id != second.id && row.name == Some(second.name)
    requires Carries(row, first, a.code, p) && Carries(row, second, b.code, q)
    ensures ResolveRow(Catalog([a, b], map[], [first, second], [p, q]), f, row) == Ok(Accept(row, first, p.id))
    ensures ResolveRow(Catalog([b, a], map[], [first, second], [p, q]), f, row) == Ok(Accept(row, second, q.id))
    ensures Accept(row, first, p.id) != Accept(row, second, q.id)
  {
    var cat, other := Catalog([a, b], map[], [first, second], [p, q]), Catalog([b, a], map[], [first, second], [p, q]);
    FirstOfTwoSets(cat, a, b, row.setHint, row.setName);
    FirstOfTwoSets(other, b, a, row.setHint, row.setName);
    FirstOfTwo(ExactFor(row, a.code), first, second);
    FirstOfTwo(ExactFor(row, b.code), first, second);
    FirstOfTwo(PrintingFor(first, row.variant), p, q);
    FirstOfTwo(PrintingFor(second, row.variant), p, q);
    LookupsAddUp(cat, f, row, a.code, first, p);
    LookupsAddUp(other, f, row, b.code, second, q);
  }

  /** A card has a live printing of the variant in two languages: whatever language the row names, it is
      matched to the printing that comes first. */
  lemma SharedVariantsAreGuessed(f: Folding, s: SetRow, card: Card, p: Printing, q: Printing, row: ParsedRow)
    requires HasCode(row.setHint)(s) && Carries(row, card, s.code, p) && Carries(row, card, s.code, q)
    requires p.id != q.id && p.language != q.language
    ensures ResolveRow(Catalog([s], map[], [card], [p, q]), f, row) == Ok(Accept(row, card, p.id))
    ensures ResolveRow(Catalog([s], map[], [card], [q, p]), f, row) == Ok(Accept(row, card, q.id))
    ensures Accept(row, card, p.id) != Accept(row, card, q.id)
  {
    var cat, other := Catalog([s], map[], [card], [p, q]), Catalog([s], map[], [card], [q, p]);
    HintIsTheCode(cat, s, row);
    HintIsTheCode(other, s, row);
    FirstOfTwo(PrintingFor(card, row.variant), p, q);
    FirstOfTwo(PrintingFor(card, row.variant), q, p);
    LookupsAddUp(cat, f, row, s.code, card, p);
    LookupsAddUp(other, f, row, s.code, card, q);
  }

  /** More than one candidate need not mean a guess: where no printing has the row's variant the row is left
      unmatched in every order, however many sets and cards it could mean. */
  lemma SharedNumbersMayBeHarmless(cat: Catalog, f: Folding, row: ParsedRow, other: Catalog)
    requires Reordered(cat, other)
    requires forall p | p in cat.printings :: p.variant != row.variant
    ensures Answer(cat, f, row) == None && Answer(other, f, row) == None
  {
    AnswersWhatItMay(cat, f, row);
    AnswerInAnyOrder(cat, other, f, row);
  }
}
