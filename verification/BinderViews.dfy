/** What a binder page shows: which cards, in which order, under which totals, said of the cards, the rows
    and the query alone. */
module BinderViews {
  import opened Wrappers
  import opened Orders
  import opened StableSort
  import opened BinderPages
  import Queries
  import Text

  // ----- The slots -----

  /** The base set always; a number past the printed total by the box that covers it. */
  predicate Boxed(q: Query, n: int, printedTotal: int) {
    || n <= printedTotal
    || (n < 1_000 && q.includeSecret)
    || (1_000 <= n < 9_000 && q.includeSubset)
    || (9_000 <= n && q.includePromos)
  }

  function InBox(q: Query, printedTotal: int): Card -> bool {
    (c: Card) => Boxed(q, c.numberSortable, printedTotal)
  }

  function TakenCards(q: Query, printedTotal: int, cards: seq<Card>): seq<Card> {
    Filter(InBox(q, printedTotal), cards)
  }

  lemma TakenAreIncluded(q: Query, printedTotal: int, cards: seq<Card>)
    ensures IncludedCards(q, cards, printedTotal) == TakenCards(q, printedTotal, cards)
  {
    forall c | c in cards ensures IsIncluded(q, printedTotal)(c) == InBox(q, printedTotal)(c) {
      assert IsIncluded(q, printedTotal)(c) == Included(q, SectionOf(c.numberSortable, printedTotal));
    }
    FilterAlike(IsIncluded(q, printedTotal), InBox(q, printedTotal), cards);
  }

  function RowsWith(card: string): ((string, Printing)) -> bool {
    (row: (string, Printing)) => row.0 == card
  }

  function Second(): ((string, Printing)) -> Printing {
    (row: (string, Printing)) => row.1
  }

  function PrintingsOf(rows: seq<(string, Printing)>, card: string): seq<Printing> {
    Queries.Mapped(Second(), Filter(RowsWith(card), rows))
  }

  /** The greatest value of an owned printing if any is owned, else the least positive market price. */
  predicate IsTilePrice(printings: seq<Printing>, price: Option<int>) {
    if exists i | 0 <= i < |printings| :: printings[i].ownedValue.Some? then
      && price.Some?
      && (exists i | 0 <= i < |printings| :: printings[i].ownedValue == price)
      && (forall i | 0 <= i < |printings| && printings[i].ownedValue.Some? :: printings[i].ownedValue.value <= price.value)
    else if exists i | 0 <= i < |printings| :: printings[i].marketPrice.Some? && printings[i].marketPrice.value > 0 then
      && price.Some? && price.value > 0
      && (exists i | 0 <= i < |printings| :: printings[i].marketPrice == price)
      && (forall i | 0 <= i < |printings| && printings[i].marketPrice.Some? && printings[i].marketPrice.value > 0 ::
            price.value <= printings[i].marketPrice.value)
    else price.None?
  }

  lemma TilePriceMeaning(printings: seq<Printing>)
    ensures IsTilePrice(printings, DisplayPrice(printings))
  {
    MaxOwnedIsGreatest(printings);
    MinMarketIsLeast(printings);
  }

  predicate ShowsCard(slot: Slot, card: Card, rows: seq<(string, Printing)>, printedTotal: int) {
    && slot.cardId == card.id && slot.number == card.number && slot.name == card.name && slot.rarity == card.rarity
    && (slot.section.Base? <==> card.numberSortable <= printedTotal)
    && (slot.section.Secret? <==> printedTotal < card.numberSortable < 1_000)
    && (slot.section.Subset? <==> printedTotal < card.numberSortable && 1_000 <= card.numberSortable < 9_000)
    && slot.printings == PrintingsOf(rows, card.id)
    && IsTilePrice(slot.printings, slot.displayPrice)
  }

  lemma {:induction false} RowsMeaning(rows: seq<(string, Printing)>, card: string)
    ensures RowsOf(rows, card) == PrintingsOf(rows, card)
  {
    if rows != [] {
      var front, last := rows[..|rows| - 1], rows[|rows| - 1];
      RowsMeaning(front, card);
      assert rows == front + [last];
      Queries.FilterSnoc(RowsWith(card), front, last);
      if last.0 == card {
        assert PrintingsOf(rows, card) == PrintingsOf(front, card) + [last.1];
      }
    }
  }

  lemma {:induction false} FilterAlike(p: Card -> bool, r: Card -> bool, s: seq<Card>)
    requires forall c | c in s :: p(c) == r(c)
    ensures Filter(p, s) == Filter(r, s)
  {
    if s != [] {
      FilterAlike(p, r, s[1..]);
    }
  }

  /** There is one slot for each card whose box is ticked, in the cards' order: that card's fields, its own
      printing rows in their order, and its price. */
  lemma SlotsShowTheCards(q: Query, cards: seq<Card>, rows: seq<(string, Printing)>, printedTotal: int)
    ensures var slots, taken := Visible(q, cards, rows, printedTotal), TakenCards(q, printedTotal, cards);
            |slots| == |taken| && forall i | 0 <= i < |taken| :: ShowsCard(slots[i], taken[i], rows, printedTotal)
  {
    var slots, taken := Visible(q, cards, rows, printedTotal), IncludedCards(q, cards, printedTotal);
    VisibleSlots(q, cards, rows, printedTotal);
    TakenAreIncluded(q, printedTotal, cards);
    forall i | 0 <= i < |taken| ensures ShowsCard(slots[i], taken[i], rows, printedTotal) {
      OneSlot(taken[i], rows, printedTotal);
    }
  }

  lemma OneSlot(card: Card, rows: seq<(string, Printing)>, printedTotal: int)
    ensures ShowsCard(SlotOf(card, RowsOf(rows, card.id), printedTotal), card, rows, printedTotal)
  {
    RowsMeaning(rows, card.id);
    TilePriceMeaning(RowsOf(rows, card.id));
  }

  // ----- Search and tabs -----

  /** The search text, trimmed, stands somewhere in the name, letter case aside. */
  ghost predicate Mentions(name: string, search: string) {
    exists before, after :: Text.AsciiLower(name) == before + Text.AsciiLower(Text.Trim(search)) + after
  }

  /** A slot is shown when its name mentions the search text and its printings are what the tab asks for. */
  lemma ShownMeaning(search: string, filter: string, s: Slot)
    ensures Shown(search, filter)(s)
       <==> && Mentions(s.name, search)
            && (filter == "have" ==> exists i | 0 <= i < |s.printings| :: s.printings[i].ownedCount > 0)
            && (filter == "need" ==> forall i | 0 <= i < |s.printings| :: s.printings[i].ownedCount == 0)
            && (filter == "dupes" ==> exists i | 0 <= i < |s.printings| :: s.printings[i].ownedCount >= 2)
  {
    FoundMeaning(search, s);
    if filter == "need" {
      assert OnTab(filter, s) == !OwnsOne(s);
    }
  }

  lemma FoundMeaning(search: string, s: Slot)
    ensures Found(search, s) <==> Mentions(s.name, search)
  {
    var text, part := Text.AsciiLower(s.name), Text.AsciiLower(Text.Trim(search));
    if part == "" {
      assert text == "" + part + text;
    }
    if Text.Contains(text, part) {
      var i :| 0 <= i <= |text| && Text.HasAt(text, part, i);
      assert text == text[..i] + part + text[i + |part|..];
    }
    if before, after :| text == before + part + after {
      assert Text.HasAt(text, part, |before|);
    }
  }

  // ----- The order -----

  function Cost(): Slot -> int {
    (s: Slot) => if s.displayPrice.Some? then s.displayPrice.value else 0
  }

  function LowerName(): Slot -> string {
    (s: Slot) => Text.AsciiLower(s.name)
  }

  function Rank(): Slot -> int {
    (s: Slot) => RarityRank(s.rarity)
  }

  function KeyIs<K(==)>(key: Slot -> K, v: K): Slot -> bool {
    (s: Slot) => key(s) == v
  }

  /** Slots with the same key stand as they stood before. */
  ghost predicate TiesStay<K(!new)>(key: Slot -> K, before: seq<Slot>, after: seq<Slot>) {
    && multiset(after) == multiset(before)
    && forall v :: Filter(KeyIs(key, v), after) == Filter(KeyIs(key, v), before)
  }

  predicate NeverFalls(key: Slot -> int, s: seq<Slot>) {
    forall i, j | 0 <= i < j < |s| :: key(s[i]) <= key(s[j])
  }

  predicate NeverRises(key: Slot -> int, s: seq<Slot>) {
    forall i, j | 0 <= i < j < |s| :: key(s[i]) >= key(s[j])
  }

  predicate FromAToZ(s: seq<Slot>) {
    forall i, j | 0 <= i < j < |s| :: !TextBefore(LowerName()(s[j]), LowerName()(s[i]))
  }

  predicate FromZToA(s: seq<Slot>) {
    forall i, j | 0 <= i < j < |s| :: !TextBefore(LowerName()(s[i]), LowerName()(s[j]))
  }

  predicate Backwards(before: seq<Slot>, after: seq<Slot>) {
    |after| == |before| && forall i | 0 <= i < |after| :: after[i] == before[|before| - 1 - i]
  }

  lemma {:induction false} FilterSlots(p: Slot -> bool, r: Slot -> bool, s: seq<Slot>)
    requires forall x | x in s :: p(x) == r(x)
    ensures Filter(p, s) == Filter(r, s)
  {
    if s != [] {
      FilterSlots(p, r, s[1..]);
    }
  }

  lemma {:induction false} FilterNone(p: Slot -> bool, s: seq<Slot>)
    requires forall x | x in s :: !p(x)
    ensures Filter(p, s) == []
  {
    if s != [] {
      FilterNone(p, s[1..]);
    }
  }

  lemma TiesByKey<K(!new)>(cmp: (Slot, Slot) -> Ordering, key: Slot -> K, before: seq<Slot>, after: seq<Slot>, v: K)
    requires forall a, b :: cmp(a, b) == Equal <==> key(a) == key(b)
    requires multiset(after) == multiset(before)
    requires forall x :: Filter(Ties(cmp, x), after) == Filter(Ties(cmp, x), before)
    ensures Filter(KeyIs(key, v), after) == Filter(KeyIs(key, v), before)
  {
    forall x ensures x in before <==> x in after {
      Queries.SameRows(before, after, x);
    }
    if x :| x in before && key(x) == v {
      FilterSlots(KeyIs(key, v), Ties(cmp, x), before);
      FilterSlots(KeyIs(key, v), Ties(cmp, x), after);
    } else {
      FilterNone(KeyIs(key, v), before);
      FilterNone(KeyIs(key, v), after);
    }
  }

  /** The slots that pass search and tab, in card order. */
  function Passing(q: Query, visible: seq<Slot>): seq<Slot> {
    Filter(Shown(q.search, q.filter), visible)
  }

  lemma SortedView<K(!new)>(q: Query, visible: seq<Slot>, cmp: (Slot, Slot) -> Ordering, key: Slot -> K)
    requires ArrangementOf(q.sort) == By(cmp)
    requires forall a, b :: cmp(a, b) == Equal <==> key(a) == key(b)
    ensures Sorted(cmp, AllPages(q, visible))
    ensures TiesStay(key, Passing(q, visible), AllPages(q, visible))
  {
    var before, after := Passing(q, visible), View(q, visible);
    AskingForEveryPage(q, visible);
    ArrangementsArePreordered(q.sort);
    FilteringCommutes(q.sort, Shown(q.search, q.filter), visible);
    assert after == SortBy(cmp, before);
    StableSortIsUnique(cmp, before, after);
    forall v ensures Filter(KeyIs(key, v), after) == Filter(KeyIs(key, v), before) {
      TiesByKey(cmp, key, before, after, v);
    }
  }

  /** All the pages of a query, one after another. */
  function AllPages(q: Query, visible: seq<Slot>): seq<Slot> {
    QueriedPages(q, visible, PageOf(q, visible).totalPages)
  }

  lemma PriceOrder(sort: string) returns (cmp: (Slot, Slot) -> Ordering)
    requires sort == "price" || sort == "price_asc"
    ensures ArrangementOf(sort) == By(cmp)
    ensures sort == "price" ==> forall a, b :: cmp(a, b) == CmpInt(Cost()(b), Cost()(a))
    ensures sort == "price_asc" ==> forall a, b :: cmp(a, b) == CmpInt(Cost()(a), Cost()(b))
  {
    cmp := ArrangementOf(sort).cmp;
  }

  lemma RarityOrder(sort: string) returns (cmp: (Slot, Slot) -> Ordering)
    requires sort == "rarity" || sort == "rarity_asc"
    ensures ArrangementOf(sort) == By(cmp)
    ensures sort == "rarity" ==> forall a, b :: cmp(a, b) == CmpInt(Rank()(b), Rank()(a))
    ensures sort == "rarity_asc" ==> forall a, b :: cmp(a, b) == CmpInt(Rank()(a), Rank()(b))
  {
    cmp := ArrangementOf(sort).cmp;
  }

  lemma NameOrder(sort: string) returns (cmp: (Slot, Slot) -> Ordering)
    requires sort == "name" || sort == "name_desc"
    ensures ArrangementOf(sort) == By(cmp)
    ensures sort == "name" ==> forall a, b :: cmp(a, b) == CmpNames(a, b)
    ensures sort == "name_desc" ==> forall a, b :: cmp(a, b) == CmpNames(b, a)
  {
    cmp := ArrangementOf(sort).cmp;
  }

  /** "price" shows the dearest first, "price_asc" the cheapest, a slot without a price as nothing; slots of
      one price stay in card order. */
  lemma SortedByPrice(q: Query, visible: seq<Slot>)
    requires q.sort == "price" || q.sort == "price_asc"
    ensures q.sort == "price" ==> NeverRises(Cost(), AllPages(q, visible))
    ensures q.sort == "price_asc" ==> NeverFalls(Cost(), AllPages(q, visible))
    ensures TiesStay(Cost(), Passing(q, visible), AllPages(q, visible))
  {
    var cmp := PriceOrder(q.sort);
    SortedView(q, visible, cmp, Cost());
  }

  /** "rarity" shows the rarest first, "rarity_asc" the commonest. */
  lemma SortedByRarity(q: Query, visible: seq<Slot>)
    requires q.sort == "rarity" || q.sort == "rarity_asc"
    ensures q.sort == "rarity" ==> NeverRises(Rank(), AllPages(q, visible))
    ensures q.sort == "rarity_asc" ==> NeverFalls(Rank(), AllPages(q, visible))
    ensures TiesStay(Rank(), Passing(q, visible), AllPages(q, visible))
  {
    var cmp := RarityOrder(q.sort);
    SortedView(q, visible, cmp, Rank());
  }

  lemma NamesCompare(a: Slot, b: Slot)
    ensures CmpNames(a, b) == Less <==> TextBefore(LowerName()(a), LowerName()(b))
    ensures CmpNames(a, b) == Equal <==> LowerName()(a) == LowerName()(b)
    ensures CmpNames(b, a) == CmpNames(a, b).Flip()
  {
    TextOrder(LowerName()(a), LowerName()(b));
    assert IsPreorder(CmpChar);
    LexEqual(CmpChar, LowerName()(a), LowerName()(b));
    LexFlip(CmpChar, LowerName()(a), LowerName()(b));
  }

  /** "name" shows the names in the order of their texts, letter case aside, "name_desc" the other way
      round. */
  lemma SortedByName(q: Query, visible: seq<Slot>)
    requires q.sort == "name" || q.sort == "name_desc"
    ensures q.sort == "name" ==> FromAToZ(AllPages(q, visible))
    ensures q.sort == "name_desc" ==> FromZToA(AllPages(q, visible))
    ensures TiesStay(LowerName(), Passing(q, visible), AllPages(q, visible))
  {
    var cmp := NameOrder(q.sort);
    forall a: Slot, b: Slot
      ensures CmpNames(a, b) == Less <==> TextBefore(LowerName()(a), LowerName()(b))
      ensures CmpNames(a, b) == Equal <==> LowerName()(a) == LowerName()(b)
      ensures CmpNames(b, a) == CmpNames(a, b).Flip()
    {
      NamesCompare(a, b);
    }
    SortedView(q, visible, cmp, LowerName());
  }

  lemma {:induction false} ReverseMeaning(s: seq<Slot>)
    ensures Backwards(s, Reverse(s))
  {
    if s != [] {
      ReverseMeaning(s[1..]);
    }
  }

  /** "number_desc" shows the passing slots from the last card to the first, and a sort the page does not know
      leaves them in card order. */
  lemma SortedByNumber(q: Query, visible: seq<Slot>)
    ensures q.sort == "number_desc" ==> Backwards(Passing(q, visible), AllPages(q, visible))
    ensures q.sort !in {"number_desc", "name", "name_desc", "price", "price_asc", "rarity", "rarity_asc"} ==>
              AllPages(q, visible) == Passing(q, visible)
  {
    AskingForEveryPage(q, visible);
    FilteringCommutes(q.sort, Shown(q.search, q.filter), visible);
    ReverseMeaning(Passing(q, visible));
  }

  // ----- Pages and totals -----

  /** A page is as long as asked for, between 1 and 60, and one past either end is answered with the page at
      that end. */
  lemma PageAnswered(q: Query, visible: seq<Slot>)
    ensures var p := PageOf(q, visible);
            && p.layout == (if q.layout < 1 then 1 else if q.layout > 60 then 60 else q.layout)
            && p.page == (if q.page < 1 then 1 else if q.page > p.totalPages then p.totalPages else q.page)
  {
  }

  /** There are as few pages as hold the view, and at least one. */
  lemma PagesNeeded(q: Query, visible: seq<Slot>)
    ensures var p, count := PageOf(q, visible), |View(q, visible)|;
            && p.totalPages >= 1 && p.totalPages * p.layout >= count
            && (p.totalPages > 1 ==> (p.totalPages - 1) * p.layout < count)
  {
    PagesThatHold(|View(q, visible)|, PageOf(q, visible).layout);
  }

  lemma PagesThatHold(count: nat, layout: int)
    requires layout >= 1
    ensures var n := TotalPages(count, layout);
            n >= 1 && n * layout >= count && (n > 1 ==> (n - 1) * layout < count)
  {
    PagesCover(count, layout);
    if count == 0 {
      assert (layout - 1) / layout == 0;
    }
  }

  /** A cut is its share of the view: whole, unless the view ends in it. */
  predicate ShareOf(slots: seq<Slot>, view: seq<Slot>, start: int, layout: int) {
    && 0 <= start && |slots| <= layout
    && (start + layout <= |view| ==> |slots| == layout)
    && (forall k | 0 <= k < |slots| :: start + k < |view| && slots[k] == view[start + k])
  }

  lemma CutMeaning(view: seq<Slot>, layout: int, page: int)
    requires layout >= 1 && page >= 1
    ensures ShareOf(Cut(view, layout, page), view, (page - 1) * layout, layout)
  {
    MulKeepsOrder(0, page - 1, layout);
  }

  lemma PageShare(q: Query, visible: seq<Slot>)
    ensures var p := PageOf(q, visible); ShareOf(p.slots, View(q, visible), (p.page - 1) * p.layout, p.layout)
  {
    var p := PageOf(q, visible);
    CutMeaning(View(q, visible), p.layout, p.page);
  }

  lemma {:induction false} CountIsTheFilter(p: Slot -> bool, slots: seq<Slot>)
    ensures CountSlots(p, slots) == |Filter(p, slots)|
  {
    if slots != [] {
      CountIsTheFilter(p, slots[1..]);
    }
  }

  function AllPrintings(slots: seq<Slot>): seq<Printing> {
    if slots == [] then [] else slots[0].printings + AllPrintings(slots[1..])
  }

  lemma {:induction false} OwnedIsTheFilter(printings: seq<Printing>)
    ensures CountOwned(printings) == |Filter((p: Printing) => p.ownedCount > 0, printings)|
  {
    if printings != [] {
      OwnedIsTheFilter(printings[1..]);
    }
  }

  lemma {:induction false} MasterCounts(slots: seq<Slot>)
    ensures MasterTotal(slots) == |AllPrintings(slots)|
    ensures MasterOwned(slots) == |Filter((p: Printing) => p.ownedCount > 0, AllPrintings(slots))|
  {
    if slots != [] {
      MasterCounts(slots[1..]);
      OwnedIsTheFilter(slots[0].printings);
      Queries.FilterAppends((p: Printing) => p.ownedCount > 0, slots[0].printings, AllPrintings(slots[1..]));
    }
  }

  /** The four totals count the base slots, those with an owned printing, all printings, and the owned ones. */
  lemma PageTotals(q: Query, visible: seq<Slot>)
    ensures var p := PageOf(q, visible);
            && p.baseTotal == |Filter((s: Slot) => s.section.Base?, visible)|
            && p.baseOwned == |Filter(OwnedBase(), visible)|
            && p.masterTotal == |AllPrintings(visible)|
            && p.masterOwned == |Filter((r: Printing) => r.ownedCount > 0, AllPrintings(visible))|
  {
    CountIsTheFilter(IsBase(), visible);
    CountIsTheFilter(IsOwnedBase(), visible);
    FilterSlots(IsBase(), (s: Slot) => s.section.Base?, visible);
    FilterSlots(IsOwnedBase(), OwnedBase(), visible);
    MasterCounts(visible);
  }

  function OwnedBase(): Slot -> bool {
    (s: Slot) => s.section.Base? && exists i | 0 <= i < |s.printings| :: s.printings[i].ownedCount > 0
  }

  // ----- Rarities -----

  /** The rarities a page knows, from common to chase. */
  const TIERS: seq<seq<string>> := [
    ["common"], ["uncommon"], ["rare"], ["promo", "classic collection"], ["rare holo"], ["radiant rare"],
    ["rare holo ex", "rare holo gx", "rare holo v", "double rare"],
    ["rare holo vmax", "rare holo vstar", "ultra rare"], ["amazing rare", "rare shiny", "rare shiny gx"],
    ["illustration rare"], ["trainer gallery rare holo"], ["rare secret", "rare rainbow"],
    ["special illustration rare"], ["hyper rare", "rare holo star"]
  ]

  /** A rarity ranks by its tier, whatever its letter case; one the page does not know with the radiant rares,
      and a missing one before all. */
  lemma RankIsTheTier(rarity: string, k: nat)
    requires k < |TIERS| && Text.AsciiLower(rarity) in TIERS[k]
    ensures RarityRank(Some(rarity)) == k + 1 > RarityRank(None)
  {
  }

  lemma UnknownRank(rarity: string)
    requires forall k | 0 <= k < |TIERS| :: Text.AsciiLower(rarity) !in TIERS[k]
    ensures RarityRank(Some(rarity)) == 6
  {
    var r := Text.AsciiLower(rarity);
    assert r !in TIERS[0] && r !in TIERS[1] && r !in TIERS[2] && r !in TIERS[3] && r !in TIERS[4] && r !in TIERS[6];
    assert r !in TIERS[7] && r !in TIERS[8] && r !in TIERS[9] && r !in TIERS[10] && r !in TIERS[11] && r !in TIERS[12];
    assert r !in TIERS[13];
  }
}
