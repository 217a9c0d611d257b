/** A set's binder: its cards as slots, sorted, filtered and cut into pages, with progress counted
    over the whole. Prices are integers (cents). */
module BinderPages {
  import opened Wrappers
  import opened Orders
  import opened StableSort
  import Queries
  import Text

  const SUBSET_FLOOR := 1_000
  const PROMO_FLOOR := 9_000
  /** `i64::MAX`, standing for a set with no printed total. */
  const NO_PRINTED_TOTAL := 0x7FFF_FFFF_FFFF_FFFF

  datatype Section = Base | Secret | Subset | Promo

  datatype Printing = Printing(id: string, variant: string, ownedCount: nat,
                               marketPrice: Option<int>, ownedValue: Option<int>)

  datatype Card = Card(id: string, number: string, numberSortable: int, name: string,
                       rarity: Option<string>)

  datatype Slot = Slot(cardId: string, number: string, name: string, rarity: Option<string>,
                       section: Section, printings: seq<Printing>, displayPrice: Option<int>)

  datatype Query = Query(page: int, layout: int, includeSecret: bool, includeSubset: bool,
                         includePromos: bool, sort: string, search: string, filter: string)

  datatype Page = Page(layout: int, page: int, totalPages: int, baseTotal: nat, baseOwned: nat,
                       masterTotal: nat, masterOwned: nat, slots: seq<Slot>)

  // ----- Slots -----

  function SectionOf(numberSortable: int, printedTotal: int): Section {
    if numberSortable <= printedTotal then Base
    else if numberSortable < SUBSET_FLOOR then Secret
    else if numberSortable < PROMO_FLOOR then Subset
    else Promo
  }

  function MaxOwned(printings: seq<Printing>): Option<int> {
    if printings == [] then None
    else
      var rest := MaxOwned(printings[1..]);
      var v := printings[0].ownedValue;
      if v.None? then rest else if rest.None? || v.value > rest.value then v else rest
  }

  function MinMarket(printings: seq<Printing>): Option<int> {
    if printings == [] then None
    else
      var rest := MinMarket(printings[1..]);
      var v := printings[0].marketPrice;
      if v.None? || v.value <= 0 then rest
      else if rest.None? || v.value < rest.value then v
      else rest
  }

  /** The dearest owned copy if any is owned, else the cheapest positive market price. */
  function DisplayPrice(printings: seq<Printing>): Option<int> {
    if MaxOwned(printings).Some? then MaxOwned(printings) else MinMarket(printings)
  }

  predicate Included(q: Query, section: Section) {
    match section
    case Base => true
    case Secret => q.includeSecret
    case Subset => q.includeSubset
    case Promo => q.includePromos
  }

  function SlotOf(card: Card, own: seq<Printing>, printedTotal: int): Slot {
    Slot(card.id, card.number, card.name, card.rarity, SectionOf(card.numberSortable, printedTotal),
         own, DisplayPrice(own))
  }

  /** A card's printings among the rows of the set's printing query. */
  function RowsOf(rows: seq<(string, Printing)>, card: string): seq<Printing> {
    if rows == [] then []
    else
      var last := rows[|rows| - 1];
      RowsOf(rows[..|rows| - 1], card) + (if last.0 == card then [last.1] else [])
  }

  /** The card's slot, unless its section is left out. */
  function Kept(q: Query, card: Card, own: seq<Printing>, printedTotal: int): seq<Slot> {
    var slot := SlotOf(card, own, printedTotal);
    if Included(q, slot.section) then [slot] else []
  }

  /** The slots of the included sections, in the cards' own order. */
  function Visible(q: Query, cards: seq<Card>, rows: seq<(string, Printing)>, printedTotal: int)
    : seq<Slot>
  {
    if cards == [] then []
    else
      Kept(q, cards[0], RowsOf(rows, cards[0].id), printedTotal) + Visible(q, cards[1..], rows, printedTotal)
  }

  predicate OwnsOne(s: Slot) {
    exists i | 0 <= i < |s.printings| :: s.printings[i].ownedCount > 0
  }

  predicate OwnsTwo(s: Slot) {
    exists i | 0 <= i < |s.printings| :: s.printings[i].ownedCount >= 2
  }

  // ----- Sorting -----

  function RarityRank(rarity: Option<string>): int {
    if rarity.None? then 0
    else
      match Text.AsciiLower(rarity.value)
      case "common" => 1
      case "uncommon" => 2
      case "rare" => 3
      case "promo" => 4
      case "classic collection" => 4
      case "rare holo" => 5
      case "radiant rare" => 6
      case "rare holo ex" => 7
      case "rare holo gx" => 7
      case "rare holo v" => 7
      case "double rare" => 7
      case "rare holo vmax" => 8
      case "rare holo vstar" => 8
      case "ultra rare" => 8
      case "amazing rare" => 9
      case "rare shiny" => 9
      case "rare shiny gx" => 9
      case "illustration rare" => 10
      case "trainer gallery rare holo" => 11
      case "rare secret" => 12
      case "rare rainbow" => 12
      case "special illustration rare" => 13
      case "hyper rare" => 14
      case "rare holo star" => 14
      case _ => 6
  }

  function SlotPrice(s: Slot): int {
    s.displayPrice.GetOr(0)
  }

  function CmpNames(a: Slot, b: Slot): Ordering {
    LexCmp(CmpChar, Text.AsciiLower(a.name), Text.AsciiLower(b.name))
  }

  function Reverse(s: seq<Slot>): seq<Slot> {
    if s == [] then [] else Reverse(s[1..]) + [s[0]]
  }

  datatype Arrangement = AsRead | Reversed | By(cmp: (Slot, Slot) -> Ordering)

  function ArrangementOf(sort: string): Arrangement {
    match sort
    case "number_desc" => Reversed
    case "name" => By((a, b) => CmpNames(a, b))
    case "name_desc" => By((a, b) => CmpNames(b, a))
    case "price" => By((a, b) => CmpInt(SlotPrice(b), SlotPrice(a)))
    case "price_asc" => By((a, b) => CmpInt(SlotPrice(a), SlotPrice(b)))
    case "rarity" => By((a: Slot, b: Slot) => CmpInt(RarityRank(b.rarity), RarityRank(a.rarity)))
    case "rarity_asc" => By((a: Slot, b: Slot) => CmpInt(RarityRank(a.rarity), RarityRank(b.rarity)))
    case _ => AsRead
  }

  function Arranged(how: Arrangement, slots: seq<Slot>): seq<Slot> {
    match how
    case AsRead => slots
    case Reversed => Reverse(slots)
    case By(cmp) => SortBy(cmp, slots)
  }

  // ----- Filtering -----

  predicate Found(search: string, s: Slot) {
    var wanted := Text.AsciiLower(Text.Trim(search));
    wanted == [] || Text.Contains(Text.AsciiLower(s.name), wanted)
  }

  predicate OnTab(filter: string, s: Slot) {
    match filter
    case "have" => OwnsOne(s)
    case "need" => !OwnsOne(s)
    case "dupes" => OwnsTwo(s)
    case _ => true
  }

  function Shown(search: string, filter: string): Slot -> bool {
    s => Found(search, s) && OnTab(filter, s)
  }

  /** The sorted, filtered view that the pages are cut from. */
  function View(q: Query, visible: seq<Slot>): seq<Slot> {
    Filter(Shown(q.search, q.filter), Arranged(ArrangementOf(q.sort), visible))
  }

  // ----- Pages -----

  function Clamp(x: int, lo: int, hi: int): int
    requires lo <= hi
  {
    if x < lo then lo else if x > hi then hi else x
  }

  function TotalPages(count: nat, layout: int): (n: int)
    requires layout >= 1
    ensures n >= 1
  {
    var n := (count + layout - 1) / layout;
    if n < 1 then 1 else n
  }

  function Least(a: int, b: int): int {
    if a < b then a else b
  }

  /** `skip((page - 1) * layout).take(layout)`. */
  function Cut(view: seq<Slot>, layout: int, page: int): seq<Slot>
    requires layout >= 1 && page >= 1
  {
    var start := (page - 1) * layout;
    if start >= |view| then [] else view[start..Least(start + layout, |view|)]
  }

  // ----- Progress -----

  function CountSlots(p: Slot -> bool, slots: seq<Slot>): nat {
    if slots == [] then 0 else (if p(slots[0]) then 1 else 0) + CountSlots(p, slots[1..])
  }

  function CountOwned(printings: seq<Printing>): (n: nat)
    ensures n <= |printings|
  {
    if printings == [] then 0
    else (if printings[0].ownedCount > 0 then 1 else 0) + CountOwned(printings[1..])
  }

  function MasterTotal(slots: seq<Slot>): nat {
    if slots == [] then 0 else |slots[0].printings| + MasterTotal(slots[1..])
  }

  function MasterOwned(slots: seq<Slot>): nat {
    if slots == [] then 0 else CountOwned(slots[0].printings) + MasterOwned(slots[1..])
  }

  function IsBase(): Slot -> bool {
    (s: Slot) => s.section.Base?
  }

  function IsOwnedBase(): Slot -> bool {
    (s: Slot) => s.section.Base? && OwnsOne(s)
  }

  function Looked(printings: map<string, seq<Printing>>, card: string): seq<Printing> {
    if card in printings then printings[card] else []
  }

  /** Groups the printing rows by card, as the HashMap is filled. */
  method GroupPrintings(rows: seq<(string, Printing)>) returns (printings: map<string, seq<Printing>>)
    ensures forall c :: Looked(printings, c) == RowsOf(rows, c)
  {
    printings := map[];
    for i := 0 to |rows|
      invariant forall c :: Looked(printings, c) == RowsOf(rows[..i], c)
    {
      var (card, printing) := rows[i];
      printings := printings[card := Looked(printings, card) + [printing]];
      assert rows[..i + 1][..i] == rows[..i];
    }
    assert rows[..|rows|] == rows;
  }

  function PageOf(q: Query, visible: seq<Slot>): Page {
    var view := View(q, visible);
    var layout := Clamp(q.layout, 1, 60);
    var totalPages := TotalPages(|view|, layout);
    var page := Clamp(q.page, 1, totalPages);
    Page(layout, page, totalPages, CountSlots(IsBase(), visible), CountSlots(IsOwnedBase(), visible),
         MasterTotal(visible), MasterOwned(visible), Cut(view, layout, page))
  }

  lemma VisibleTail(q: Query, cards: seq<Card>, rows: seq<(string, Printing)>, printedTotal: int, i: nat)
    requires i < |cards|
    ensures Visible(q, cards[i..], rows, printedTotal)
         == Kept(q, cards[i], RowsOf(rows, cards[i].id), printedTotal) + Visible(q, cards[i + 1..], rows, printedTotal)
  {
    assert cards[i..][0] == cards[i] && cards[i..][1..] == cards[i + 1..];
  }

  lemma AppendKept<T>(before: seq<T>, kept: seq<T>, after: seq<T>)
    ensures before + (kept + after) == before + kept + after
  {
  }

  method BuildVisible(q: Query, cards: seq<Card>, rows: seq<(string, Printing)>, printedTotal: int)
    returns (visible: seq<Slot>)
    ensures visible == Visible(q, cards, rows, printedTotal)
  {
    var printings := GroupPrintings(rows);
    visible := [];
    ghost var all := Visible(q, cards, rows, printedTotal);
    assert cards[0..] == cards;
    for i := 0 to |cards|
      invariant visible + Visible(q, cards[i..], rows, printedTotal) == all
    {
      var kept := Kept(q, cards[i], Looked(printings, cards[i].id), printedTotal);
      VisibleTail(q, cards, rows, printedTotal, i);
      AppendKept(visible, kept, Visible(q, cards[i + 1..], rows, printedTotal));
      visible := visible + kept;
    }
    assert cards[|cards|..] == [];
  }

  /** `cards` come ordered by `number_sortable`; `known` is whether the set exists. */
  method GetBinderPage(known: bool, cards: seq<Card>, rows: seq<(string, Printing)>,
                       printed: Option<int>, q: Query)
    returns (result: Option<Page>)
    ensures result == if known then Some(PageOf(q, Visible(q, cards, rows, printed.GetOr(NO_PRINTED_TOTAL))))
                      else None
  {
    if !known {
      return None;
    }
    var printedTotal := printed.GetOr(NO_PRINTED_TOTAL);
    var visible := BuildVisible(q, cards, rows, printedTotal);
    ghost var all := visible;
    var baseTotal := CountSlots(IsBase(), visible);
    var baseOwned := CountSlots(IsOwnedBase(), visible);
    var masterTotal := MasterTotal(visible);
    var masterOwned := MasterOwned(visible);
    var how := ArrangementOf(q.sort);
    if how.Reversed? {
      visible := Reverse(visible);
    } else if how.By? {
      visible := SortBy(how.cmp, visible);
    }
    visible := Filter(Shown(q.search, q.filter), visible);
    assert visible == View(q, all);
    var layout := Clamp(q.layout, 1, 60);
    var totalPages := TotalPages(|visible|, layout);
    var page := Clamp(q.page, 1, totalPages);
    result := Some(Page(layout, page, totalPages, baseTotal, baseOwned, masterTotal, masterOwned,
                        Cut(visible, layout, page)));
  }

  function IsIncluded(q: Query, printedTotal: int): Card -> bool {
    (c: Card) => Included(q, SectionOf(c.numberSortable, printedTotal))
  }

  function IncludedCards(q: Query, cards: seq<Card>, printedTotal: int): seq<Card> {
    Filter(IsIncluded(q, printedTotal), cards)
  }

  predicate SlotsOf(slots: seq<Slot>, kept: seq<Card>, rows: seq<(string, Printing)>, printedTotal: int) {
    && |slots| == |kept|
    && forall i | 0 <= i < |kept| :: slots[i] == SlotOf(kept[i], RowsOf(rows, kept[i].id), printedTotal)
  }

  lemma OneMoreSlot(slots: seq<Slot>, kept: seq<Card>, rows: seq<(string, Printing)>, printedTotal: int, card: Card)
    requires SlotsOf(slots, kept, rows, printedTotal)
    ensures SlotsOf([SlotOf(card, RowsOf(rows, card.id), printedTotal)] + slots, [card] + kept, rows, printedTotal)
  {
  }

  /** One slot a card of an included section, in order, each with its own card's printings. */
  lemma {:induction false} VisibleSlots(q: Query, cards: seq<Card>, rows: seq<(string, Printing)>,
                                        printedTotal: int)
    ensures SlotsOf(Visible(q, cards, rows, printedTotal), IncludedCards(q, cards, printedTotal), rows, printedTotal)
  {
    if cards != [] {
      VisibleSlots(q, cards[1..], rows, printedTotal);
      OneMoreSlot(Visible(q, cards[1..], rows, printedTotal), IncludedCards(q, cards[1..], printedTotal), rows,
                  printedTotal, cards[0]);
      IncludedStep(q, cards, rows, printedTotal);
    }
  }

  lemma IncludedStep(q: Query, cards: seq<Card>, rows: seq<(string, Printing)>, printedTotal: int)
    requires cards != []
    ensures var taken := IsIncluded(q, printedTotal)(cards[0]);
            && IncludedCards(q, cards, printedTotal)
               == (if taken then [cards[0]] else []) + IncludedCards(q, cards[1..], printedTotal)
            && Visible(q, cards, rows, printedTotal)
               == (if taken then [SlotOf(cards[0], RowsOf(rows, cards[0].id), printedTotal)] else [])
                  + Visible(q, cards[1..], rows, printedTotal)
  {
  }

  // ----- The pages are the view -----

  function Pages(view: seq<Slot>, layout: int, n: nat): seq<Slot>
    requires layout >= 1
  {
    if n == 0 then [] else Pages(view, layout, n - 1) + Cut(view, layout, n)
  }

  lemma {:induction false} FirstPages(view: seq<Slot>, layout: int, n: nat)
    requires layout >= 1
    ensures Pages(view, layout, n) == view[..Least(n * layout, |view|)]
  {
    if n > 0 {
      FirstPages(view, layout, n - 1);
      assert n * layout == (n - 1) * layout + layout;
    }
  }

  lemma PagesCover(count: nat, layout: int)
    requires layout >= 1
    ensures TotalPages(count, layout) * layout >= count
    ensures count > 0 ==> (TotalPages(count, layout) - 1) * layout < count
  {
    var n := (count + layout - 1) / layout;
    assert n * layout + (count + layout - 1) % layout == count + layout - 1;
    assert (n - 1) * layout == n * layout - layout;
  }

  /** Pages 1 to total_pages, one after another, are the whole view: no slot lost and none repeated. */
  lemma PagesAreTheView(view: seq<Slot>, layout: int)
    requires layout >= 1
    ensures Pages(view, layout, TotalPages(|view|, layout)) == view
  {
    PagesCover(|view|, layout);
    FirstPages(view, layout, TotalPages(|view|, layout));
  }

  lemma MulKeepsOrder(a: int, b: int, c: int)
    requires a <= b && c >= 0
    ensures a * c <= b * c
  {
    assert b * c - a * c == (b - a) * c;
  }

  /** No page is empty but the only one of an empty view. */
  lemma PagesAreNonempty(view: seq<Slot>, layout: int, page: int)
    requires layout >= 1 && 1 <= page <= TotalPages(|view|, layout)
    ensures Cut(view, layout, page) == [] <==> view == []
  {
    PagesCover(|view|, layout);
    MulKeepsOrder(page - 1, TotalPages(|view|, layout) - 1, layout);
  }

  /** An answer for a page that exists is that page of the view, under totals that do not depend on
      which page was asked for. */
  lemma PageAnswers(q: Query, visible: seq<Slot>, page: int)
    requires 1 <= page <= PageOf(q, visible).totalPages
    ensures PageOf(q.(page := page), visible)
         == PageOf(q, visible).(page := page, slots := Cut(View(q, visible), Clamp(q.layout, 1, 60), page))
  {
    assert View(q.(page := page), visible) == View(q, visible);
  }

  /** What a caller sees on page n. */
  function Asked(q: Query, visible: seq<Slot>): int -> seq<Slot> {
    (n: int) => PageOf(q.(page := n), visible).slots
  }

  function Glue(pages: int -> seq<Slot>, n: nat): seq<Slot> {
    if n == 0 then [] else Glue(pages, n - 1) + pages(n)
  }

  function QueriedPages(q: Query, visible: seq<Slot>, n: nat): seq<Slot> {
    Glue(Asked(q, visible), n)
  }

  lemma OnePage(q: Query, visible: seq<Slot>, n: int)
    requires 1 <= n <= PageOf(q, visible).totalPages
    ensures Asked(q, visible)(n) == Cut(View(q, visible), Clamp(q.layout, 1, 60), n)
  {
    PageAnswers(q, visible, n);
  }

  lemma {:induction false} GluedCuts(pages: int -> seq<Slot>, view: seq<Slot>, layout: int, n: nat)
    requires layout >= 1 && forall k | 1 <= k <= n :: pages(k) == Cut(view, layout, k)
    ensures Glue(pages, n) == Pages(view, layout, n)
  {
    if n > 0 {
      GluedCuts(pages, view, layout, n - 1);
    }
  }

  /** Asking for pages 1 to total_pages in turn returns the sorted, filtered view. */
  lemma AskingForEveryPage(q: Query, visible: seq<Slot>)
    ensures QueriedPages(q, visible, PageOf(q, visible).totalPages) == View(q, visible)
  {
    var total, view, layout := PageOf(q, visible).totalPages, View(q, visible), Clamp(q.layout, 1, 60);
    forall k | 1 <= k <= total ensures Asked(q, visible)(k) == Cut(view, layout, k) {
      OnePage(q, visible, k);
    }
    GluedCuts(Asked(q, visible), view, layout, total);
    PagesAreTheView(view, layout);
  }

  // ----- Sorting and filtering commute -----

  lemma {:induction false} ReverseOf(s: seq<Slot>, x: Slot)
    ensures Reverse(s + [x]) == [x] + Reverse(s)
  {
    if s == [] {
      assert [] + [x] == [x];
    } else {
      assert (s + [x])[1..] == s[1..] + [x];
      ReverseOf(s[1..], x);
    }
  }

  lemma {:induction false} FilterOfReverse(p: Slot -> bool, s: seq<Slot>)
    ensures Filter(p, Reverse(s)) == Reverse(Filter(p, s))
  {
    if s != [] {
      FilterOfReverse(p, s[1..]);
      Queries.FilterSnoc(p, Reverse(s[1..]), s[0]);
    }
  }

  lemma KeyedIsPreordered(cmp: (Slot, Slot) -> Ordering, key: Slot -> int)
    requires (forall a, b :: cmp(a, b) == CmpInt(key(a), key(b)))
          || (forall a, b :: cmp(a, b) == CmpInt(key(b), key(a)))
    ensures IsPreorder(cmp)
  {}

  lemma NamesArePreordered(cmp: (Slot, Slot) -> Ordering)
    requires (forall a, b :: cmp(a, b) == CmpNames(a, b)) || (forall a, b :: cmp(a, b) == CmpNames(b, a))
    ensures IsPreorder(cmp)
  {
    assert IsPreorder(CmpChar);
    forall a: Slot, b: Slot, c: Slot
      ensures CmpNames(a, a) == Equal && CmpNames(b, a) == CmpNames(a, b).Flip()
      ensures Chains(CmpNames(a, b), CmpNames(b, c), CmpNames(a, c))
    {
      var (x, y, z) := (Text.AsciiLower(a.name), Text.AsciiLower(b.name), Text.AsciiLower(c.name));
      LexRefl(CmpChar, x);
      LexFlip(CmpChar, x, y);
      LexChains(CmpChar, x, y, z);
    }
  }

  /** Every sort mode's comparison is a total preorder. */
  lemma ArrangementsArePreordered(sort: string)
    ensures var how := ArrangementOf(sort); how.By? ==> IsPreorder(how.cmp)
  {
    var how := ArrangementOf(sort);
    if how.By? {
      if sort == "name" || sort == "name_desc" {
        NamesArePreordered(how.cmp);
      } else if sort == "price" || sort == "price_asc" {
        KeyedIsPreordered(how.cmp, s => SlotPrice(s));
      } else {
        KeyedIsPreordered(how.cmp, (s: Slot) => RarityRank(s.rarity));
      }
    }
  }

  /** In every sort mode, filtering the arranged slots is arranging the filtered ones. */
  lemma FilteringCommutes(sort: string, p: Slot -> bool, slots: seq<Slot>)
    ensures Filter(p, Arranged(ArrangementOf(sort), slots)) == Arranged(ArrangementOf(sort), Filter(p, slots))
  {
    var how := ArrangementOf(sort);
    ArrangementsArePreordered(sort);
    if how.Reversed? {
      FilterOfReverse(p, slots);
    } else if how.By? {
      FilterCommutesWithSort(how.cmp, p, slots);
    }
  }

  // ----- The tabs -----

  /** "have" and "need" are the two halves of "all" for the same search, each in the order of "all",
      and "dupes" lies within "have". */
  lemma TabsSplitTheView(q: Query, visible: seq<Slot>)
    ensures var all := View(q.(filter := "all"), visible);
            var have := View(q.(filter := "have"), visible);
            var need := View(q.(filter := "need"), visible);
            && have == Filter(s => OwnsOne(s), all) && need == Filter(s => !OwnsOne(s), all)
            && multiset(have) + multiset(need) == multiset(all)
            && View(q.(filter := "dupes"), visible) == Filter(s => OwnsTwo(s), have)
  {
    var slots := Arranged(ArrangementOf(q.sort), visible);
    var owns: Slot -> bool := s => OwnsOne(s);
    var lacks: Slot -> bool := s => !OwnsOne(s);
    var all := Filter(Shown(q.search, "all"), slots);
    var owns2: Slot -> bool := s => OwnsTwo(s);
    Queries.FilterTwice(Shown(q.search, "all"), owns, Shown(q.search, "have"), slots);
    Queries.FilterTwice(Shown(q.search, "all"), lacks, Shown(q.search, "need"), slots);
    Queries.FilterTwice(Shown(q.search, "have"), owns2, Shown(q.search, "dupes"), slots);
    Queries.FilterPartitions(owns, lacks, all);
  }

  // ----- Progress and price -----

  predicate OwnsAll(s: Slot) {
    forall i | 0 <= i < |s.printings| :: s.printings[i].ownedCount > 0
  }

  lemma {:induction false} AllOwned(printings: seq<Printing>)
    ensures CountOwned(printings) == |printings| <==> forall i | 0 <= i < |printings| :: printings[i].ownedCount > 0
  {
    if printings != [] {
      AllOwned(printings[1..]);
      assert forall i | 0 < i < |printings| :: printings[i] == printings[1..][i - 1];
      assert forall i | 0 <= i < |printings| - 1 :: printings[1..][i] == printings[i + 1];
    }
  }

  /** The progress bars never overfill, and one is full exactly when nothing is missing. */
  lemma {:induction false} ProgressIsHonest(slots: seq<Slot>)
    ensures CountSlots(IsOwnedBase(), slots) <= CountSlots(IsBase(), slots) <= |slots|
    ensures CountSlots(IsOwnedBase(), slots) == CountSlots(IsBase(), slots)
       <==> forall i | 0 <= i < |slots| && slots[i].section.Base? :: OwnsOne(slots[i])
    ensures MasterOwned(slots) <= MasterTotal(slots)
    ensures MasterOwned(slots) == MasterTotal(slots) <==> forall i | 0 <= i < |slots| :: OwnsAll(slots[i])
  {
    if slots != [] {
      ProgressIsHonest(slots[1..]);
      AllOwned(slots[0].printings);
      assert forall i | 0 < i < |slots| :: slots[i] == slots[1..][i - 1];
      assert forall i | 0 <= i < |slots| - 1 :: slots[1..][i] == slots[i + 1];
    }
  }

  /** The progress on a page is that of all the visible slots: two queries that include the same sections
      get the same bars, whatever they search, sort, filter, page through or lay out. */
  lemma ProgressIgnoresTheView(q: Query, r: Query, cards: seq<Card>, rows: seq<(string, Printing)>, printedTotal: int)
    requires q.includeSecret == r.includeSecret && q.includeSubset == r.includeSubset
    requires q.includePromos == r.includePromos
    ensures var p, o := PageOf(q, Visible(q, cards, rows, printedTotal)),
                        PageOf(r, Visible(r, cards, rows, printedTotal));
            && p.baseTotal == o.baseTotal && p.baseOwned == o.baseOwned
            && p.masterTotal == o.masterTotal && p.masterOwned == o.masterOwned
  {
    SameSectionsSameSlots(q, r, cards, rows, printedTotal);
  }

  lemma {:induction false} SameSectionsSameSlots(
    q: Query, r: Query, cards: seq<Card>, rows: seq<(string, Printing)>, printedTotal: int)
    requires q.includeSecret == r.includeSecret && q.includeSubset == r.includeSubset
    requires q.includePromos == r.includePromos
    ensures Visible(q, cards, rows, printedTotal) == Visible(r, cards, rows, printedTotal)
  {
    if cards != [] {
      SameSectionsSameSlots(q, r, cards[1..], rows, printedTotal);
    }
  }

  /** The tile's price is the greatest owned value when there is one; otherwise the least positive
      market price; and absent only when there is neither. */
  lemma DisplayPriceIsTheBest(printings: seq<Printing>, i: nat)
    requires i < |printings|
    ensures printings[i].ownedValue.Some? ==>
              DisplayPrice(printings).Some? && printings[i].ownedValue.value <= DisplayPrice(printings).value
    ensures (forall j | 0 <= j < |printings| :: printings[j].ownedValue.None?)
            && printings[i].marketPrice.Some? && printings[i].marketPrice.value > 0 ==>
              DisplayPrice(printings).Some? && DisplayPrice(printings).value <= printings[i].marketPrice.value
    ensures DisplayPrice(printings).Some? ==> exists j | 0 <= j < |printings| ::
              DisplayPrice(printings) == printings[j].ownedValue || DisplayPrice(printings) == printings[j].marketPrice
  {
    MaxOwnedIsGreatest(printings);
    MinMarketIsLeast(printings);
  }

  lemma {:induction false} MaxOwnedIsGreatest(printings: seq<Printing>)
    ensures forall j | 0 <= j < |printings| && printings[j].ownedValue.Some? ::
              MaxOwned(printings).Some? && printings[j].ownedValue.value <= MaxOwned(printings).value
    ensures MaxOwned(printings).Some? ==>
              exists j | 0 <= j < |printings| :: printings[j].ownedValue == MaxOwned(printings)
  {
    if printings != [] {
      MaxOwnedIsGreatest(printings[1..]);
      assert forall j | 0 < j < |printings| :: printings[j] == printings[1..][j - 1];
      assert forall j | 0 <= j < |printings| - 1 :: printings[1..][j] == printings[j + 1];
    }
  }

  lemma {:induction false} MinMarketIsLeast(printings: seq<Printing>)
    ensures forall j | 0 <= j < |printings| && printings[j].marketPrice.Some? && printings[j].marketPrice.value > 0 ::
              MinMarket(printings).Some? && MinMarket(printings).value <= printings[j].marketPrice.value
    ensures MinMarket(printings).Some? ==>
              MinMarket(printings).value > 0
              && exists j | 0 <= j < |printings| :: printings[j].marketPrice == MinMarket(printings)
  {
    if printings != [] {
      MinMarketIsLeast(printings[1..]);
      assert forall j | 0 < j < |printings| :: printings[j] == printings[1..][j - 1];
      assert forall j | 0 <= j < |printings| - 1 :: printings[1..][j] == printings[j + 1];
    }
  }
}
