/** The deck, group and binder lists: rows read in id order, then sorted by natural name. */
module NameLists {
  import opened Wrappers
  import opened Orders
  import opened StableSort
  import Natural
  import H = Holdings

  datatype Row = Row(id: nat, name: string, group: Option<nat>)

  type Table = map<nat, Row>

  function DeckTable(decks: map<nat, H.Deck>): Table {
    map d | d in decks :: Row(d, decks[d].name, decks[d].group)
  }

  function GroupTable(groups: map<nat, string>): Table {
    map g | g in groups :: Row(g, groups[g], None)
  }

  predicate Keyed(table: Table) {
    forall id | id in table :: table[id].id == id
  }

  predicate Listed(table: Table, row: Row) {
    row.id in table && table[row.id] == row
  }

  function ByName(lower: Natural.Lower): (Row, Row) -> Ordering {
    (a: Row, b: Row) => Natural.Cmp(lower, a.name, b.name)
  }

  function ById(): Row -> nat {
    (r: Row) => r.id
  }

  lemma {:induction false} LeastOf(ids: set<nat>) returns (m: nat)
    requires ids != {}
    ensures m in ids && forall i | i in ids :: m <= i
  {
    m :| m in ids;
    var others := ids - {m};
    assert forall i | i in ids :: i == m || i in others;
    if others != {} {
      var least := LeastOf(others);
      if least < m {
        m := least;
      }
    }
  }

  function Least(ids: set<nat>): (m: nat)
    requires ids != {}
    ensures m in ids && forall i | i in ids :: m <= i
  {
    assert exists m :: m in ids && forall i | i in ids :: m <= i by {
      var least := LeastOf(ids);
    }
    var m :| m in ids && forall i | i in ids :: m <= i;
    m
  }

  lemma LeastGoesFirst(table: Table, least: nat, tail: seq<Row>)
    requires Keyed(table) && least in table && forall id | id in table :: least <= id
    requires (forall r :: r in tail <==> Listed(table - {least}, r)) && Ascending(ById(), tail)
    ensures forall r :: r in [table[least]] + tail <==> Listed(table, r)
    ensures Ascending(ById(), [table[least]] + tail)
  {
    var rows := [table[least]] + tail;
    forall i, j | 0 <= i < j < |rows| ensures rows[i].id < rows[j].id {
      assert rows[j] == tail[j - 1] && tail[j - 1] in tail;
      if i > 0 {
        assert rows[i] == tail[i - 1];
      }
    }
  }

  /** `SELECT ... ORDER BY id`. */
  function RowsById(table: Table): (rows: seq<Row>)
    requires Keyed(table)
    ensures forall r :: r in rows <==> Listed(table, r)
    ensures Ascending(ById(), rows)
    decreases |table.Keys|
  {
    if table == map[] then []
    else
      var least := Least(table.Keys);
      var rest := table - {least};
      assert rest.Keys == table.Keys - {least};
      var tail := RowsById(rest);
      LeastGoesFirst(table, least, tail);
      [table[least]] + tail
  }

  lemma ByNameIsPreordered(lower: Natural.Lower)
    ensures IsPreorder(ByName(lower))
  {
    forall a, b, c
      ensures ByName(lower)(a, a) == Equal && ByName(lower)(b, a) == ByName(lower)(a, b).Flip()
      ensures Chains(ByName(lower)(a, b), ByName(lower)(b, c), ByName(lower)(a, c))
    {
      Natural.NaturalIsPreordered(lower, a.name, b.name, c.name);
    }
  }

  /** Each row's name comes before the next one's, or ties with it and then its id is the smaller. */
  ghost predicate InNameOrder(lower: Natural.Lower, s: seq<Row>) {
    forall i, j | 0 <= i < j < |s| ::
      || Natural.NameBefore(lower, s[i].name, s[j].name)
      || (Natural.NamesTie(lower, s[i].name, s[j].name) && s[i].id < s[j].id)
  }

  lemma OrderedByNames(lower: Natural.Lower, s: seq<Row>)
    ensures Ordered(ByName(lower), ById(), s) <==> InNameOrder(lower, s)
  {
    forall i, j | 0 <= i < j < |s|
      ensures Before(ByName(lower), ById(), s[i], s[j])
         <==> Natural.NameBefore(lower, s[i].name, s[j].name)
              || (Natural.NamesTie(lower, s[i].name, s[j].name) && s[i].id < s[j].id)
    {
      Natural.NaturalMeaning(lower, s[i].name, s[j].name);
    }
  }

  function Sorted(lower: Natural.Lower, table: Table): seq<Row>
    requires Keyed(table)
  {
    SortBy(ByName(lower), RowsById(table))
  }

  /** `decks::list`, `deck_groups::list` and `binders::list`: every row once, by natural name and then id. */
  method List(lower: Natural.Lower, table: Table) returns (all: seq<Row>)
    requires Keyed(table)
    ensures Ordered(ByName(lower), ById(), all) && InNameOrder(lower, all)
    ensures forall r :: r in all <==> Listed(table, r)
  {
    all := RowsById(table);
    all := SortBy(ByName(lower), all);
    ListIsTheArrangement(lower, table, all);
    OrderedByNames(lower, all);
  }

  function InGroup(group: nat): Row -> bool {
    (r: Row) => r.group == Some(group)
  }

  /** `deck_groups::decks_of` sorts again what it took from a sorted list. */
  method DecksOf(lower: Natural.Lower, decks: Table, group: nat) returns (all: seq<Row>)
    requires Keyed(decks)
    ensures all == Filter(InGroup(group), Sorted(lower, decks))
    ensures InNameOrder(lower, all)
    ensures forall r :: r in all <==> r.id in decks && decks[r.id] == r && r.group == Some(group)
  {
    all := List(lower, decks);
    ListIsTheArrangement(lower, decks, all);
    all := Filter(InGroup(group), all);
    SecondSortMovesNothing(lower, decks, group);
    DecksOfInNameOrder(lower, decks, group, all);
    all := SortBy(ByName(lower), all);
  }

  lemma SecondSortMovesNothing(lower: Natural.Lower, decks: Table, group: nat)
    requires Keyed(decks)
    ensures var members := Filter(InGroup(group), Sorted(lower, decks));
            SortBy(ByName(lower), members) == members
  {
    ByNameIsPreordered(lower);
    SortBySorts(ByName(lower), RowsById(decks));
    FilterKeepsSorted(ByName(lower), InGroup(group), Sorted(lower, decks));
    SortingSortedMovesNothing(ByName(lower), Filter(InGroup(group), Sorted(lower, decks)));
  }

  /** The list is the one arrangement of the table's rows ordered by (natural name, id). */
  lemma ListIsTheArrangement(lower: Natural.Lower, table: Table, t: seq<Row>)
    requires Keyed(table)
    ensures t == Sorted(lower, table)
       <==> Ordered(ByName(lower), ById(), t) && forall r :: r in t <==> Listed(table, r)
    ensures t == Sorted(lower, table)
       <==> InNameOrder(lower, t) && forall r :: r in t <==> r.id in table && table[r.id] == r
  {
    var all := Sorted(lower, table);
    OrderedByNames(lower, t);
    ByNameIsPreordered(lower);
    SortOrdersById(ByName(lower), ById(), RowsById(table));
    forall r ensures r in all <==> Listed(table, r) {
      assert r in all <==> r in multiset(all);
      assert r in RowsById(table) <==> r in multiset(RowsById(table));
    }
    if Ordered(ByName(lower), ById(), t) && forall r :: r in t <==> Listed(table, r) {
      OneArrangement(ByName(lower), ById(), t, all);
    }
  }

  /** A group's decks, listed: the same arrangement of just its own rows. */
  lemma DecksOfIsTheArrangement(lower: Natural.Lower, decks: Table, group: nat, t: seq<Row>)
    requires Keyed(decks)
    ensures t == Filter(InGroup(group), Sorted(lower, decks))
       <==> Ordered(ByName(lower), ById(), t)
            && forall r :: r in t <==> Listed(decks, r) && r.group == Some(group)
  {
    var own := RowsOfGroup(decks, group);
    var members := Filter(InGroup(group), Sorted(lower, decks));
    ByNameIsPreordered(lower);
    ListIsTheArrangement(lower, decks, Sorted(lower, decks));
    FilterKeepsOrdered(lower, InGroup(group), Sorted(lower, decks));
    MembersAreOwn(decks, group, Sorted(lower, decks), members);
    ListIsTheArrangement(lower, own, t);
    ListIsTheArrangement(lower, own, members);
  }

  function RowsOfGroup(decks: Table, group: nat): (own: Table)
    requires Keyed(decks)
    ensures Keyed(own) && forall r :: Listed(own, r) <==> Listed(decks, r) && r.group == Some(group)
  {
    map d | d in decks && decks[d].group == Some(group) :: decks[d]
  }

  lemma MembersAreOwn(decks: Table, group: nat, all: seq<Row>, members: seq<Row>)
    requires Keyed(decks) && members == Filter(InGroup(group), all)
    requires forall r :: r in all <==> Listed(decks, r)
    ensures forall r :: r in members <==> Listed(RowsOfGroup(decks, group), r)
  {
    forall r ensures r in members <==> r in all && InGroup(group)(r) {}
  }

  /** That is, the group's rows in the order of their names. */
  lemma DecksOfInNameOrder(lower: Natural.Lower, decks: Table, group: nat, t: seq<Row>)
    requires Keyed(decks)
    ensures t == Filter(InGroup(group), Sorted(lower, decks))
       <==> InNameOrder(lower, t)
            && forall r :: r in t <==> r.id in decks && decks[r.id] == r && r.group == Some(group)
  {
    DecksOfIsTheArrangement(lower, decks, group, t);
    OrderedByNames(lower, t);
    assert forall r :: Listed(decks, r) <==> r.id in decks && decks[r.id] == r;
  }

  lemma {:induction false} FilterKeepsOrdered(lower: Natural.Lower, p: Row -> bool, s: seq<Row>)
    requires Ordered(ByName(lower), ById(), s)
    ensures Ordered(ByName(lower), ById(), Filter(p, s))
  {
    if s != [] {
      OrderedByHead(ByName(lower), ById(), s);
      FilterKeepsOrdered(lower, p, s[1..]);
      if p(s[0]) {
        assert Filter(p, s)[1..] == Filter(p, s[1..]);
        OrderedByHead(ByName(lower), ById(), Filter(p, s));
      }
    }
  }

  // ----- The lists of a collection -----

  method ListDecks(lower: Natural.Lower, decks: map<nat, H.Deck>) returns (all: seq<Row>)
    ensures Ordered(ByName(lower), ById(), all) && InNameOrder(lower, all)
    ensures forall r :: r in all <==> r.id in decks && r == Row(r.id, decks[r.id].name, decks[r.id].group)
  {
    all := List(lower, DeckTable(decks));
  }

  method ListGroups(lower: Natural.Lower, groups: map<nat, string>) returns (all: seq<Row>)
    ensures Ordered(ByName(lower), ById(), all) && InNameOrder(lower, all)
    ensures forall r :: r in all <==> r.id in groups && r == Row(r.id, groups[r.id], None)
  {
    all := List(lower, GroupTable(groups));
  }

  function Ids(rows: seq<Row>): set<nat> {
    set r | r in rows :: r.id
  }

  predicate DistinctIds(rows: seq<Row>) {
    forall i, j | 0 <= i < j < |rows| :: rows[i].id != rows[j].id
  }

  lemma NoRowTwice(lower: Natural.Lower, table: Table, rows: seq<Row>)
    requires Ordered(ByName(lower), ById(), rows) && forall r | r in rows :: Listed(table, r)
    ensures DistinctIds(rows)
  {
    ByNameIsPreordered(lower);
    forall i, j | 0 <= i < j < |rows| ensures rows[i].id != rows[j].id {
      assert Before(ByName(lower), ById(), rows[i], rows[j]);
      assert rows[i] in rows && rows[j] in rows;
      assert ByName(lower)(rows[i], rows[i]) == Equal;
    }
  }

  lemma {:induction false} IdsCount(rows: seq<Row>)
    requires DistinctIds(rows)
    ensures |Ids(rows)| == |rows|
  {
    if rows != [] {
      assert forall i | 0 <= i < |rows[1..]| :: rows[1..][i] == rows[i + 1];
      IdsCount(rows[1..]);
      assert rows == [rows[0]] + rows[1..];
      assert Ids(rows) == Ids(rows[1..]) + {rows[0].id};
    }
  }

  lemma IdsOfAGroup(s: H.State, group: nat, rows: seq<Row>)
    requires forall r :: r in rows <==> Listed(DeckTable(s.decks), r) && r.group == Some(group)
    ensures Ids(rows) == H.DecksOf(s, group)
  {
    forall d | d in H.DecksOf(s, group) ensures d in Ids(rows) {
      assert DeckTable(s.decks)[d] in rows;
    }
  }

  /** The decks listed for a group are the decks the group's operations act on, each listed once. */
  lemma ListedDecksAreTheGroups(lower: Natural.Lower, s: H.State, group: nat)
    ensures var rows := Filter(InGroup(group), Sorted(lower, DeckTable(s.decks)));
            Ids(rows) == H.DecksOf(s, group) && |rows| == |H.DecksOf(s, group)|
  {
    var rows := Filter(InGroup(group), Sorted(lower, DeckTable(s.decks)));
    DecksOfIsTheArrangement(lower, DeckTable(s.decks), group, rows);
    IdsOfAGroup(s, group, rows);
    NoRowTwice(lower, DeckTable(s.decks), rows);
    IdsCount(rows);
  }
}
