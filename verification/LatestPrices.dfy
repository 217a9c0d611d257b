/** The materialized table of newest prices, and the history it stands in for. */
module LatestPrices {
  import opened Wrappers
  import opened Orders
  import opened Natural
  import opened Text
  import opened StableSort
  import opened Queries

  datatype Key = Key(product: int, subType: string, source: string, priceType: string)

  /** `observedAt` is an ISO date, compared as text. */
  datatype Observation = Observation(key: Key, price: int, observedAt: string)

  predicate Older(a: string, b: string) {
    CmpText(a, b) == Less
  }

  /** Nothing for the same key is newer. */
  predicate IsNewest(prices: seq<Observation>, o: Observation) {
    forall i | 0 <= i < |prices| && prices[i].key == o.key :: !Older(o.observedAt, prices[i].observedAt)
  }

  function Newest(prices: seq<Observation>): Observation -> bool {
    (o: Observation) => IsNewest(prices, o)
  }

  /** The rows a refresh writes: the history joined with the newest date of each key. */
  function Refreshed(prices: seq<Observation>): seq<Observation> {
    Filter(Newest(prices), prices)
  }

  /** The UNIQUE constraint of the history: one price a key and date. */
  predicate OnePriceADay(prices: seq<Observation>) {
    forall i, j | 0 <= i < j < |prices| && prices[i].key == prices[j].key ::
      prices[i].observedAt != prices[j].observedAt
  }

  class PriceTables {
    var prices: seq<Observation>
    var latest: seq<Observation>

    /** Empties the table and fills it again in one transaction, whatever it held. */
    method Refresh() returns (n: nat)
      modifies this`latest
      ensures latest == Refreshed(prices) && n == |latest|
      ensures forall o :: o in latest <==>
                o in prices && forall p | p in prices && p.key == o.key :: !TextBefore(o.observedAt, p.observedAt)
    {
      forall o { RefreshKeepsTheLatest(prices, o); }
      latest := [];
      var newest := NewestDates(prices);
      for i := 0 to |prices|
        invariant prices == old(prices)
        invariant latest == Filter(Newest(prices), prices[..i])
      {
        var p := prices[i];
        assert prices[..i + 1] == prices[..i] + [p];
        FilterSnoc(Newest(prices), prices[..i], p);
        assert p.key in newest;
        JoinIsNewest(prices, newest, p);
        if p.observedAt == newest[p.key] {
          latest := latest + [p];
        }
      }
      assert prices[..|prices|] == prices;
      n := |latest|;
    }
  }

  // ----- What newest means -----

  /** A date is older than another exactly when it comes first as text. */
  lemma OlderMeaning(a: string, b: string)
    ensures Older(a, b) <==> TextBefore(a, b)
  {
    TextOrder(a, b);
  }

  /** A row of the history is in the refreshed table exactly when no observation of its key has a date that
      comes after its own. */
  lemma RefreshKeepsTheLatest(prices: seq<Observation>, o: Observation)
    ensures o in Refreshed(prices)
       <==> o in prices
            && forall p | p in prices && p.key == o.key :: !TextBefore(o.observedAt, p.observedAt)
  {
    FilterMembers(Newest(prices), prices, o);
    forall p ensures Older(o.observedAt, p) <==> TextBefore(o.observedAt, p) {
      OlderMeaning(o.observedAt, p);
    }
  }

  lemma FilterMembers(p: Observation -> bool, s: seq<Observation>, o: Observation)
    ensures o in Filter(p, s) <==> o in s && p(o)
  {
  }

  /** An ISO date. */
  datatype Date = Date(year: string, month: string, day: string) {
    predicate Valid() {
      |year| == 4 && |month| == 2 && |day| == 2 && AllDigits(year) && AllDigits(month) && AllDigits(day)
    }

    function Text(): string {
      year + ("-" + (month + ("-" + day)))
    }
  }

  predicate Earlier(a: Date, b: Date)
    requires a.Valid() && b.Valid()
  {
    || Value(a.year) < Value(b.year)
    || (Value(a.year) == Value(b.year) && Value(a.month) < Value(b.month))
    || (Value(a.year) == Value(b.year) && Value(a.month) == Value(b.month) && Value(a.day) < Value(b.day))
  }

  /** Comparing dates as text compares them by the calendar. */
  lemma DatesCompareByCalendar(a: Date, b: Date)
    requires a.Valid() && b.Valid()
    ensures Older(a.Text(), b.Text()) <==> Earlier(a, b)
  {
    LexInTwoParts(CmpChar, a.year, "-" + (a.month + ("-" + a.day)), b.year, "-" + (b.month + ("-" + b.day)));
    LexInTwoParts(CmpChar, "-", a.month + ("-" + a.day), "-", b.month + ("-" + b.day));
    LexInTwoParts(CmpChar, a.month, "-" + a.day, b.month, "-" + b.day);
    LexInTwoParts(CmpChar, "-", a.day, "-", b.day);
    CmpTextIsAnOrder("-", "-", "-");
    SameLengthByDigits(a.year, b.year);
    SameLengthByDigits(a.month, b.month);
    SameLengthByDigits(a.day, b.day);
  }

  // ----- GROUP BY and MAX -----

  predicate SeenKey(prices: seq<Observation>, k: Key) {
    exists i | 0 <= i < |prices| :: prices[i].key == k
  }

  predicate IsMaxDate(prices: seq<Observation>, k: Key, date: string) {
    && (exists i | 0 <= i < |prices| :: prices[i].key == k && prices[i].observedAt == date)
    && forall i | 0 <= i < |prices| && prices[i].key == k :: !Older(date, prices[i].observedAt)
  }

  ghost predicate AreMaxDates(prices: seq<Observation>, newest: map<Key, string>) {
    && (forall k :: k in newest <==> SeenKey(prices, k))
    && (forall k | k in newest :: IsMaxDate(prices, k, newest[k]))
  }

  lemma DatesAreOrdered(a: string, b: string, c: string)
    ensures !Older(a, a)
    ensures Older(a, b) ==> !Older(b, a)
    ensures a != b ==> Older(a, b) || Older(b, a)
    ensures !Older(a, b) && !Older(b, c) ==> !Older(a, c)
  {
    CmpTextIsAnOrder(a, a, a);
    CmpTextIsAnOrder(a, b, c);
    CmpTextIsAnOrder(c, b, a);
    CmpTextIsAnOrder(a, c, b);
  }

  lemma MaxStep(prices: seq<Observation>, o: Observation, newest: map<Key, string>)
    requires AreMaxDates(prices, newest)
    ensures AreMaxDates(prices + [o],
              if o.key in newest && !Older(newest[o.key], o.observedAt) then newest else newest[o.key := o.observedAt])
  {
    var all := prices + [o];
    var keep := o.key in newest && !Older(newest[o.key], o.observedAt);
    var updated := if keep then newest else newest[o.key := o.observedAt];
    assert all[|prices|] == o && forall i | 0 <= i < |prices| :: all[i] == prices[i];
    forall k | k in updated ensures IsMaxDate(all, k, updated[k]) {
      MaxDateStep(prices, o, newest, k);
    }
  }

  lemma MaxDateStep(prices: seq<Observation>, o: Observation, newest: map<Key, string>, k: Key)
    requires AreMaxDates(prices, newest) && (k in newest || k == o.key)
    ensures var keep := k != o.key || (k in newest && !Older(newest[k], o.observedAt));
            IsMaxDate(prices + [o], k, if keep then newest[k] else o.observedAt)
  {
    var all := prices + [o];
    assert all[|prices|] == o && forall i | 0 <= i < |prices| :: all[i] == prices[i];
    DatesAreOrdered(o.observedAt, o.observedAt, o.observedAt);
    if k in newest {
      assert IsMaxDate(prices, k, newest[k]);
      forall i | 0 <= i < |prices| && prices[i].key == k && Older(newest[k], o.observedAt)
        ensures !Older(o.observedAt, prices[i].observedAt)
      {
        DatesAreOrdered(newest[k], o.observedAt, "");
        DatesAreOrdered(o.observedAt, newest[k], prices[i].observedAt);
      }
    }
  }

  method NewestDates(prices: seq<Observation>) returns (newest: map<Key, string>)
    ensures AreMaxDates(prices, newest)
    ensures forall k :: k in newest <==> exists i | 0 <= i < |prices| :: prices[i].key == k
    ensures forall k | k in newest :: IsLastDate(prices, k, newest[k])
  {
    newest := map[];
    for i := 0 to |prices|
      invariant AreMaxDates(prices[..i], newest)
    {
      var o := prices[i];
      MaxStep(prices[..i], o, newest);
      assert prices[..i + 1] == prices[..i] + [o];
      if o.key !in newest || Older(newest[o.key], o.observedAt) {
        newest := newest[o.key := o.observedAt];
      }
    }
    assert prices[..|prices|] == prices;
    forall k | k in newest ensures IsLastDate(prices, k, newest[k]) {
      LastDateMeaning(prices, k, newest[k]);
    }
  }

  /** A date the key was observed on, after which it was not observed. */
  predicate IsLastDate(prices: seq<Observation>, k: Key, date: string) {
    && (exists i | 0 <= i < |prices| :: prices[i].key == k && prices[i].observedAt == date)
    && forall i | 0 <= i < |prices| && prices[i].key == k :: !TextBefore(date, prices[i].observedAt)
  }

  lemma LastDateMeaning(prices: seq<Observation>, k: Key, date: string)
    ensures IsMaxDate(prices, k, date) <==> IsLastDate(prices, k, date)
  {
    forall i | 0 <= i < |prices| ensures Older(date, prices[i].observedAt) <==> TextBefore(date, prices[i].observedAt) {
      OlderMeaning(date, prices[i].observedAt);
    }
  }

  lemma JoinIsNewest(prices: seq<Observation>, newest: map<Key, string>, o: Observation)
    requires AreMaxDates(prices, newest) && o in prices && o.key in newest
    ensures o.observedAt == newest[o.key] <==> IsNewest(prices, o)
  {
    assert IsMaxDate(prices, o.key, newest[o.key]);
    DatesAreOrdered(o.observedAt, newest[o.key], "");
  }

  // ----- The table agrees with the history -----

  function OfKey(k: Key): Observation -> bool {
    (o: Observation) => o.key == k
  }

  function Lookup(latest: seq<Observation>, k: Key): Option<Observation> {
    FirstWhere(OfKey(k), latest)
  }

  /** Walking the whole history and remembering the newest observation of a key. */
  function Scan(prices: seq<Observation>, k: Key): Option<Observation> {
    if prices == [] then None
    else
      var best, o := Scan(prices[..|prices| - 1], k), prices[|prices| - 1];
      if o.key == k && (best.None? || Older(best.value.observedAt, o.observedAt)) then Some(o) else best
  }

  lemma {:induction false} ScanMeaning(prices: seq<Observation>, k: Key)
    ensures Scan(prices, k).Some? <==> SeenKey(prices, k)
    ensures Scan(prices, k).Some? ==>
              var o := Scan(prices, k).value; o in prices && o.key == k && IsNewest(prices, o)
  {
    if prices != [] {
      var front, o := prices[..|prices| - 1], prices[|prices| - 1];
      ScanMeaning(front, k);
      assert prices == front + [o];
      ScanStep(front, k, o);
    }
  }

  lemma ScanStep(front: seq<Observation>, k: Key, o: Observation)
    requires Scan(front, k).Some? <==> SeenKey(front, k)
    requires Scan(front, k).Some? ==>
               var p := Scan(front, k).value; p in front && p.key == k && IsNewest(front, p)
    ensures var r, all := Scan(front + [o], k), front + [o];
            && (r.Some? <==> SeenKey(all, k))
            && (r.Some? ==> r.value in all && r.value.key == k && IsNewest(all, r.value))
  {
    var all := front + [o];
    assert all[..|all| - 1] == front && all[|front|] == o;
    assert forall i | 0 <= i < |front| :: all[i] == front[i];
    var best := Scan(front, k);
    DatesAreOrdered(o.observedAt, o.observedAt, "");
    if best.Some? && o.key == k && Older(best.value.observedAt, o.observedAt) {
      forall i | 0 <= i < |front| && front[i].key == k ensures !Older(o.observedAt, front[i].observedAt) {
        DatesAreOrdered(best.value.observedAt, o.observedAt, "");
        DatesAreOrdered(o.observedAt, best.value.observedAt, front[i].observedAt);
      }
    }
  }

  lemma ScanIsLatest(prices: seq<Observation>, k: Key)
    ensures Scan(prices, k).Some? ==>
              var o := Scan(prices, k).value;
              && o in prices && o.key == k
              && forall p | p in prices && p.key == k :: !TextBefore(o.observedAt, p.observedAt)
    ensures Scan(prices, k).None? ==> forall p | p in prices :: p.key != k
  {
    ScanMeaning(prices, k);
    if Scan(prices, k).Some? {
      RefreshKeepsTheLatest(prices, Scan(prices, k).value);
      FilterMembers(Newest(prices), prices, Scan(prices, k).value);
    }
  }

  /** With one price a day a key has one newest observation. */
  lemma NewestIsUnique(prices: seq<Observation>, a: Observation, b: Observation)
    requires OnePriceADay(prices) && a in prices && b in prices && a.key == b.key
    requires IsNewest(prices, a) && IsNewest(prices, b)
    ensures a == b
  {
    var i :| 0 <= i < |prices| && prices[i] == a;
    var j :| 0 <= j < |prices| && prices[j] == b;
    DatesAreOrdered(a.observedAt, b.observedAt, "");
  }

  /** After a refresh, looking a key up gives what a scan of the history for its newest observation
      gives. */
  lemma LookupIsTheScan(prices: seq<Observation>, k: Key)
    requires OnePriceADay(prices)
    ensures Lookup(Refreshed(prices), k) == Scan(prices, k)
    ensures Scan(prices, k).Some? ==>
              var o := Scan(prices, k).value;
              && o in prices && o.key == k
              && forall p | p in prices && p.key == k :: !TextBefore(o.observedAt, p.observedAt)
    ensures Scan(prices, k).None? ==> forall p | p in prices :: p.key != k
  {
    ScanIsLatest(prices, k);
    var latest := Refreshed(prices);
    ScanMeaning(prices, k);
    FirstMeaning(OfKey(k), latest);
    if Lookup(latest, k).Some? {
      var i :| IsFirst(OfKey(k), latest, i);
      assert latest[i] in prices && Newest(prices)(latest[i]);
      NewestIsUnique(prices, latest[i], Scan(prices, k).value);
    }
  }

  predicate DistinctRows(latest: seq<Observation>) {
    forall i, j | 0 <= i < j < |latest| :: latest[i].key != latest[j].key
  }

  /** One row for each key of the history. */
  lemma OneRowPerKey(prices: seq<Observation>)
    requires OnePriceADay(prices)
    ensures DistinctRows(Refreshed(prices))
    ensures forall k :: SeenKey(Refreshed(prices), k) <==> SeenKey(prices, k)
  {
    forall i, j | 0 <= i < j < |prices| && IsNewest(prices, prices[i]) && IsNewest(prices, prices[j])
      ensures prices[i].key != prices[j].key
    {
      if prices[i].key == prices[j].key {
        NewestIsUnique(prices, prices[i], prices[j]);
      }
    }
    FilterKeepsApart(Newest(prices), prices);
    forall k ensures SeenKey(Refreshed(prices), k) <==> SeenKey(prices, k) {
      LookupIsTheScan(prices, k);
      ScanMeaning(prices, k);
      FirstMeaning(OfKey(k), Refreshed(prices));
      assert SeenKey(Refreshed(prices), k) <==> !NoneOf(OfKey(k), Refreshed(prices));
    }
  }

  lemma {:induction false} FilterKeepsApart(p: Observation -> bool, s: seq<Observation>)
    requires forall i, j | 0 <= i < j < |s| && p(s[i]) && p(s[j]) :: s[i].key != s[j].key
    ensures DistinctRows(Filter(p, s))
  {
    if s != [] {
      FilterKeepsApart(p, s[1..]);
      if p(s[0]) {
        forall o | o in Filter(p, s[1..]) ensures o.key != s[0].key {
          assert o in s[1..];
        }
      }
    }
  }

  // ----- Appending newer observations -----

  /** Every added observation is newer than what the history had for its key. */
  predicate AllNewer(prices: seq<Observation>, more: seq<Observation>) {
    forall i, j | 0 <= i < |prices| && 0 <= j < |more| && prices[i].key == more[j].key ::
      Older(prices[i].observedAt, more[j].observedAt)
  }

  function NotIn(more: seq<Observation>): Observation -> bool {
    (o: Observation) => !SeenKey(more, o.key)
  }

  function NewestAndUntouched(prices: seq<Observation>, more: seq<Observation>): Observation -> bool {
    (o: Observation) => Newest(prices)(o) && NotIn(more)(o)
  }

  lemma OldRows(prices: seq<Observation>, more: seq<Observation>)
    requires AllNewer(prices, more)
    ensures Filter(Newest(prices + more), prices) == Filter(NotIn(more), Refreshed(prices))
  {
    var both := NewestAndUntouched(prices, more);
    forall o | o in prices ensures Newest(prices + more)(o) == both(o) {
      NewestAmongOld(prices, more, o);
      assert Newest(prices)(o) == IsNewest(prices, o) && NotIn(more)(o) == !SeenKey(more, o.key);
      assert both(o) == (Newest(prices)(o) && NotIn(more)(o));
    }
    FilterAgrees(Newest(prices + more), both, prices);
    FilterTwice(Newest(prices), NotIn(more), both, prices);
  }

  lemma NewRows(prices: seq<Observation>, more: seq<Observation>)
    requires AllNewer(prices, more)
    ensures Filter(Newest(prices + more), more) == Refreshed(more)
  {
    forall o | o in more ensures Newest(prices + more)(o) == Newest(more)(o) {
      NewestAmongMore(prices, more, o);
    }
    FilterAgrees(Newest(prices + more), Newest(more), more);
  }

  /** Refreshing after an append of newer observations replaces the rows of the keys that were observed and
      leaves the others. */
  lemma AppendedPricesReplaceTheirKeys(prices: seq<Observation>, more: seq<Observation>)
    requires AllNewer(prices, more)
    ensures Refreshed(prices + more) == Filter(NotIn(more), Refreshed(prices)) + Refreshed(more)
  {
    FilterAppends(Newest(prices + more), prices, more);
    OldRows(prices, more);
    NewRows(prices, more);
  }

  lemma {:induction false} FilterAgrees(p: Observation -> bool, q: Observation -> bool, s: seq<Observation>)
    requires forall o | o in s :: p(o) == q(o)
    ensures Filter(p, s) == Filter(q, s)
  {
    if s != [] {
      FilterAgrees(p, q, s[1..]);
    }
  }

  lemma NewestAmongMore(prices: seq<Observation>, more: seq<Observation>, o: Observation)
    requires AllNewer(prices, more) && o in more
    ensures IsNewest(prices + more, o) <==> IsNewest(more, o)
  {
    var all := prices + more;
    assert forall i | 0 <= i < |prices| :: all[i] == prices[i];
    assert forall j | 0 <= j < |more| :: all[|prices| + j] == more[j];
    var j :| 0 <= j < |more| && more[j] == o;
    forall i | 0 <= i < |prices| && prices[i].key == o.key ensures !Older(o.observedAt, prices[i].observedAt) {
      DatesAreOrdered(prices[i].observedAt, more[j].observedAt, "");
    }
    forall i | 0 <= i < |all| && all[i].key == o.key && i >= |prices| ensures all[i] == more[i - |prices|] {}
  }

  lemma NewestAmongOld(prices: seq<Observation>, more: seq<Observation>, o: Observation)
    requires AllNewer(prices, more) && o in prices
    ensures IsNewest(prices + more, o) <==> IsNewest(prices, o) && !SeenKey(more, o.key)
  {
    var all := prices + more;
    assert forall i | 0 <= i < |prices| :: all[i] == prices[i];
    assert forall j | 0 <= j < |more| :: all[|prices| + j] == more[j];
    assert forall k | |prices| <= k < |all| :: all[k] == more[k - |prices|];
    var i :| 0 <= i < |prices| && prices[i] == o;
    if SeenKey(more, o.key) {
      var j :| 0 <= j < |more| && more[j].key == o.key;
      assert Older(prices[i].observedAt, more[j].observedAt);
      assert all[|prices| + j].key == o.key;
    }
  }
}
