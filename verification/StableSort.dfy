/** Rust's stable `sort_by` and `retain`, and the laws the list views rely on. */
module StableSort {
  import opened Orders

  function Insert<T>(cmp: (T, T) -> Ordering, x: T, s: seq<T>): (r: seq<T>)
    ensures multiset(r) == multiset(s) + multiset{x}
  {
    if s == [] || cmp(x, s[0]) != Greater then
      assert [x] + s == [x] + s;
      [x] + s
    else
      assert s == [s[0]] + s[1..];
      [s[0]] + Insert(cmp, x, s[1..])
  }

  /** A stable sort: an element goes in front of those that compare equal to it and stood behind it. */
  function SortBy<T>(cmp: (T, T) -> Ordering, s: seq<T>): (r: seq<T>)
    ensures multiset(r) == multiset(s)
  {
    if s == [] then []
    else
      assert s == [s[0]] + s[1..];
      Insert(cmp, s[0], SortBy(cmp, s[1..]))
  }

  /** `retain`, and `filter` on an iterator. */
  function Filter<T>(p: T -> bool, s: seq<T>): (r: seq<T>)
    ensures forall x | x in r :: x in s && p(x)
    ensures forall x | x in s && p(x) :: x in r
    ensures |r| <= |s|
  {
    if s == [] then [] else if p(s[0]) then [s[0]] + Filter(p, s[1..]) else Filter(p, s[1..])
  }

  ghost predicate Sorted<T(!new)>(cmp: (T, T) -> Ordering, s: seq<T>) {
    forall i, j | 0 <= i < j < |s| :: cmp(s[i], s[j]) != Greater
  }

  ghost predicate Below<T(!new)>(cmp: (T, T) -> Ordering, x: T, s: seq<T>) {
    forall y | y in s :: cmp(x, y) != Greater
  }

  lemma SortedByHead<T(!new)>(cmp: (T, T) -> Ordering, s: seq<T>)
    requires s != []
    ensures Sorted(cmp, s) <==> Below(cmp, s[0], s[1..]) && Sorted(cmp, s[1..])
  {
    if Below(cmp, s[0], s[1..]) && Sorted(cmp, s[1..]) {
      forall i, j | 0 <= i < j < |s| ensures cmp(s[i], s[j]) != Greater {
        assert s[j] == s[1..][j - 1];
        if i > 0 {
          assert s[i] == s[1..][i - 1];
        }
      }
    }
    if Sorted(cmp, s) {
      forall y | y in s[1..] ensures cmp(s[0], y) != Greater {
        var k :| 0 <= k < |s[1..]| && s[1..][k] == y;
        assert s[k + 1] == y;
      }
    }
  }

  lemma {:induction false} InsertKeepsSorted<T(!new)>(cmp: (T, T) -> Ordering, x: T, s: seq<T>)
    requires IsPreorder(cmp) && Sorted(cmp, s)
    ensures Sorted(cmp, Insert(cmp, x, s))
  {
    var r := Insert(cmp, x, s);
    if s == [] {
    } else if cmp(x, s[0]) != Greater {
      SortedByHead(cmp, s);
      assert r[1..] == s;
      forall y | y in s ensures cmp(x, y) != Greater {
        assert Chains(cmp(x, s[0]), cmp(s[0], y), cmp(x, y));
        assert y == s[0] || y in s[1..];
      }
      SortedByHead(cmp, r);
    } else {
      SortedByHead(cmp, s);
      InsertKeepsSorted(cmp, x, s[1..]);
      assert r[1..] == Insert(cmp, x, s[1..]);
      forall y | y in r[1..] ensures cmp(s[0], y) != Greater {
        assert y in multiset(r[1..]);
        assert cmp(s[0], x) == cmp(x, s[0]).Flip();
      }
      SortedByHead(cmp, r);
    }
  }

  lemma {:induction false} SortBySorts<T(!new)>(cmp: (T, T) -> Ordering, s: seq<T>)
    requires IsPreorder(cmp)
    ensures Sorted(cmp, SortBy(cmp, s))
  {
    if s != [] {
      SortBySorts(cmp, s[1..]);
      InsertKeepsSorted(cmp, s[0], SortBy(cmp, s[1..]));
    }
  }

  lemma {:induction false} SortingSortedMovesNothing<T(!new)>(cmp: (T, T) -> Ordering, s: seq<T>)
    requires Sorted(cmp, s)
    ensures SortBy(cmp, s) == s
  {
    if s != [] {
      var rest := s[1..];
      assert s == [s[0]] + rest;
      SortedByHead(cmp, s);
      SortingSortedMovesNothing(cmp, rest);
      InsertInOrder(cmp, s[0], rest);
    }
  }

  lemma InsertInOrder<T(!new)>(cmp: (T, T) -> Ordering, x: T, s: seq<T>)
    requires Below(cmp, x, s)
    ensures Insert(cmp, x, s) == [x] + s
  {
    if s != [] {
      assert s[0] in s;
    }
  }

  lemma {:induction false} FilterKeepsSorted<T(!new)>(cmp: (T, T) -> Ordering, p: T -> bool, s: seq<T>)
    requires Sorted(cmp, s)
    ensures Sorted(cmp, Filter(p, s))
  {
    if s != [] {
      SortedByHead(cmp, s);
      FilterKeepsSorted(cmp, p, s[1..]);
      if p(s[0]) {
        var r := Filter(p, s);
        assert r[1..] == Filter(p, s[1..]);
        SortedByHead(cmp, r);
      }
    }
  }

  /** What filtering does to an insertion, in one place. */
  predicate InsertsAlike<T(==)>(cmp: (T, T) -> Ordering, p: T -> bool, x: T, s: seq<T>) {
    Filter(p, Insert(cmp, x, s)) == if p(x) then Insert(cmp, x, Filter(p, s)) else Filter(p, s)
  }

  lemma InsertInFront<T(!new)>(cmp: (T, T) -> Ordering, p: T -> bool, x: T, s: seq<T>)
    requires IsPreorder(cmp) && s != [] && Below(cmp, s[0], s[1..]) && cmp(x, s[0]) != Greater
    ensures InsertsAlike(cmp, p, x, s)
  {
    var f := Filter(p, s);
    assert ([x] + s)[1..] == s;
    if f != [] {
      assert f[0] in s;
      assert f[0] == s[0] || f[0] in s[1..];
      assert Chains(cmp(x, s[0]), cmp(s[0], f[0]), cmp(x, f[0]));
      assert cmp(s[0], s[0]) == Equal;
    }
  }

  lemma InsertFurtherOn<T(!new)>(cmp: (T, T) -> Ordering, p: T -> bool, x: T, s: seq<T>)
    requires s != [] && cmp(x, s[0]) == Greater && InsertsAlike(cmp, p, x, s[1..])
    ensures InsertsAlike(cmp, p, x, s)
  {
    var rest := Insert(cmp, x, s[1..]);
    assert ([s[0]] + rest)[1..] == rest;
    if p(s[0]) {
      assert ([s[0]] + Filter(p, s[1..]))[1..] == Filter(p, s[1..]);
    }
  }

  lemma {:induction false} FilterOfInsert<T(!new)>(cmp: (T, T) -> Ordering, p: T -> bool, x: T, s: seq<T>)
    requires IsPreorder(cmp) && Sorted(cmp, s)
    ensures InsertsAlike(cmp, p, x, s)
  {
    if s == [] {
      assert [x][1..] == [];
    } else {
      SortedByHead(cmp, s);
      if cmp(x, s[0]) != Greater {
        InsertInFront(cmp, p, x, s);
      } else {
        FilterOfInsert(cmp, p, x, s[1..]);
        InsertFurtherOn(cmp, p, x, s);
      }
    }
  }

  /** Filtering a sorted view is sorting the filtered rows. */
  lemma {:induction false} FilterCommutesWithSort<T(!new)>(cmp: (T, T) -> Ordering, p: T -> bool, s: seq<T>)
    requires IsPreorder(cmp)
    ensures Filter(p, SortBy(cmp, s)) == SortBy(cmp, Filter(p, s))
  {
    if s != [] {
      SortBySorts(cmp, s[1..]);
      FilterCommutesWithSort(cmp, p, s[1..]);
      FilterOfInsert(cmp, p, s[0], SortBy(cmp, s[1..]));
      if p(s[0]) {
        assert Filter(p, s)[1..] == Filter(p, s[1..]);
      }
    }
  }

  // ----- Stability -----

  function Ties<T>(cmp: (T, T) -> Ordering, x: T): T -> bool {
    y => cmp(x, y) == Equal
  }

  /** The sort keeps the order of rows that compare equal. */
  lemma {:induction false} SortIsStable<T(!new)>(cmp: (T, T) -> Ordering, s: seq<T>, x: T)
    requires IsPreorder(cmp)
    ensures Filter(Ties(cmp, x), SortBy(cmp, s)) == Filter(Ties(cmp, x), s)
  {
    FilterCommutesWithSort(cmp, Ties(cmp, x), s);
    TiedRowsAreSorted(cmp, Filter(Ties(cmp, x), s), x);
    SortingSortedMovesNothing(cmp, Filter(Ties(cmp, x), s));
  }

  lemma TiedRowsAreSorted<T(!new)>(cmp: (T, T) -> Ordering, tied: seq<T>, x: T)
    requires IsPreorder(cmp)
    requires forall y | y in tied :: cmp(x, y) == Equal
    ensures Sorted(cmp, tied)
  {
    forall i, j | 0 <= i < j < |tied| ensures cmp(tied[i], tied[j]) != Greater {
      var (y, z) := (tied[i], tied[j]);
      assert y in tied && z in tied;
      assert cmp(y, x) == cmp(x, y).Flip();
      assert Chains(cmp(y, x), cmp(x, z), cmp(y, z));
    }
  }

  /** A sorted list that keeps equal rows in order is the stable sort: there is only one. */
  lemma StableSortIsUnique<T(!new)>(cmp: (T, T) -> Ordering, s: seq<T>, t: seq<T>)
    requires IsPreorder(cmp)
    ensures t == SortBy(cmp, s)
       <==> Sorted(cmp, t) && forall x :: Filter(Ties(cmp, x), t) == Filter(Ties(cmp, x), s)
  {
    var u := SortBy(cmp, s);
    SortBySorts(cmp, s);
    forall x ensures Filter(Ties(cmp, x), u) == Filter(Ties(cmp, x), s) {
      SortIsStable(cmp, s, x);
    }
    if Sorted(cmp, t) && forall x :: Filter(Ties(cmp, x), t) == Filter(Ties(cmp, x), s) {
      forall x ensures Filter(Ties(cmp, x), t) == Filter(Ties(cmp, x), u) {}
      SameTiesSameList(cmp, t, u);
    }
  }

  lemma {:induction false} SameTiesSameList<T(!new)>(cmp: (T, T) -> Ordering, t: seq<T>, u: seq<T>)
    requires IsPreorder(cmp) && Sorted(cmp, t) && Sorted(cmp, u)
    requires forall x :: Filter(Ties(cmp, x), t) == Filter(Ties(cmp, x), u)
    ensures t == u
  {
    assert u == [] || u[0] in Filter(Ties(cmp, u[0]), t);
    assert t == [] || t[0] in Filter(Ties(cmp, t[0]), u);
    if t != [] {
      HeadsAgree(cmp, t, u);
      SortedByHead(cmp, t);
      SortedByHead(cmp, u);
      forall x ensures Filter(Ties(cmp, x), t[1..]) == Filter(Ties(cmp, x), u[1..]) {
        assert Filter(Ties(cmp, x), t) == Filter(Ties(cmp, x), u);
        if Ties(cmp, x)(t[0]) {
          assert Filter(Ties(cmp, x), t)[1..] == Filter(Ties(cmp, x), t[1..]);
          assert Filter(Ties(cmp, x), u)[1..] == Filter(Ties(cmp, x), u[1..]);
        }
      }
      SameTiesSameList(cmp, t[1..], u[1..]);
      assert t == [t[0]] + t[1..] && u == [u[0]] + u[1..];
    }
  }

  lemma HeadsAgree<T(!new)>(cmp: (T, T) -> Ordering, t: seq<T>, u: seq<T>)
    requires IsPreorder(cmp) && Sorted(cmp, t) && Sorted(cmp, u) && t != [] && u != []
    requires forall x :: Filter(Ties(cmp, x), t) == Filter(Ties(cmp, x), u)
    ensures t[0] == u[0]
  {
    HeadIsNotAbove(cmp, t, u);
    HeadIsNotAbove(cmp, u, t);
    assert cmp(u[0], t[0]) == cmp(t[0], u[0]).Flip();
    assert Filter(Ties(cmp, t[0]), t)[0] == t[0] && Filter(Ties(cmp, t[0]), u)[0] == u[0];
  }

  lemma HeadIsNotAbove<T(!new)>(cmp: (T, T) -> Ordering, t: seq<T>, u: seq<T>)
    requires IsPreorder(cmp) && Sorted(cmp, u) && t != [] && u != []
    requires forall x :: Filter(Ties(cmp, x), t) == Filter(Ties(cmp, x), u)
    ensures cmp(u[0], t[0]) != Greater
  {
    assert t[0] in Filter(Ties(cmp, t[0]), t);
    assert t[0] in Filter(Ties(cmp, t[0]), u);
    var k :| 0 <= k < |u| && u[k] == t[0];
    assert cmp(u[0], u[0]) == Equal;
  }

  // ----- Ties broken by a key -----

  predicate Before<T>(cmp: (T, T) -> Ordering, id: T -> nat, x: T, y: T) {
    cmp(x, y) == Less || (cmp(x, y) == Equal && id(x) < id(y))
  }

  ghost predicate Ordered<T(!new)>(cmp: (T, T) -> Ordering, id: T -> nat, s: seq<T>) {
    forall i, j | 0 <= i < j < |s| :: Before(cmp, id, s[i], s[j])
  }

  ghost predicate Ascending<T(!new)>(id: T -> nat, s: seq<T>) {
    forall i, j | 0 <= i < j < |s| :: id(s[i]) < id(s[j])
  }

  lemma OrderedByHead<T(!new)>(cmp: (T, T) -> Ordering, id: T -> nat, s: seq<T>)
    requires s != []
    ensures Ordered(cmp, id, s)
       <==> (forall y | y in s[1..] :: Before(cmp, id, s[0], y)) && Ordered(cmp, id, s[1..])
  {
    if (forall y | y in s[1..] :: Before(cmp, id, s[0], y)) && Ordered(cmp, id, s[1..]) {
      forall i, j | 0 <= i < j < |s| ensures Before(cmp, id, s[i], s[j]) {
        assert s[j] == s[1..][j - 1];
        if i > 0 {
          assert s[i] == s[1..][i - 1];
        }
      }
    }
    if Ordered(cmp, id, s) {
      forall y | y in s[1..] ensures Before(cmp, id, s[0], y) {
        var k :| 0 <= k < |s[1..]| && s[1..][k] == y;
        assert s[k + 1] == y;
      }
    }
  }

  lemma {:induction false} InsertKeepsOrdered<T(!new)>(cmp: (T, T) -> Ordering, id: T -> nat, x: T, s: seq<T>)
    requires IsPreorder(cmp) && Ordered(cmp, id, s)
    requires forall y | y in s :: id(x) < id(y)
    ensures Ordered(cmp, id, Insert(cmp, x, s))
  {
    var r := Insert(cmp, x, s);
    if s == [] {
    } else if cmp(x, s[0]) != Greater {
      OrderedByHead(cmp, id, s);
      assert r[1..] == s;
      forall y | y in s ensures Before(cmp, id, x, y) {
        assert Chains(cmp(x, s[0]), cmp(s[0], y), cmp(x, y));
        assert y == s[0] || y in s[1..];
      }
      OrderedByHead(cmp, id, r);
    } else {
      OrderedByHead(cmp, id, s);
      InsertKeepsOrdered(cmp, id, x, s[1..]);
      assert r[1..] == Insert(cmp, x, s[1..]);
      forall y | y in r[1..] ensures Before(cmp, id, s[0], y) {
        assert y in multiset(r[1..]);
        assert cmp(s[0], x) == cmp(x, s[0]).Flip();
      }
      OrderedByHead(cmp, id, r);
    }
  }

  /** Rows read in id order and sorted stably are ordered by (comparison, id). */
  lemma {:induction false} SortOrdersById<T(!new)>(cmp: (T, T) -> Ordering, id: T -> nat, s: seq<T>)
    requires IsPreorder(cmp) && Ascending(id, s)
    ensures Ordered(cmp, id, SortBy(cmp, s))
  {
    if s != [] {
      SortOrdersById(cmp, id, s[1..]);
      forall y | y in SortBy(cmp, s[1..]) ensures id(s[0]) < id(y) {
        assert y in multiset(s[1..]);
        var k :| 0 <= k < |s[1..]| && s[1..][k] == y;
        assert s[k + 1] == y;
      }
      InsertKeepsOrdered(cmp, id, s[0], SortBy(cmp, s[1..]));
    }
  }

  /** Such an order is strict, so the same rows can be put into it in one way only. */
  lemma {:induction false} OneArrangement<T(!new)>(cmp: (T, T) -> Ordering, id: T -> nat, t: seq<T>, u: seq<T>)
    requires IsPreorder(cmp) && Ordered(cmp, id, t) && Ordered(cmp, id, u)
    requires forall x :: x in t <==> x in u
    ensures t == u
  {
    assert u == [] || u[0] in u;
    assert t == [] || t[0] in t;
    if t != [] {
      var k :| 0 <= k < |u| && u[k] == t[0];
      var m :| 0 <= m < |t| && t[m] == u[0];
      assert cmp(u[0], t[0]) == cmp(t[0], u[0]).Flip();
      assert t[0] == u[0];
      OrderedByHead(cmp, id, t);
      OrderedByHead(cmp, id, u);
      forall x ensures x in t[1..] <==> x in u[1..] {
        assert cmp(t[0], t[0]) == Equal;
        assert x in t <==> x == t[0] || x in t[1..];
        assert x in u <==> x == u[0] || x in u[1..];
      }
      OneArrangement(cmp, id, t[1..], u[1..]);
      assert t == [t[0]] + t[1..] && u == [u[0]] + u[1..];
    }
  }
}
