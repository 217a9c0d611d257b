/** Reading rows from a table: `query_row` takes the first one that matches, a loop collects all. */
module Queries {
  import opened StableSort
  import opened Wrappers

  function FirstWhere<T>(p: T -> bool, s: seq<T>): Option<T> {
    if s == [] then None else if p(s[0]) then Some(s[0]) else FirstWhere(p, s[1..])
  }

  /** The first place where `p` holds. */
  predicate IsFirst<T>(p: T -> bool, s: seq<T>, i: int) {
    0 <= i < |s| && p(s[i]) && forall j | 0 <= j < i :: !p(s[j])
  }

  /** The only place where `p` holds. */
  predicate OnlyAt<T>(p: T -> bool, s: seq<T>, i: int) {
    0 <= i < |s| && p(s[i]) && forall j | 0 <= j < |s| && j != i :: !p(s[j])
  }

  predicate NoneOf<T>(p: T -> bool, s: seq<T>) {
    forall j | 0 <= j < |s| :: !p(s[j])
  }

  lemma {:induction false} FirstMeaning<T>(p: T -> bool, s: seq<T>)
    ensures FirstWhere(p, s).None? <==> NoneOf(p, s)
    ensures forall i | IsFirst(p, s, i) :: FirstWhere(p, s) == Some(s[i])
    ensures FirstWhere(p, s).Some? ==> exists i :: IsFirst(p, s, i)
  {
    if s != [] {
      FirstMeaning(p, s[1..]);
      if p(s[0]) {
        assert IsFirst(p, s, 0);
      } else {
        forall i | IsFirst(p, s, i) ensures IsFirst(p, s[1..], i - 1) {}
        forall i | IsFirst(p, s[1..], i) ensures IsFirst(p, s, i + 1) {}
        assert NoneOf(p, s[1..]) ==> NoneOf(p, s);
      }
    }
  }

  lemma {:induction false} FilterAppends<T>(p: T -> bool, a: seq<T>, b: seq<T>)
    ensures Filter(p, a + b) == Filter(p, a) + Filter(p, b)
  {
    if a == [] {
      assert a + b == b;
    } else {
      assert (a + b)[1..] == a[1..] + b;
      FilterAppends(p, a[1..], b);
    }
  }

  /** A filter leaves one row exactly when there is a single place where the test holds. */
  lemma {:induction false} FilterMeaning<T>(p: T -> bool, s: seq<T>)
    ensures Filter(p, s) == [] <==> NoneOf(p, s)
    ensures |Filter(p, s)| == 1 <==> exists i :: OnlyAt(p, s, i)
    ensures forall i | OnlyAt(p, s, i) :: Filter(p, s) == [s[i]]
  {
    if s != [] {
      FilterMeaning(p, s[1..]);
      if p(s[0]) {
        assert NoneOf(p, s[1..]) <==> OnlyAt(p, s, 0);
      } else {
        forall i | OnlyAt(p, s, i) ensures OnlyAt(p, s[1..], i - 1) {}
        forall i | OnlyAt(p, s[1..], i) ensures OnlyAt(p, s, i + 1) {}
        assert NoneOf(p, s[1..]) ==> NoneOf(p, s);
      }
    }
  }

  lemma {:induction false} FilterTwice<T(!new)>(p: T -> bool, q: T -> bool, r: T -> bool, s: seq<T>)
    requires forall x :: r(x) <==> p(x) && q(x)
    ensures Filter(q, Filter(p, s)) == Filter(r, s)
  {
    if s != [] {
      FilterTwice(p, q, r, s[1..]);
      if p(s[0]) {
        assert ([s[0]] + Filter(p, s[1..]))[1..] == Filter(p, s[1..]);
      }
    }
  }

  lemma FirstOfTwo<T>(p: T -> bool, x: T, y: T)
    ensures p(x) ==> FirstWhere(p, [x, y]) == Some(x)
    ensures !p(x) && p(y) ==> FirstWhere(p, [x, y]) == Some(y)
  {
    assert [x, y][1..] == [y];
  }

  predicate FirstRow<T(==)>(p: T -> bool, s: seq<T>, x: T) {
    exists i | 0 <= i < |s| :: IsFirst(p, s, i) && s[i] == x
  }

  predicate OnlyRow<T(==)>(p: T -> bool, s: seq<T>, x: T) {
    exists i | 0 <= i < |s| :: OnlyAt(p, s, i) && s[i] == x
  }

  lemma FirstIff<T>(p: T -> bool, s: seq<T>, x: T)
    ensures FirstWhere(p, s) == Some(x) <==> FirstRow(p, s, x)
  {
    FirstMeaning(p, s);
    if FirstWhere(p, s) == Some(x) {
      var i :| IsFirst(p, s, i);
      assert s[i] == x;
    }
  }

  lemma OnlyIff<T>(p: T -> bool, s: seq<T>, x: T)
    ensures |Filter(p, s)| == 1 && Filter(p, s)[0] == x <==> OnlyRow(p, s, x)
  {
    FilterMeaning(p, s);
    if |Filter(p, s)| == 1 && Filter(p, s)[0] == x {
      var i :| OnlyAt(p, s, i);
      assert s[i] == x;
    }
  }

  lemma FilterSnoc<T>(p: T -> bool, s: seq<T>, x: T)
    ensures Filter(p, s + [x]) == Filter(p, s) + if p(x) then [x] else []
  {
    FilterAppends(p, s, [x]);
    assert [x][1..] == [];
  }

  lemma {:induction false} FilterCounts<T>(p: T -> bool, s: seq<T>, x: T)
    ensures multiset(Filter(p, s))[x] == if p(x) then multiset(s)[x] else 0
  {
    if s != [] {
      FilterCounts(p, s[1..], x);
      assert s == [s[0]] + s[1..];
    }
  }

  /** A test and its opposite share a list out. */
  lemma FilterPartitions<T(!new)>(p: T -> bool, q: T -> bool, s: seq<T>)
    requires forall x :: p(x) <==> !q(x)
    ensures multiset(Filter(p, s)) + multiset(Filter(q, s)) == multiset(s)
  {
    forall x ensures (multiset(Filter(p, s)) + multiset(Filter(q, s)))[x] == multiset(s)[x] {
      FilterCounts(p, s, x);
      FilterCounts(q, s, x);
    }
  }

  // ----- Sharing out by result -----

  function Oks<A, R, E>(r: A -> Result<R, E>, s: seq<A>): seq<R> {
    if s == [] then []
    else Oks(r, s[..|s| - 1]) + if r(s[|s| - 1]).Ok? then [r(s[|s| - 1]).value] else []
  }

  function Errs<A, R, E>(r: A -> Result<R, E>, s: seq<A>): seq<E> {
    if s == [] then []
    else Errs(r, s[..|s| - 1]) + if r(s[|s| - 1]).Err? then [r(s[|s| - 1]).error] else []
  }

  function IsOk<A, R, E>(r: A -> Result<R, E>): A -> bool {
    a => r(a).Ok?
  }

  function IsErr<A, R, E>(r: A -> Result<R, E>): A -> bool {
    a => r(a).Err?
  }

  lemma {:induction false} ResultsAppend<A, R, E>(r: A -> Result<R, E>, xs: seq<A>, ys: seq<A>)
    ensures Oks(r, xs + ys) == Oks(r, xs) + Oks(r, ys) && Errs(r, xs + ys) == Errs(r, xs) + Errs(r, ys)
  {
    if ys == [] {
      assert xs + ys == xs;
    } else {
      assert (xs + ys)[..|xs + ys| - 1] == xs + ys[..|ys| - 1];
      ResultsAppend(r, xs, ys[..|ys| - 1]);
    }
  }

  /** The results of one kind answer, one by one and in order, the inputs that give that kind. */
  lemma {:induction false} OksAnswer<A, R, E>(r: A -> Result<R, E>, s: seq<A>)
    ensures var good := Filter(IsOk(r), s);
            |good| == |Oks(r, s)| && forall i | 0 <= i < |good| :: r(good[i]) == Ok(Oks(r, s)[i])
  {
    if s != [] {
      OksAnswer(r, s[..|s| - 1]);
      FilterSnoc(IsOk(r), s[..|s| - 1], s[|s| - 1]);
      assert s == s[..|s| - 1] + [s[|s| - 1]];
    }
  }

  lemma {:induction false} ErrsAnswer<A, R, E>(r: A -> Result<R, E>, s: seq<A>)
    ensures var bad := Filter(IsErr(r), s);
            |bad| == |Errs(r, s)| && forall i | 0 <= i < |bad| :: r(bad[i]) == Err(Errs(r, s)[i])
  {
    if s != [] {
      ErrsAnswer(r, s[..|s| - 1]);
      FilterSnoc(IsErr(r), s[..|s| - 1], s[|s| - 1]);
      assert s == s[..|s| - 1] + [s[|s| - 1]];
    }
  }

  function Mapped<A, B>(g: A -> B, s: seq<A>): (r: seq<B>)
    ensures |r| == |s| && forall i | 0 <= i < |s| :: r[i] == g(s[i])
  {
    seq(|s|, i requires 0 <= i < |s| => g(s[i]))
  }

  /** Two tests that exclude each other pick, between them, what either of them would. */
  lemma {:induction false} DisjointPicks<A(!new), B>(
    p: A -> bool, q: A -> bool, either: A -> bool, g: A -> B, s: seq<A>)
    requires forall x :: either(x) <==> p(x) || q(x)
    requires forall x :: !(p(x) && q(x))
    ensures multiset(Mapped(g, Filter(p, s))) + multiset(Mapped(g, Filter(q, s)))
         == multiset(Mapped(g, Filter(either, s)))
  {
    if s != [] {
      DisjointPicks(p, q, either, g, s[1..]);
      MappedCons(p, g, s);
      MappedCons(q, g, s);
      MappedCons(either, g, s);
    }
  }

  lemma MappedCons<A, B>(p: A -> bool, g: A -> B, s: seq<A>)
    requires s != []
    ensures multiset(Mapped(g, Filter(p, s)))
         == multiset(Mapped(g, Filter(p, s[1..]))) + if p(s[0]) then multiset{g(s[0])} else multiset{}
  {
    if p(s[0]) {
      MappedPrepend(g, s[0], Filter(p, s[1..]));
    }
  }

  lemma MappedPrepend<A, B>(g: A -> B, x: A, s: seq<A>)
    ensures multiset(Mapped(g, [x] + s)) == multiset(Mapped(g, s)) + multiset{g(x)}
  {
    assert Mapped(g, [x] + s) == [g(x)] + Mapped(g, s);
  }

  // ----- Tables in another order -----

  lemma BringToFront<T>(table: seq<T>, x: T) returns (reordered: seq<T>)
    requires x in table
    ensures multiset(reordered) == multiset(table) && reordered != [] && reordered[0] == x
  {
    var i :| 0 <= i < |table| && table[i] == x;
    reordered := [x] + table[..i] + table[i + 1..];
    assert table == table[..i] + [x] + table[i + 1..];
  }

  /** What a first-row lookup gives in some order of the table: nothing if no row matches, else any of those
      that do. */
  predicate MayGive<T(==)>(p: T -> bool, table: seq<T>, x: Option<T>) {
    if NoneOf(p, table) then x.None? else x.Some? && x.value in table && p(x.value)
  }

  lemma FirstMayBeGiven<T>(p: T -> bool, table: seq<T>)
    ensures MayGive(p, table, FirstWhere(p, table))
  {
    FirstMeaning(p, table);
  }

  lemma AnyCanBeFirst<T>(p: T -> bool, table: seq<T>, x: Option<T>) returns (reordered: seq<T>)
    requires MayGive(p, table, x)
    ensures multiset(reordered) == multiset(table) && FirstWhere(p, reordered) == x
  {
    FirstMeaning(p, table);
    reordered := table;
    if x.Some? {
      reordered := BringToFront(table, x.value);
    }
  }

  lemma SameRows<T>(a: seq<T>, b: seq<T>, x: T)
    requires multiset(a) == multiset(b)
    ensures x in a <==> x in b
  {
    assert x in a <==> x in multiset(a);
    assert x in b <==> x in multiset(b);
  }

  lemma NoneInAnyOrder<T>(p: T -> bool, a: seq<T>, b: seq<T>)
    requires multiset(a) == multiset(b) && NoneOf(p, a)
    ensures NoneOf(p, b)
  {
    forall j | 0 <= j < |b| ensures !p(b[j]) {
      SameRows(a, b, b[j]);
      assert b[j] in b;
    }
  }

  lemma GivenInAnyOrder<T>(p: T -> bool, a: seq<T>, b: seq<T>, x: Option<T>)
    requires multiset(a) == multiset(b)
    ensures MayGive(p, a, x) <==> MayGive(p, b, x)
  {
    if NoneOf(p, a) {
      NoneInAnyOrder(p, a, b);
    }
    if NoneOf(p, b) {
      NoneInAnyOrder(p, b, a);
    }
    if x.Some? {
      SameRows(a, b, x.value);
    }
  }

  lemma FilterInAnyOrder<T(!new)>(p: T -> bool, a: seq<T>, b: seq<T>)
    requires multiset(a) == multiset(b)
    ensures multiset(Filter(p, a)) == multiset(Filter(p, b))
  {
    forall x ensures multiset(Filter(p, a))[x] == multiset(Filter(p, b))[x] {
      FilterCounts(p, a, x);
      FilterCounts(p, b, x);
    }
  }

  /** Being the only match does not depend on the order. */
  lemma OnlyInAnyOrder<T(!new)>(p: T -> bool, a: seq<T>, b: seq<T>, x: T)
    requires multiset(a) == multiset(b)
    ensures OnlyRow(p, a, x) <==> OnlyRow(p, b, x)
  {
    OnlyIff(p, a, x);
    OnlyIff(p, b, x);
    FilterInAnyOrder(p, a, b);
    OneElement(Filter(p, a), Filter(p, b), x);
  }

  lemma OneElement<T>(a: seq<T>, b: seq<T>, x: T)
    requires multiset(a) == multiset(b)
    ensures |a| == 1 && a[0] == x <==> |b| == 1 && b[0] == x
  {
    assert |a| == |multiset(a)| && |b| == |multiset(b)|;
    if |a| == 1 {
      assert a == [a[0]] && b == [b[0]];
      SameRows(a, b, a[0]);
    }
  }
}
