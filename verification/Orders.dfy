/** Rust's `Ordering`, and lexicographic comparison of sequences, which is how both `str` and the
    chunk lists of the natural order are compared. */
module Orders {
  datatype Ordering = Less | Equal | Greater {
    function Flip(): Ordering {
      match this
      case Less => Greater
      case Equal => Equal
      case Greater => Less
    }
  }

  function CmpInt(a: int, b: int): Ordering {
    if a < b then Less else if a > b then Greater else Equal
  }

  function CmpChar(a: char, b: char): Ordering {
    CmpInt(a as int, b as int)
  }

  /** What transitivity says of x?y, y?z and x?z. */
  predicate Chains(xy: Ordering, yz: Ordering, xz: Ordering) {
    xy != Greater && yz != Greater ==> xz == (if xy == Less || yz == Less then Less else Equal)
  }

  /** A total preorder, given as a three-way comparison. */
  ghost predicate IsPreorder<T(!new)>(cmp: (T, T) -> Ordering) {
    && (forall x :: cmp(x, x) == Equal)
    && (forall x, y :: cmp(y, x) == cmp(x, y).Flip())
    && (forall x, y, z :: Chains(cmp(x, y), cmp(y, z), cmp(x, z)))
  }

  function LexCmp<T>(cmp: (T, T) -> Ordering, a: seq<T>, b: seq<T>): Ordering {
    if a == [] then (if b == [] then Equal else Less)
    else if b == [] then Greater
    else if cmp(a[0], b[0]) != Equal then cmp(a[0], b[0])
    else LexCmp(cmp, a[1..], b[1..])
  }

  /** One step of a comparison, seen from position i. */
  lemma LexStep<T>(cmp: (T, T) -> Ordering, a: seq<T>, b: seq<T>, i: nat)
    requires i <= |a| && i <= |b|
    ensures i < |a| && i < |b| ==>
              LexCmp(cmp, a[i..], b[i..])
              == if cmp(a[i], b[i]) != Equal then cmp(a[i], b[i]) else LexCmp(cmp, a[i + 1..], b[i + 1..])
    ensures i == |a| || i == |b| ==> LexCmp(cmp, a[i..], b[i..]) == CmpInt(|a|, |b|)
  {
    if i < |a| && i < |b| {
      assert a[i..][1..] == a[i + 1..] && b[i..][1..] == b[i + 1..];
    }
  }

  /** Walks the two lists side by side until they differ or one ends. */
  method Compare<T>(cmp: (T, T) -> Ordering, a: seq<T>, b: seq<T>) returns (ord: Ordering)
    ensures ord == LexCmp(cmp, a, b)
  {
    assert a[0..] == a && b[0..] == b;
    var i := 0;
    while i < |a| && i < |b|
      invariant i <= |a| && i <= |b|
      invariant LexCmp(cmp, a, b) == LexCmp(cmp, a[i..], b[i..])
    {
      ord := cmp(a[i], b[i]);
      LexStep(cmp, a, b, i);
      if ord != Equal {
        return;
      }
      i := i + 1;
    }
    LexStep(cmp, a, b, i);
    ord := CmpInt(|a|, |b|);
  }

  lemma {:induction false} LexRefl<T(!new)>(cmp: (T, T) -> Ordering, a: seq<T>)
    requires IsPreorder(cmp)
    ensures LexCmp(cmp, a, a) == Equal
  {
    if a != [] {
      LexRefl(cmp, a[1..]);
    }
  }

  lemma {:induction false} LexFlip<T(!new)>(cmp: (T, T) -> Ordering, a: seq<T>, b: seq<T>)
    requires IsPreorder(cmp)
    ensures LexCmp(cmp, b, a) == LexCmp(cmp, a, b).Flip()
  {
    if a != [] && b != [] {
      assert cmp(b[0], a[0]) == cmp(a[0], b[0]).Flip();
      LexFlip(cmp, a[1..], b[1..]);
    }
  }

  lemma {:induction false} LexChains<T(!new)>(cmp: (T, T) -> Ordering, a: seq<T>, b: seq<T>, c: seq<T>)
    requires IsPreorder(cmp)
    ensures Chains(LexCmp(cmp, a, b), LexCmp(cmp, b, c), LexCmp(cmp, a, c))
  {
    if a != [] && b != [] && c != [] {
      assert Chains(cmp(a[0], b[0]), cmp(b[0], c[0]), cmp(a[0], c[0]));
      LexChains(cmp, a[1..], b[1..], c[1..]);
    }
  }

  /** If only equal elements compare Equal, only equal sequences do. */
  lemma {:induction false} LexEqual<T(!new)>(cmp: (T, T) -> Ordering, a: seq<T>, b: seq<T>)
    requires forall x, y :: cmp(x, y) == Equal <==> x == y
    ensures LexCmp(cmp, a, b) == Equal <==> a == b
  {
    if a != [] && b != [] {
      LexEqual(cmp, a[1..], b[1..]);
      assert a == [a[0]] + a[1..] && b == [b[0]] + b[1..];
    }
  }

  /** Comparing sequences of one length from the other end: the last elements matter only if what
      comes before them ties. */
  lemma {:induction false} LexFromTheRight<T>(cmp: (T, T) -> Ordering, a: seq<T>, b: seq<T>, x: T, y: T)
    requires |a| == |b|
    ensures LexCmp(cmp, a + [x], b + [y]) == (if LexCmp(cmp, a, b) != Equal then LexCmp(cmp, a, b) else cmp(x, y))
  {
    if a == [] {
      assert LexCmp(cmp, [x], [y]) == if cmp(x, y) != Equal then cmp(x, y) else LexCmp(cmp, [x][1..], [y][1..]);
    } else {
      assert (a + [x])[1..] == a[1..] + [x] && (b + [y])[1..] == b[1..] + [y];
      LexFromTheRight(cmp, a[1..], b[1..], x, y);
    }
  }

  lemma LexOfOne<T>(cmp: (T, T) -> Ordering, x: T, y: T)
    ensures LexCmp(cmp, [x], [y]) == cmp(x, y)
  {
    assert [x][1..] == [] && [y][1..] == [];
  }

  /** A common beginning that ties with itself decides nothing. */
  lemma {:induction false} LexCommonPrefix<T(!new)>(cmp: (T, T) -> Ordering, p: seq<T>, a: seq<T>, b: seq<T>)
    requires IsPreorder(cmp)
    ensures LexCmp(cmp, p + a, p + b) == LexCmp(cmp, a, b)
  {
    if p == [] {
      assert p + a == a && p + b == b;
    } else {
      assert (p + a)[1..] == p[1..] + a && (p + b)[1..] == p[1..] + b;
      LexCommonPrefix(cmp, p[1..], a, b);
    }
  }

  // ----- What lexicographic order means -----

  lemma {:induction false} LexTies<T>(cmp: (T, T) -> Ordering, a: seq<T>, b: seq<T>)
    ensures LexCmp(cmp, a, b) == Equal
       <==> |a| == |b| && forall i | 0 <= i < |a| :: cmp(a[i], b[i]) == Equal
  {
    if a != [] && b != [] {
      LexTies(cmp, a[1..], b[1..]);
      assert forall i | 0 < i < |a| :: a[i] == a[1..][i - 1];
      assert forall i | 0 < i < |b| :: b[i] == b[1..][i - 1];
    }
  }

  /** The first place where the sequences differ is k, and there the first one ends or has the smaller
      element. */
  predicate LessAt<T>(cmp: (T, T) -> Ordering, a: seq<T>, b: seq<T>, k: int) {
    && 0 <= k <= |a| && k < |b|
    && (forall i | 0 <= i < k :: cmp(a[i], b[i]) == Equal)
    && (k < |a| ==> cmp(a[k], b[k]) == Less)
  }

  lemma {:induction false} LexMeaning<T>(cmp: (T, T) -> Ordering, a: seq<T>, b: seq<T>)
    ensures LexCmp(cmp, a, b) == Less <==> exists k :: LessAt(cmp, a, b, k)
  {
    if b != [] && (a == [] || cmp(a[0], b[0]) == Less) {
      assert LessAt(cmp, a, b, 0);
    } else if a != [] && b != [] && cmp(a[0], b[0]) == Equal {
      LexMeaning(cmp, a[1..], b[1..]);
      forall k | LessAt(cmp, a[1..], b[1..], k) ensures LessAt(cmp, a, b, k + 1) {
        assert forall i | 0 < i <= k :: a[i] == a[1..][i - 1] && b[i] == b[1..][i - 1];
      }
      forall k | LessAt(cmp, a, b, k) ensures k > 0 && LessAt(cmp, a[1..], b[1..], k - 1) {}
    } else {
      forall k ensures !LessAt(cmp, a, b, k) {}
    }
  }

  /** A text comes before another if it is a proper prefix of it, or has the character with the smaller
      code at the first place where they differ. */
  predicate TextBefore(a: string, b: string) {
    exists k: nat | k < |b| :: k <= |a| && a[..k] == b[..k] && (k == |a| || a[k] < b[k])
  }

  lemma TextOrder(a: string, b: string)
    ensures LexCmp(CmpChar, a, b) == Less <==> TextBefore(a, b)
  {
    LexMeaning(CmpChar, a, b);
    if TextBefore(a, b) {
      var k: nat :| k < |b| && k <= |a| && a[..k] == b[..k] && (k == |a| || a[k] < b[k]);
      forall i | 0 <= i < k ensures CmpChar(a[i], b[i]) == Equal {
        assert a[i] == a[..k][i] == b[..k][i];
      }
      assert LessAt(CmpChar, a, b, k);
    }
    if k :| LessAt(CmpChar, a, b, k) {
      assert a[..k] == b[..k];
    }
  }

  /** Sequences cut at one place: the tails matter only if the heads tie. */
  lemma {:induction false} LexInTwoParts<T>(cmp: (T, T) -> Ordering, a: seq<T>, x: seq<T>, b: seq<T>, y: seq<T>)
    requires |a| == |b|
    ensures LexCmp(cmp, a + x, b + y) == if LexCmp(cmp, a, b) != Equal then LexCmp(cmp, a, b) else LexCmp(cmp, x, y)
  {
    if a == [] {
      assert a + x == x && b + y == y;
    } else {
      assert (a + x)[1..] == a[1..] + x && (b + y)[1..] == b[1..] + y;
      LexInTwoParts(cmp, a[1..], x, b[1..], y);
    }
  }
}
