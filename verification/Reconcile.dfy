/** The userscript's reconciliation: candidates seen in captured responses become rows whose counts
    do not depend on the order in which the responses arrived. */
module Reconcile {
  import opened Wrappers
  import opened Orders
  import StableSort

  datatype Row = Row(setCode: string, ptcgoCode: string, number: string, variant: string,
                     language: string, notes: string, quantity: nat)

  /** `id` is the entry's own id, if it has one; `url` the response it was seen in. */
  datatype Candidate = Candidate(id: Option<string>, url: string, row: Row)

  function CardKey(r: Row): string {
    r.setCode + "|" + (r.ptcgoCode + "|" + (r.number + "|" + (r.variant + "|" + (r.language + "|" + r.notes))))
  }

  predicate HasId(c: Candidate) {
    c.id.Some? && c.id.value != ""
  }

  // ----- Folds over candidates -----

  function Max(a: nat, b: nat): nat {
    if a < b then b else a
  }

  function MaxOf(f: Candidate -> nat, s: seq<Candidate>): nat {
    if s == [] then 0 else Max(MaxOf(f, s[..|s| - 1]), f(s[|s| - 1]))
  }

  function SumOf(f: Candidate -> nat, s: seq<Candidate>): nat {
    if s == [] then 0 else SumOf(f, s[..|s| - 1]) + f(s[|s| - 1])
  }

  /** A candidate's quantity if it carries this id. */
  function WithId(id: string): Candidate -> nat {
    (c: Candidate) => if HasId(c) && c.id.value == id then c.row.quantity else 0
  }

  predicate OfCard(c: Candidate, key: string) {
    !HasId(c) && CardKey(c.row) == key
  }

  function WithKey(key: string): Candidate -> nat {
    (c: Candidate) => if OfCard(c, key) then c.row.quantity else 0
  }

  function WithKeyFrom(key: string, url: string): Candidate -> nat {
    (c: Candidate) => if OfCard(c, key) && c.url == url then c.row.quantity else 0
  }

  /** The largest quantity seen for an id. */
  function IdQuantity(s: seq<Candidate>, id: string): nat {
    MaxOf(WithId(id), s)
  }

  /** What one response says the id-less entries of a card add up to. */
  function UrlTotal(s: seq<Candidate>, key: string, url: string): nat {
    SumOf(WithKeyFrom(key, url), s)
  }

  function OwnUrlTotal(s: seq<Candidate>, key: string): Candidate -> nat {
    (c: Candidate) => if OfCard(c, key) then UrlTotal(s, key, c.url) else 0
  }

  /** The largest such total over the responses that mention the card. */
  function CardQuantity(s: seq<Candidate>, key: string): nat {
    MaxOf(OwnUrlTotal(s, key), s)
  }

  predicate SeenId(s: seq<Candidate>, id: string) {
    exists i | 0 <= i < |s| :: HasId(s[i]) && s[i].id.value == id
  }

  predicate SeenCard(s: seq<Candidate>, key: string) {
    exists i | 0 <= i < |s| :: OfCard(s[i], key)
  }

  predicate SeenAt(s: seq<Candidate>, key: string, url: string) {
    exists i | 0 <= i < |s| :: OfCard(s[i], key) && s[i].url == url
  }

  function CountIdless(s: seq<Candidate>): nat {
    if s == [] then 0 else CountIdless(s[..|s| - 1]) + (if HasId(s[|s| - 1]) then 0 else 1)
  }

  // ----- The loop -----

  /** What the map of ids holds for one id: the first row seen with it that has the largest quantity. */
  predicate IdTallied(s: seq<Candidate>, byId: map<string, Row>, id: string) {
    && (id in byId <==> SeenId(s, id))
    && (id in byId ==> byId[id].quantity == IdQuantity(s, id) && BestRow(s, id, byId[id]))
  }

  predicate Carries(c: Candidate, id: string) {
    id != "" && c.id == Some(id)
  }

  /** No earlier candidate with the id has as large a quantity, and no later one a larger. */
  predicate BestAt(s: seq<Candidate>, id: string, i: int) {
    && 0 <= i < |s| && Carries(s[i], id)
    && (forall j | 0 <= j < i && Carries(s[j], id) :: s[j].row.quantity < s[i].row.quantity)
    && (forall j | i < j < |s| && Carries(s[j], id) :: s[j].row.quantity <= s[i].row.quantity)
  }

  predicate BestRow(s: seq<Candidate>, id: string, row: Row) {
    exists i | 0 <= i < |s| :: BestAt(s, id, i) && s[i].row == row
  }

  /** The last row seen of a card. */
  predicate LastAt(s: seq<Candidate>, key: string, i: int) {
    0 <= i < |s| && OfCard(s[i], key) && forall j | i < j < |s| :: !OfCard(s[j], key)
  }

  predicate LastRow(s: seq<Candidate>, key: string, row: Row) {
    exists i | 0 <= i < |s| :: LastAt(s, key, i) && s[i].row == row
  }

  predicate RowTallied(s: seq<Candidate>, keyRow: map<string, Row>, k: string) {
    && (k in keyRow <==> SeenCard(s, k))
    && (k in keyRow ==> CardKey(keyRow[k]) == k && LastRow(s, k, keyRow[k]))
  }

  ghost predicate RowsTallied(s: seq<Candidate>, keyRow: map<string, Row>) {
    forall k :: RowTallied(s, keyRow, k)
  }

  predicate FirstWithId(s: seq<Candidate>, id: string, i: int) {
    0 <= i < |s| && Carries(s[i], id) && forall j | 0 <= j < i :: !Carries(s[j], id)
  }

  predicate FirstOfCard(s: seq<Candidate>, key: string, i: int) {
    0 <= i < |s| && OfCard(s[i], key) && forall j | 0 <= j < i :: !OfCard(s[j], key)
  }

  /** The ids, and the cards, in the order in which they were first seen. */
  ghost predicate IdsInOrder(s: seq<Candidate>, ids: seq<string>) {
    forall i, j, a, b | 0 <= i < j < |ids| && FirstWithId(s, ids[i], a) && FirstWithId(s, ids[j], b) :: a < b
  }

  ghost predicate CardsInOrder(s: seq<Candidate>, keys: seq<string>) {
    forall i, j, a, b | 0 <= i < j < |keys| && FirstOfCard(s, keys[i], a) && FirstOfCard(s, keys[j], b) :: a < b
  }

  /** What the map of cards holds for one card and one response. */
  predicate CardTallied(s: seq<Candidate>, byKey: map<string, map<string, nat>>, k: string, u: string) {
    && (k in byKey <==> SeenCard(s, k))
    && (k in byKey ==> (u in byKey[k] <==> SeenAt(s, k, u)))
    && (k in byKey && u in byKey[k] ==> byKey[k][u] == UrlTotal(s, k, u))
  }

  ghost predicate IdsTallied(s: seq<Candidate>, byId: map<string, Row>) {
    forall id :: IdTallied(s, byId, id)
  }

  ghost predicate CardsTallied(s: seq<Candidate>, byKey: map<string, map<string, nat>>) {
    forall k, u :: CardTallied(s, byKey, k, u)
  }

  lemma FoldStep(s: seq<Candidate>, c: Candidate, f: Candidate -> nat)
    ensures MaxOf(f, s + [c]) == Max(MaxOf(f, s), f(c)) && SumOf(f, s + [c]) == SumOf(f, s) + f(c)
  {
    assert (s + [c])[..|s|] == s;
  }

  lemma SeenStep(s: seq<Candidate>, c: Candidate, id: string, k: string, u: string)
    ensures SeenId(s + [c], id) <==> SeenId(s, id) || (HasId(c) && c.id.value == id)
    ensures SeenCard(s + [c], k) <==> SeenCard(s, k) || OfCard(c, k)
    ensures SeenAt(s + [c], k, u) <==> SeenAt(s, k, u) || (OfCard(c, k) && c.url == u)
  {
    var t := s + [c];
    assert t[|s|] == c && forall i | 0 <= i < |s| :: t[i] == s[i];
  }

  lemma {:induction false} UnseenIsZero(s: seq<Candidate>, id: string, key: string, url: string)
    ensures !SeenId(s, id) ==> IdQuantity(s, id) == 0
    ensures !SeenAt(s, key, url) ==> UrlTotal(s, key, url) == 0
  {
    if s != [] {
      var front := s[..|s| - 1];
      UnseenIsZero(front, id, key, url);
      SeenStep(front, s[|s| - 1], id, key, url);
      assert front + [s[|s| - 1]] == s;
    }
  }

  function PutId(byId: map<string, Row>, c: Candidate): map<string, Row>
    requires HasId(c)
  {
    var id := c.id.value;
    if id !in byId || c.row.quantity > byId[id].quantity then byId[id := c.row] else byId
  }

  function PutCard(byKey: map<string, map<string, nat>>, c: Candidate): map<string, map<string, nat>> {
    var k := CardKey(c.row);
    var perUrl: map<string, nat> := if k in byKey then byKey[k] else map[];
    byKey[k := perUrl[c.url := (if c.url in perUrl then perUrl[c.url] else 0) + c.row.quantity]]
  }

  /** A candidate with a larger quantity takes over; one with as large a quantity or less does not. */
  lemma BestStep(s: seq<Candidate>, c: Candidate, id: string, row: Row)
    requires BestRow(s, id, row)
    ensures Carries(c, id) && c.row.quantity > row.quantity ==> BestRow(s + [c], id, c.row)
    ensures !(Carries(c, id) && c.row.quantity > row.quantity) ==> BestRow(s + [c], id, row)
  {
    var t := s + [c];
    assert t[|s|] == c && forall i | 0 <= i < |s| :: t[i] == s[i];
    var i :| 0 <= i < |s| && BestAt(s, id, i) && s[i].row == row;
    if Carries(c, id) && c.row.quantity > row.quantity {
      forall j | 0 <= j < |s| && Carries(t[j], id) ensures t[j].row.quantity < c.row.quantity {
        assert Carries(s[j], id);
      }
      assert BestAt(t, id, |s|);
    } else {
      assert BestAt(t, id, i);
    }
  }

  lemma FirstIsBest(s: seq<Candidate>, c: Candidate, id: string)
    requires Carries(c, id) && !SeenId(s, id)
    ensures BestRow(s + [c], id, c.row)
  {
    var t := s + [c];
    assert t[|s|] == c && forall i | 0 <= i < |s| :: t[i] == s[i];
    assert BestAt(t, id, |s|);
  }

  lemma LastStep(s: seq<Candidate>, c: Candidate, keyRow: map<string, Row>, k: string)
    requires RowTallied(s, keyRow, k)
    ensures HasId(c) ==> RowTallied(s + [c], keyRow, k)
    ensures !HasId(c) ==> RowTallied(s + [c], keyRow[CardKey(c.row) := c.row], k)
  {
    var t := s + [c];
    assert t[|s|] == c && forall i | 0 <= i < |s| :: t[i] == s[i];
    SeenStep(s, c, "", k, "");
    if OfCard(c, k) {
      assert LastAt(t, k, |s|);
    } else if k in keyRow {
      var i :| 0 <= i < |s| && LastAt(s, k, i) && s[i].row == keyRow[k];
      assert LastAt(t, k, i);
    }
  }

  lemma LastRowsStep(s: seq<Candidate>, c: Candidate, keyRow: map<string, Row>)
    requires RowsTallied(s, keyRow)
    ensures RowsTallied(s + [c], if HasId(c) then keyRow else keyRow[CardKey(c.row) := c.row])
  {
    var after := if HasId(c) then keyRow else keyRow[CardKey(c.row) := c.row];
    forall k ensures RowTallied(s + [c], after, k) {
      assert RowTallied(s, keyRow, k);
      LastStep(s, c, keyRow, k);
    }
  }

  lemma IdOrderStep(s: seq<Candidate>, c: Candidate, ids: seq<string>)
    requires IdsInOrder(s, ids) && forall id :: id in ids <==> SeenId(s, id)
    ensures IdsInOrder(s + [c], if HasId(c) && c.id.value !in ids then ids + [c.id.value] else ids)
  {
    var t := s + [c];
    var after := if HasId(c) && c.id.value !in ids then ids + [c.id.value] else ids;
    assert t[|s|] == c && forall i | 0 <= i < |s| :: t[i] == s[i];
    forall i, j, a, b | 0 <= i < j < |after| && FirstWithId(t, after[i], a) && FirstWithId(t, after[j], b)
      ensures a < b
    {
      assert after[i] == ids[i];
      assert ids[i] in ids;
      SeenFirst(s, c, ids[i], a);
      if j < |ids| {
        assert ids[j] in ids;
        SeenFirst(s, c, ids[j], b);
      } else {
        assert forall k | 0 <= k < |s| :: !Carries(s[k], after[j]);
      }
    }
  }

  lemma SeenFirst(s: seq<Candidate>, c: Candidate, id: string, a: int)
    requires SeenId(s, id) && FirstWithId(s + [c], id, a)
    ensures FirstWithId(s, id, a)
  {
    var t := s + [c];
    assert t[|s|] == c && forall i | 0 <= i < |s| :: t[i] == s[i];
    var k :| 0 <= k < |s| && HasId(s[k]) && s[k].id.value == id;
    assert Carries(t[k], id);
  }

  lemma CardOrderStep(s: seq<Candidate>, c: Candidate, keys: seq<string>)
    requires CardsInOrder(s, keys) && forall k :: k in keys <==> SeenCard(s, k)
    ensures CardsInOrder(s + [c], if !HasId(c) && CardKey(c.row) !in keys then keys + [CardKey(c.row)] else keys)
  {
    var t := s + [c];
    var after := if !HasId(c) && CardKey(c.row) !in keys then keys + [CardKey(c.row)] else keys;
    assert t[|s|] == c && forall i | 0 <= i < |s| :: t[i] == s[i];
    forall i, j, a, b | 0 <= i < j < |after| && FirstOfCard(t, after[i], a) && FirstOfCard(t, after[j], b)
      ensures a < b
    {
      assert after[i] == keys[i];
      assert keys[i] in keys;
      SeenFirstCard(s, c, keys[i], a);
      if j < |keys| {
        assert keys[j] in keys;
        SeenFirstCard(s, c, keys[j], b);
      } else {
        assert forall k | 0 <= k < |s| :: !OfCard(s[k], after[j]);
      }
    }
  }

  lemma SeenFirstCard(s: seq<Candidate>, c: Candidate, key: string, a: int)
    requires SeenCard(s, key) && FirstOfCard(s + [c], key, a)
    ensures FirstOfCard(s, key, a)
  {
    var t := s + [c];
    assert t[|s|] == c && forall i | 0 <= i < |s| :: t[i] == s[i];
    var k :| 0 <= k < |s| && OfCard(s[k], key);
    assert OfCard(t[k], key);
  }

  lemma IdStep(s: seq<Candidate>, c: Candidate, byId: map<string, Row>, id: string)
    requires IdTallied(s, byId, id)
    ensures HasId(c) ==> IdTallied(s + [c], PutId(byId, c), id)
    ensures !HasId(c) ==> IdTallied(s + [c], byId, id)
  {
    SeenStep(s, c, id, "", "");
    FoldStep(s, c, WithId(id));
    UnseenIsZero(s, id, "", "");
    if id in byId {
      BestStep(s, c, id, byId[id]);
    } else if Carries(c, id) {
      FirstIsBest(s, c, id);
    }
  }

  lemma CardStep(s: seq<Candidate>, c: Candidate, byKey: map<string, map<string, nat>>, k: string, u: string)
    requires CardTallied(s, byKey, k, u)
    ensures HasId(c) ==> CardTallied(s + [c], byKey, k, u)
    ensures !HasId(c) ==> CardTallied(s + [c], PutCard(byKey, c), k, u)
  {
    SeenStep(s, c, "", k, u);
    FoldStep(s, c, WithKeyFrom(k, u));
    UnseenIsZero(s, "", k, u);
    if SeenAt(s, k, u) {
      assert SeenCard(s, k);
    }
  }

  lemma TallyStep(s: seq<Candidate>, c: Candidate, byId: map<string, Row>, byKey: map<string, map<string, nat>>)
    requires IdsTallied(s, byId) && CardsTallied(s, byKey)
    ensures IdsTallied(s + [c], if HasId(c) then PutId(byId, c) else byId)
    ensures CardsTallied(s + [c], if HasId(c) then byKey else PutCard(byKey, c))
  {
    forall id { IdStep(s, c, byId, id); }
    forall k, u { CardStep(s, c, byKey, k, u); }
  }

  /** The order in which a map's keys were first inserted. */
  ghost predicate OrdersKeys<V>(order: seq<string>, m: map<string, V>) {
    && (forall i, j | 0 <= i < j < |order| :: order[i] != order[j])
    && (forall k :: k in order <==> k in m)
  }

  method TallyId(c: Candidate, byId: map<string, Row>, ids: seq<string>)
    returns (byId': map<string, Row>, ids': seq<string>)
    requires HasId(c) && OrdersKeys(ids, byId)
    ensures byId' == PutId(byId, c) && OrdersKeys(ids', byId')
    ensures ids' == if c.id.value in ids then ids else ids + [c.id.value]
  {
    byId', ids' := byId, ids;
    var id := c.id.value;
    if id !in byId {
      ids' := ids + [id];
    }
    if id !in byId || c.row.quantity > byId[id].quantity {
      byId' := byId[id := c.row];
    }
  }

  method TallyCard(c: Candidate, byKey: map<string, map<string, nat>>, keys: seq<string>)
    returns (byKey': map<string, map<string, nat>>, keys': seq<string>)
    requires OrdersKeys(keys, byKey)
    ensures byKey' == PutCard(byKey, c) && OrdersKeys(keys', byKey')
    ensures keys' == if CardKey(c.row) in keys then keys else keys + [CardKey(c.row)]
  {
    byKey', keys' := byKey, keys;
    var k := CardKey(c.row);
    if k !in byKey {
      keys' := keys + [k];
      byKey' := byKey[k := map[]];
    }
    var perUrl := byKey'[k];
    perUrl := perUrl[c.url := (if c.url in perUrl then perUrl[c.url] else 0) + c.row.quantity];
    byKey' := byKey'[k := perUrl];
  }

  method Tally(candidates: seq<Candidate>)
    returns (byId: map<string, Row>, byKey: map<string, map<string, nat>>, keyRow: map<string, Row>,
             idless: nat, ids: seq<string>, keys: seq<string>)
    ensures IdsTallied(candidates, byId) && CardsTallied(candidates, byKey) && RowsTallied(candidates, keyRow)
    ensures idless == CountIdless(candidates)
    ensures OrdersKeys(ids, byId) && OrdersKeys(keys, byKey)
    ensures IdsInOrder(candidates, ids) && CardsInOrder(candidates, keys)
  {
    byId, byKey, keyRow, idless, ids, keys := map[], map[], map[], 0, [], [];
    for i := 0 to |candidates|
      invariant IdsTallied(candidates[..i], byId) && CardsTallied(candidates[..i], byKey)
      invariant RowsTallied(candidates[..i], keyRow)
      invariant idless == CountIdless(candidates[..i])
      invariant OrdersKeys(ids, byId) && OrdersKeys(keys, byKey)
      invariant IdsInOrder(candidates[..i], ids) && CardsInOrder(candidates[..i], keys)
    {
      var c := candidates[i];
      assert candidates[..i] + [c] == candidates[..i + 1] && candidates[..i + 1][..i] == candidates[..i];
      TallyStep(candidates[..i], c, byId, byKey);
      LastRowsStep(candidates[..i], c, keyRow);
      TalliedOrders(candidates[..i], byId, byKey, ids, keys);
      IdOrderStep(candidates[..i], c, ids);
      CardOrderStep(candidates[..i], c, keys);
      if HasId(c) {
        byId, ids := TallyId(c, byId, ids);
      } else {
        idless := idless + 1;
        keyRow := keyRow[CardKey(c.row) := c.row];
        byKey, keys := TallyCard(c, byKey, keys);
      }
    }
    assert candidates[..|candidates|] == candidates;
  }

  // ----- Order does not matter -----

  lemma {:induction false} Pluck(f: Candidate -> nat, a: seq<Candidate>, x: Candidate, b: seq<Candidate>)
    ensures SumOf(f, a + [x] + b) == SumOf(f, a + b) + f(x)
    ensures MaxOf(f, a + [x] + b) == Max(MaxOf(f, a + b), f(x))
  {
    if b == [] {
      assert a + [x] + b == a + [x] && a + b == a;
      FoldStep(a, x, f);
    } else {
      var front, last := b[..|b| - 1], b[|b| - 1];
      Pluck(f, a, x, front);
      assert a + [x] + b == a + [x] + front + [last] && a + b == a + front + [last];
      FoldStep(a + [x] + front, last, f);
      FoldStep(a + front, last, f);
    }
  }

  lemma Split<T>(s: seq<T>, x: T) returns (before: seq<T>, after: seq<T>)
    requires x in multiset(s)
    ensures s == before + [x] + after && multiset(before + after) == multiset(s) - multiset{x}
  {
    var k :| 0 <= k < |s| && s[k] == x;
    before, after := s[..k], s[k + 1..];
    assert s == before + [x] + after;
  }

  /** A sum or a maximum over candidates depends only on which candidates there are. */
  lemma {:induction false} FoldsPermute(f: Candidate -> nat, a: seq<Candidate>, b: seq<Candidate>)
    requires multiset(a) == multiset(b)
    ensures SumOf(f, a) == SumOf(f, b) && MaxOf(f, a) == MaxOf(f, b)
    decreases |a|
  {
    if a == [] {
      assert |multiset(b)| == |b|;
    } else {
      var front, x := a[..|a| - 1], a[|a| - 1];
      assert a == front + [x];
      assert x in multiset(b);
      var before, after := Split(b, x);
      assert multiset(front) == multiset(a) - multiset{x};
      FoldsPermute(f, front, before + after);
      Pluck(f, before, x, after);
    }
  }

  lemma {:induction false} MaxOfAgrees(f: Candidate -> nat, g: Candidate -> nat, s: seq<Candidate>)
    requires forall c :: f(c) == g(c)
    ensures MaxOf(f, s) == MaxOf(g, s)
  {
    if s != [] {
      MaxOfAgrees(f, g, s[..|s| - 1]);
    }
  }

  /** Every quantity depends only on the multiset of candidates. */
  lemma QuantitiesIgnoreOrder(a: seq<Candidate>, b: seq<Candidate>, id: string, key: string)
    requires multiset(a) == multiset(b)
    ensures IdQuantity(a, id) == IdQuantity(b, id) && CardQuantity(a, key) == CardQuantity(b, key)
    ensures SeenId(a, id) == SeenId(b, id) && SeenCard(a, key) == SeenCard(b, key)
  {
    FoldsPermute(WithId(id), a, b);
    forall url { FoldsPermute(WithKeyFrom(key, url), a, b); }
    MaxOfAgrees(OwnUrlTotal(a, key), OwnUrlTotal(b, key), b);
    FoldsPermute(OwnUrlTotal(a, key), a, b);
    SeenIsMembership(a, b, id, key);
    SeenIsMembership(b, a, id, key);
  }

  lemma SeenIsMembership(a: seq<Candidate>, b: seq<Candidate>, id: string, key: string)
    requires multiset(a) == multiset(b)
    ensures SeenId(a, id) ==> SeenId(b, id)
    ensures SeenCard(a, key) ==> SeenCard(b, key)
  {
    forall c | c in a ensures c in b {
      assert c in multiset(a);
    }
    if SeenId(a, id) {
      var i :| 0 <= i < |a| && HasId(a[i]) && a[i].id.value == id;
      assert a[i] in a;
    }
    if SeenCard(a, key) {
      var i :| 0 <= i < |a| && OfCard(a[i], key);
      assert a[i] in a;
    }
  }

  // ----- Counts are never inflated -----

  lemma {:induction false} MaxBounds(f: Candidate -> nat, s: seq<Candidate>, bound: nat)
    ensures forall i | 0 <= i < |s| :: f(s[i]) <= MaxOf(f, s)
    ensures (forall i | 0 <= i < |s| :: f(s[i]) <= bound) ==> MaxOf(f, s) <= bound
    ensures MaxOf(f, s) > 0 ==> exists i | 0 <= i < |s| :: f(s[i]) == MaxOf(f, s)
  {
    if s != [] {
      MaxBounds(f, s[..|s| - 1], bound);
      assert forall i | 0 <= i < |s| - 1 :: s[i] == s[..|s| - 1][i];
    }
  }

  lemma {:induction false} SumBounds(f: Candidate -> nat, g: Candidate -> nat, s: seq<Candidate>)
    requires forall c :: f(c) <= g(c)
    ensures SumOf(f, s) <= SumOf(g, s)
    ensures forall i | 0 <= i < |s| :: f(s[i]) <= SumOf(f, s)
  {
    if s != [] {
      SumBounds(f, g, s[..|s| - 1]);
      assert forall i | 0 <= i < |s| - 1 :: s[i] == s[..|s| - 1][i];
    }
  }

  /** Seeing an entry again, with the same id and no larger a quantity, changes nothing; and an id's
      quantity is one that was really seen. */
  lemma RepeatedIdAddsNothing(s: seq<Candidate>, c: Candidate, id: string, key: string)
    requires HasId(c) && c.row.quantity <= IdQuantity(s, c.id.value)
    ensures IdQuantity(s + [c], id) == IdQuantity(s, id) && CardQuantity(s + [c], key) == CardQuantity(s, key)
  {
    FoldStep(s, c, WithId(id));
    forall url { FoldStep(s, c, WithKeyFrom(key, url)); }
    MaxOfAgrees(OwnUrlTotal(s + [c], key), OwnUrlTotal(s, key), s);
    FoldStep(s, c, OwnUrlTotal(s + [c], key));
  }

  lemma UrlTotalIsBounded(s: seq<Candidate>, key: string, url: string)
    ensures UrlTotal(s, key, url) <= SumOf(WithKey(key), s)
    ensures forall i | 0 <= i < |s| && OfCard(s[i], key) && s[i].url == url ::
              s[i].row.quantity <= UrlTotal(s, key, url)
  {
    SumBounds(WithKeyFrom(key, url), WithKey(key), s);
    assert forall i | 0 <= i < |s| && OfCard(s[i], key) && s[i].url == url ::
        WithKeyFrom(key, url)(s[i]) == s[i].row.quantity;
  }

  /** A card's quantity is at least every one of its candidates' and at most their sum. */
  lemma CardQuantityIsBounded(s: seq<Candidate>, key: string)
    ensures forall i | 0 <= i < |s| && OfCard(s[i], key) :: s[i].row.quantity <= CardQuantity(s, key)
    ensures CardQuantity(s, key) <= SumOf(WithKey(key), s)
  {
    var own := OwnUrlTotal(s, key);
    forall i | 0 <= i < |s| ensures own(s[i]) <= SumOf(WithKey(key), s)
                            ensures OfCard(s[i], key) ==> s[i].row.quantity <= own(s[i]) {
      UrlTotalIsBounded(s, key, s[i].url);
    }
    MaxBounds(own, s, SumOf(WithKey(key), s));
  }

  lemma {:induction false} SumsAgree(f: Candidate -> nat, g: Candidate -> nat, s: seq<Candidate>)
    requires forall i | 0 <= i < |s| :: f(s[i]) == g(s[i])
    ensures SumOf(f, s) == SumOf(g, s)
  {
    if s != [] {
      assert forall i | 0 <= i < |s| - 1 :: s[i] == s[..|s| - 1][i];
      SumsAgree(f, g, s[..|s| - 1]);
    }
  }

  /** Id-less entries of a card that all came from one response keep their sum. */
  lemma OneUrlKeepsItsSum(s: seq<Candidate>, key: string, url: string)
    requires forall i | 0 <= i < |s| && OfCard(s[i], key) :: s[i].url == url
    ensures CardQuantity(s, key) == SumOf(WithKey(key), s)
  {
    SumsAgree(WithKeyFrom(key, url), WithKey(key), s);
    var total := UrlTotal(s, key, url);
    MaxBounds(OwnUrlTotal(s, key), s, total);
    if total > 0 {
      SomeoneCounts(WithKey(key), s);
    }
  }

  lemma {:induction false} SomeoneCounts(f: Candidate -> nat, s: seq<Candidate>)
    requires SumOf(f, s) > 0
    ensures exists i | 0 <= i < |s| :: f(s[i]) > 0
  {
    if f(s[|s| - 1]) == 0 {
      SomeoneCounts(f, s[..|s| - 1]);
    }
  }

  /** Two responses that both list a card count it once: the larger total wins. */
  lemma TwoUrlsTakeTheLarger(s: seq<Candidate>, key: string, u: string, v: string)
    requires SeenAt(s, key, u) && SeenAt(s, key, v)
    requires forall i | 0 <= i < |s| && OfCard(s[i], key) :: s[i].url == u || s[i].url == v
    ensures CardQuantity(s, key) == Max(UrlTotal(s, key, u), UrlTotal(s, key, v))
  {
    MaxBounds(OwnUrlTotal(s, key), s, Max(UrlTotal(s, key, u), UrlTotal(s, key, v)));
  }

  // ----- The rows -----

  predicate IsLargest(m: map<string, nat>, q: nat) {
    (exists u | u in m :: m[u] == q) && forall u | u in m :: m[u] <= q
  }

  /** The largest of a map's values. */
  method MaxValue(m: map<string, nat>) returns (q: nat)
    requires m != map[]
    ensures IsLargest(m, q)
  {
    var first :| first in m;
    q := m[first];
    ghost var at := first;
    var rest := m.Keys;
    while rest != {}
      invariant at in m && m[at] == q && rest <= m.Keys
      invariant forall u | u in m && u !in rest :: m[u] <= q
      decreases |rest|
    {
      var u :| u in rest;
      if q < m[u] {
        q, at := m[u], u;
      }
      rest := rest - {u};
    }
  }

  lemma LargestIsTheQuantity(s: seq<Candidate>, byKey: map<string, map<string, nat>>, key: string, q: nat)
    requires CardsTallied(s, byKey) && key in byKey && IsLargest(byKey[key], q)
    ensures q == CardQuantity(s, key)
  {
    var perUrl := byKey[key];
    assert CardTallied(s, byKey, key, "");
    forall u ensures u in perUrl <==> SeenAt(s, key, u)
             ensures u in perUrl ==> perUrl[u] == UrlTotal(s, key, u) {
      assert CardTallied(s, byKey, key, u);
    }
    var own := OwnUrlTotal(s, key);
    forall i | 0 <= i < |s| ensures own(s[i]) <= q {
      if OfCard(s[i], key) {
        assert s[i].url in perUrl;
      }
    }
    MaxBounds(own, s, q);
    var at :| at in perUrl && perUrl[at] == q;
    var i :| 0 <= i < |s| && OfCard(s[i], key) && s[i].url == at;
    assert own(s[i]) == q;
  }

  lemma NothingSeenTwice(s: seq<Candidate>, byKey: map<string, map<string, nat>>, key: string)
    requires CardsTallied(s, byKey) && key in byKey
    ensures byKey[key] != map[]
  {
    assert CardTallied(s, byKey, key, "");
    var i :| 0 <= i < |s| && OfCard(s[i], key);
    assert CardTallied(s, byKey, key, s[i].url);
  }

  /** The candidates' rows: one for each id seen, then one for each card seen without an id. */
  ghost predicate IsReconciled(s: seq<Candidate>, rows: seq<Row>, ids: seq<string>, keys: seq<string>) {
    && |rows| == |ids| + |keys|
    && (forall i, j | 0 <= i < j < |ids| :: ids[i] != ids[j])
    && (forall i, j | 0 <= i < j < |keys| :: keys[i] != keys[j])
    && (forall id :: id in ids <==> SeenId(s, id))
    && (forall k :: k in keys <==> SeenCard(s, k))
    && IdsInOrder(s, ids) && CardsInOrder(s, keys)
    && (forall j | 0 <= j < |ids| :: RowOfId(s, ids[j], rows[j]))
    && (forall j | 0 <= j < |keys| :: RowOfCard(s, keys[j], rows[|ids| + j]))
  }

  /** The last row seen of the card, with the card's quantity. */
  predicate RowOfCard(s: seq<Candidate>, key: string, row: Row) {
    && CardKey(row) == key
    && exists i | 0 <= i < |s| :: LastAt(s, key, i) && row == s[i].row.(quantity := CardQuantity(s, key))
  }

  predicate RowOfId(s: seq<Candidate>, id: string, row: Row) {
    BestRow(s, id, row) && row.quantity == IdQuantity(s, id)
  }

  method IdRows(ghost s: seq<Candidate>, byId: map<string, Row>, ids: seq<string>) returns (rows: seq<Row>)
    requires IdsTallied(s, byId) && OrdersKeys(ids, byId)
    ensures |rows| == |ids| && forall j | 0 <= j < |ids| :: RowOfId(s, ids[j], rows[j])
  {
    rows := [];
    for i := 0 to |ids|
      invariant |rows| == i && forall j | 0 <= j < i :: ids[j] in byId && rows[j] == byId[ids[j]]
    {
      assert ids[i] in ids;
      rows := rows + [byId[ids[i]]];
    }
    forall j | 0 <= j < |ids| ensures RowOfId(s, ids[j], rows[j]) {
      assert IdTallied(s, byId, ids[j]);
    }
  }

  method CardRows(ghost s: seq<Candidate>, byKey: map<string, map<string, nat>>, keyRow: map<string, Row>,
                  keys: seq<string>)
    returns (rows: seq<Row>)
    requires CardsTallied(s, byKey) && OrdersKeys(keys, byKey) && RowsTallied(s, keyRow)
    ensures |rows| == |keys| && forall j | 0 <= j < |keys| :: RowOfCard(s, keys[j], rows[j])
  {
    rows := [];
    for i := 0 to |keys|
      invariant |rows| == i && forall j | 0 <= j < i :: RowOfCard(s, keys[j], rows[j])
    {
      var k := keys[i];
      assert k in keys;
      assert CardTallied(s, byKey, k, "") && RowTallied(s, keyRow, k);
      NothingSeenTwice(s, byKey, k);
      var q := MaxValue(byKey[k]);
      LargestIsTheQuantity(s, byKey, k, q);
      rows := rows + [keyRow[k].(quantity := q)];
    }
  }

  /** `localeCompare`, as the host has it. */
  type Collation = (string, string) -> Ordering

  function SetOf(r: Row): string {
    if r.setCode != "" then r.setCode else r.ptcgoCode
  }

  /** The display order: by set, then number, whose digits collate as numbers, then variant. */
  function RowOrder(text: Collation, numeric: Collation): (Row, Row) -> Ordering {
    (a: Row, b: Row) =>
      if text(SetOf(a), SetOf(b)) != Equal then text(SetOf(a), SetOf(b))
      else if numeric(a.number, b.number) != Equal then numeric(a.number, b.number)
      else text(a.variant, b.variant)
  }

  lemma RowOrderIsPreordered(text: Collation, numeric: Collation)
    requires IsPreorder(text) && IsPreorder(numeric)
    ensures IsPreorder(RowOrder(text, numeric))
  {
    forall a: Row, b: Row, c: Row
      ensures var cmp := RowOrder(text, numeric);
              cmp(a, a) == Equal && cmp(b, a) == cmp(a, b).Flip() && Chains(cmp(a, b), cmp(b, c), cmp(a, c))
    {
      assert Chains(text(SetOf(a), SetOf(b)), text(SetOf(b), SetOf(c)), text(SetOf(a), SetOf(c)));
      assert Chains(numeric(a.number, b.number), numeric(b.number, c.number), numeric(a.number, c.number));
      assert Chains(text(a.variant, b.variant), text(b.variant, c.variant), text(a.variant, c.variant));
    }
  }

  /** Two rows stand right: by set (its code, or its ptcgo code if that is empty), then by number, then by
      variant. */
  predicate StandRight(text: Collation, numeric: Collation, a: Row, b: Row) {
    var s, t := if a.setCode != "" then a.setCode else a.ptcgoCode, if b.setCode != "" then b.setCode else b.ptcgoCode;
    || text(s, t) == Less
    || (text(s, t) == Equal && numeric(a.number, b.number) == Less)
    || (text(s, t) == Equal && numeric(a.number, b.number) == Equal && text(a.variant, b.variant) != Greater)
  }

  lemma RowOrderMeaning(text: Collation, numeric: Collation, a: Row, b: Row)
    ensures RowOrder(text, numeric)(a, b) != Greater <==> StandRight(text, numeric, a, b)
  {
    var s, t := SetOf(a), SetOf(b);
    assert RowOrder(text, numeric)(a, b)
        == if text(s, t) != Equal then text(s, t)
           else if numeric(a.number, b.number) != Equal then numeric(a.number, b.number)
           else text(a.variant, b.variant);
    assert StandRight(text, numeric, a, b)
       <==> || text(s, t) == Less
            || (text(s, t) == Equal && numeric(a.number, b.number) == Less)
            || (text(s, t) == Equal && numeric(a.number, b.number) == Equal && text(a.variant, b.variant) != Greater);
  }

  /** `ids` and `keys` are the orders in which the two maps were filled, which is the order of the rows
      before the sort. */
  method Reconcile(candidates: seq<Candidate>, text: Collation, numeric: Collation)
    returns (rows: seq<Row>, idless: nat, withIds: nat, ghost before: seq<Row>, ghost ids: seq<string>,
             ghost keys: seq<string>)
    ensures IsReconciled(candidates, before, ids, keys)
    ensures multiset(rows) == multiset(before)
    ensures IsPreorder(text) && IsPreorder(numeric) ==> SortedFrom(RowOrder(text, numeric), before, rows)
    ensures IsPreorder(text) && IsPreorder(numeric) ==>
              forall i, j | 0 <= i < j < |rows| :: StandRight(text, numeric, rows[i], rows[j])
    ensures idless == CountIdless(candidates) && withIds == |ids|
  {
    var byId, byKey, keyRow, n, idOrder, keyOrder := Tally(candidates);
    idless, ids, keys, withIds := n, idOrder, keyOrder, |idOrder|;
    rows := IdRows(candidates, byId, idOrder);
    var cards := CardRows(candidates, byKey, keyRow, keyOrder);
    TalliedOrders(candidates, byId, byKey, ids, keys);
    before := rows + cards;
    rows := StableSort.SortBy(RowOrder(text, numeric), rows + cards);
    SortIsShown(text, numeric, before);
    forall i, j | 0 <= i < j < |rows| { RowOrderMeaning(text, numeric, rows[i], rows[j]); }
  }

  /** In order, with rows that tie left as they stood. */
  ghost predicate SortedFrom(cmp: (Row, Row) -> Ordering, before: seq<Row>, rows: seq<Row>) {
    && StableSort.Sorted(cmp, rows)
    && forall x ::
         StableSort.Filter(StableSort.Ties(cmp, x), rows) == StableSort.Filter(StableSort.Ties(cmp, x), before)
  }

  lemma SortIsShown(text: Collation, numeric: Collation, before: seq<Row>)
    ensures var cmp := RowOrder(text, numeric);
            IsPreorder(text) && IsPreorder(numeric) ==> SortedFrom(cmp, before, StableSort.SortBy(cmp, before))
  {
    if IsPreorder(text) && IsPreorder(numeric) {
      RowOrderIsPreordered(text, numeric);
      StableSort.StableSortIsUnique(RowOrder(text, numeric), before,
                                    StableSort.SortBy(RowOrder(text, numeric), before));
    }
  }

  lemma TalliedOrders(s: seq<Candidate>, byId: map<string, Row>, byKey: map<string, map<string, nat>>,
                      ids: seq<string>, keys: seq<string>)
    requires IdsTallied(s, byId) && CardsTallied(s, byKey) && OrdersKeys(ids, byId) && OrdersKeys(keys, byKey)
    ensures forall id :: id in ids <==> SeenId(s, id)
    ensures forall k :: k in keys <==> SeenCard(s, k)
  {
    forall id ensures id in ids <==> SeenId(s, id) { assert IdTallied(s, byId, id); }
    forall k ensures k in keys <==> SeenCard(s, k) { assert CardTallied(s, byKey, k, ""); }
  }

  // ----- When a key names one card -----

  predicate Plain(r: Row) {
    '|' !in r.setCode && '|' !in r.ptcgoCode && '|' !in r.number && '|' !in r.variant && '|' !in r.language
  }

  lemma FirstBar(a: string, x: string, s: string)
    requires '|' !in a && s == a + "|" + x
    ensures s[|a|] == '|' && (forall i | 0 <= i < |a| :: s[i] != '|') && s[..|a|] == a && s[|a| + 1..] == x
  {
  }

  lemma OneBar(a: string, x: string, b: string, y: string)
    requires '|' !in a && '|' !in b && a + "|" + x == b + "|" + y
    ensures a == b && x == y
  {
    FirstBar(a, x, a + "|" + x);
    FirstBar(b, y, a + "|" + x);
  }

  /** Two rows share a key exactly when they agree on all six fields, as long as only the notes may
      hold a bar. */
  lemma KeysTellCardsApart(r: Row, t: Row)
    requires Plain(r) && Plain(t)
    ensures CardKey(r) == CardKey(t) <==> r.(quantity := 0) == t.(quantity := 0)
  {
    if CardKey(r) == CardKey(t) {
      var r5, t5 := r.language + "|" + r.notes, t.language + "|" + t.notes;
      var r4, t4 := r.variant + "|" + r5, t.variant + "|" + t5;
      var r3, t3 := r.number + "|" + r4, t.number + "|" + t4;
      var r2, t2 := r.ptcgoCode + "|" + r3, t.ptcgoCode + "|" + t3;
      OneBar(r.setCode, r2, t.setCode, t2);
      OneBar(r.ptcgoCode, r3, t.ptcgoCode, t3);
      OneBar(r.number, r4, t.number, t4);
      OneBar(r.variant, r5, t.variant, t5);
      OneBar(r.language, r.notes, t.language, t.notes);
    }
  }

  // ----- Which cards are merged -----

  predicate NoBars(r: Row) {
    Plain(r) && '|' !in r.notes
  }

  predicate SameCard(r: Row, t: Row) {
    r.(quantity := 0) == t.(quantity := 0)
  }

  function Bars(s: string): nat {
    if s == "" then 0 else Bars(s[..|s| - 1]) + if s[|s| - 1] == '|' then 1 else 0
  }

  lemma {:induction false} BarsAdd(a: string, b: string)
    ensures Bars(a + b) == Bars(a) + Bars(b)
  {
    if b == "" {
      assert a + b == a;
    } else {
      assert (a + b)[..|a + b| - 1] == a + b[..|b| - 1];
      BarsAdd(a, b[..|b| - 1]);
    }
  }

  lemma {:induction false} BarsCount(s: string)
    ensures Bars(s) == 0 <==> '|' !in s
  {
    if s != "" {
      BarsCount(s[..|s| - 1]);
      assert s == s[..|s| - 1] + [s[|s| - 1]];
    }
  }

  lemma JoinBars(a: string, b: string)
    ensures Bars(a + "|" + b) == Bars(a) + 1 + Bars(b)
  {
    BarsAdd(a + "|", b);
    BarsAdd(a, "|");
    assert "|"[..0] == "";
  }

  lemma KeyBars(r: Row)
    ensures Bars(CardKey(r)) == 5 + Bars(r.setCode) + Bars(r.ptcgoCode) + Bars(r.number) + Bars(r.variant)
                              + Bars(r.language) + Bars(r.notes)
  {
    var k4 := r.language + "|" + r.notes;
    var k3 := r.variant + "|" + k4;
    var k2 := r.number + "|" + k3;
    var k1 := r.ptcgoCode + "|" + k2;
    JoinBars(r.language, r.notes);
    JoinBars(r.variant, k4);
    JoinBars(r.number, k3);
    JoinBars(r.ptcgoCode, k2);
    JoinBars(r.setCode, k1);
  }

  lemma AllBars(r: Row)
    ensures NoBars(r) <==> Bars(CardKey(r)) == 5
  {
    KeyBars(r);
    BarsCount(r.setCode);
    BarsCount(r.ptcgoCode);
    BarsCount(r.number);
    BarsCount(r.variant);
    BarsCount(r.language);
    BarsCount(r.notes);
  }

  lemma CutAtABar(s: string) returns (a: string, b: string)
    requires '|' in s
    ensures s == a + "|" + b
  {
    var i :| 0 <= i < |s| && s[i] == '|';
    a, b := s[..i], s[i + 1..];
  }

  lemma Regroup(a: string, b: string, k: string)
    ensures (a + "|" + b) + "|" + k == a + "|" + (b + "|" + k)
  {
  }

  /** A bar in a field splits it in two: the later fields move up and the notes take what is left over, or,
      for a bar in the notes, the first two fields become one. */
  lemma Shifted(r: Row) returns (t: Row)
    requires !NoBars(r)
    ensures CardKey(t) == CardKey(r) && !SameCard(r, t)
  {
    var rest := r.language + "|" + r.notes;
    if '|' in r.setCode {
      var a, b := CutAtABar(r.setCode);
      t := Row(a, b, r.ptcgoCode, r.number, r.variant, rest, 0);
      Regroup(a, b, r.ptcgoCode + "|" + (r.number + "|" + (r.variant + "|" + rest)));
    } else if '|' in r.ptcgoCode {
      var a, b := CutAtABar(r.ptcgoCode);
      t := Row(r.setCode, a, b, r.number, r.variant, rest, 0);
      Regroup(a, b, r.number + "|" + (r.variant + "|" + rest));
    } else if '|' in r.number {
      var a, b := CutAtABar(r.number);
      t := Row(r.setCode, r.ptcgoCode, a, b, r.variant, rest, 0);
      Regroup(a, b, r.variant + "|" + rest);
    } else if '|' in r.variant {
      var a, b := CutAtABar(r.variant);
      t := Row(r.setCode, r.ptcgoCode, r.number, a, b, rest, 0);
      Regroup(a, b, rest);
    } else if '|' in r.language {
      var a, b := CutAtABar(r.language);
      t := Row(r.setCode, r.ptcgoCode, r.number, r.variant, a, b + "|" + r.notes, 0);
      Regroup(a, b, r.notes);
    } else {
      var a, b := CutAtABar(r.notes);
      t := Row(r.setCode + "|" + r.ptcgoCode, r.number, r.variant, r.language, a, b, 0);
      Regroup(r.setCode, r.ptcgoCode, r.number + "|" + (r.variant + "|" + (r.language + "|" + r.notes)));
    }
  }

  /** No other card can be merged with a row exactly when none of its six fields holds a bar. */
  lemma MergedExactlyWithABar(r: Row)
    ensures (forall t: Row :: CardKey(t) == CardKey(r) ==> SameCard(r, t)) <==> NoBars(r)
  {
    AllBars(r);
    if NoBars(r) {
      forall t: Row | CardKey(t) == CardKey(r) ensures SameCard(r, t) {
        AllBars(t);
        KeysTellCardsApart(r, t);
      }
    } else {
      var t := Shifted(r);
    }
  }

  /** For instance these two, which share a key and are merged. */
  lemma ABarMergesCards()
    ensures var r, t := Row("a|", "b", "1", "", "", "", 1), Row("a", "|b", "1", "", "", "", 1);
            r != t && CardKey(r) == CardKey(t)
  {
  }

  // ----- What is counted -----

  predicate Idless(c: Candidate) {
    c.id == None || c.id == Some("")
  }

  function QuantitySum(s: seq<Candidate>): nat {
    if s == [] then 0 else s[0].row.quantity + QuantitySum(s[1..])
  }

  function IsIdless(): Candidate -> bool {
    (c: Candidate) => Idless(c)
  }

  function OfCardFrom(key: string, url: string): Candidate -> bool {
    (c: Candidate) => Idless(c) && CardKey(c.row) == key && c.url == url
  }

  lemma {:induction false} QuantitySumSnoc(s: seq<Candidate>, c: Candidate)
    ensures QuantitySum(s + [c]) == QuantitySum(s) + c.row.quantity
  {
    if s == [] {
      assert s + [c] == [c] && [c][1..] == [];
    } else {
      assert (s + [c])[1..] == s[1..] + [c];
      QuantitySumSnoc(s[1..], c);
    }
  }

  lemma {:induction false} KeptSnoc(p: Candidate -> bool, s: seq<Candidate>, c: Candidate)
    ensures StableSort.Filter(p, s + [c]) == StableSort.Filter(p, s) + if p(c) then [c] else []
  {
    if s == [] {
      assert s + [c] == [c] && [c][1..] == [];
    } else {
      assert (s + [c])[1..] == s[1..] + [c];
      KeptSnoc(p, s[1..], c);
    }
  }

  /** The count of id-less entries is how many candidates have no id or an empty one. */
  lemma {:induction false} IdlessMeaning(s: seq<Candidate>)
    ensures CountIdless(s) == |StableSort.Filter(IsIdless(), s)|
  {
    if s != [] {
      var front, last := s[..|s| - 1], s[|s| - 1];
      IdlessMeaning(front);
      KeptSnoc(IsIdless(), front, last);
      assert s == front + [last];
    }
  }

  /** What a response says of a card is the sum of the quantities of its id-less entries there. */
  lemma {:induction false} UrlTotalMeaning(s: seq<Candidate>, key: string, url: string)
    ensures UrlTotal(s, key, url) == QuantitySum(StableSort.Filter(OfCardFrom(key, url), s))
  {
    if s != [] {
      var front, last := s[..|s| - 1], s[|s| - 1];
      UrlTotalMeaning(front, key, url);
      KeptSnoc(OfCardFrom(key, url), front, last);
      assert s == front + [last];
      var kept := StableSort.Filter(OfCardFrom(key, url), front);
      assert WithKeyFrom(key, url)(last) == if OfCardFrom(key, url)(last) then last.row.quantity else 0;
      if OfCardFrom(key, url)(last) {
        QuantitySumSnoc(kept, last);
      } else {
        assert kept + [] == kept;
      }
    }
  }

  lemma LargestTotal(s: seq<Candidate>, key: string, i: nat)
    requires i < |s| && OfCard(s[i], key)
    ensures forall url :: UrlTotal(s, key, url) <= CardQuantity(s, key)
    ensures exists url :: UrlTotal(s, key, url) == CardQuantity(s, key)
  {
    var own := OwnUrlTotal(s, key);
    forall url ensures UrlTotal(s, key, url) <= CardQuantity(s, key) {
      UnseenIsZero(s, "", key, url);
      if k :| 0 <= k < |s| && OfCard(s[k], key) && s[k].url == url {
        MaxCovers(own, s, k);
      }
    }
    MaxCovers(own, s, i);
    MaxIsReached(own, s, i);
    var k :| 0 <= k < |s| && own(s[k]) == CardQuantity(s, key);
    var url := if OfCard(s[k], key) then s[k].url else s[i].url;
    assert UrlTotal(s, key, url) == CardQuantity(s, key);
  }

  function CardSum(s: seq<Candidate>, key: string, url: string): nat {
    QuantitySum(StableSort.Filter(OfCardFrom(key, url), s))
  }

  /** A card's quantity is the largest of those sums. */
  lemma CardQuantityMeaning(s: seq<Candidate>, key: string, i: nat)
    requires i < |s| && Idless(s[i]) && CardKey(s[i].row) == key
    ensures forall url :: CardSum(s, key, url) <= CardQuantity(s, key)
    ensures exists url :: CardSum(s, key, url) == CardQuantity(s, key)
  {
    forall url ensures UrlTotal(s, key, url) == CardSum(s, key, url) {
      UrlTotalMeaning(s, key, url);
    }
    LargestTotal(s, key, i);
    var url :| UrlTotal(s, key, url) == CardQuantity(s, key);
    assert CardSum(s, key, url) == CardQuantity(s, key);
  }

  lemma {:induction false} MaxCovers(f: Candidate -> nat, s: seq<Candidate>, k: nat)
    requires k < |s|
    ensures f(s[k]) <= MaxOf(f, s)
  {
    if k < |s| - 1 {
      MaxCovers(f, s[..|s| - 1], k);
    }
  }

  lemma {:induction false} MaxIsReached(f: Candidate -> nat, s: seq<Candidate>, k: nat)
    requires k < |s|
    ensures exists i | 0 <= i < |s| :: f(s[i]) == MaxOf(f, s)
  {
    var n := |s| - 1;
    if MaxOf(f, s) != f(s[n]) {
      assert n > 0 by {
        assert s[..0] == [] && MaxOf(f, s[..0]) == 0;
      }
      MaxIsReached(f, s[..n], 0);
      var i :| 0 <= i < n && f(s[..n][i]) == MaxOf(f, s[..n]);
      assert s[i] == s[..n][i];
    }
  }
}
