/** How shipped seed files reach the catalog's tables: as upserts that skip a row whose foreign-key
    target is not there yet, or by clearing a table and writing it again. */
module Seeds {
  import opened Wrappers

  /** A seed row: the key it is stored under, the row it refers to, and what it says. */
  datatype Entry<K, T, V> = Entry(key: K, target: T, row: V)

  // ----- Upserts -----

  function Put<K, T, V>(table: map<K, V>, targets: set<T>, e: Entry<K, T, V>): map<K, V> {
    if e.target in targets then table[e.key := e.row] else table
  }

  function Upsert<K, T, V>(table: map<K, V>, targets: set<T>, seed: seq<Entry<K, T, V>>): map<K, V> {
    if seed == [] then table else Put(Upsert(table, targets, seed[..|seed| - 1]), targets, seed[|seed| - 1])
  }

  /** The loop of every upserting reconcile: row by row, counting what was written. */
  method Reconcile<K(!new,==), T(==), V>(table: map<K, V>, targets: set<T>, seed: seq<Entry<K, T, V>>)
    returns (result: map<K, V>, written: nat)
    ensures result == Upsert(table, targets, seed) && written == Written(targets, seed)
    ensures SeededOver(table, result, targets, seed)
  {
    result, written := table, 0;
    for i := 0 to |seed|
      invariant result == Upsert(table, targets, seed[..i]) && written == Written(targets, seed[..i])
    {
      assert seed[..i + 1][..i] == seed[..i];
      if seed[i].target in targets {
        result := result[seed[i].key := seed[i].row];
        written := written + 1;
      }
    }
    assert seed[..|seed|] == seed;
    UpsertSeeds(table, targets, seed);
  }

  /** What the seed says of a key: its last row for it whose target is present. */
  function Says<K(==), T(==), V>(targets: set<T>, seed: seq<Entry<K, T, V>>, k: K): Option<V> {
    if seed == [] then None
    else
      var last := seed[|seed| - 1];
      if last.key == k && last.target in targets then Some(last.row) else Says(targets, seed[..|seed| - 1], k)
  }

  /** The rows of a seed whose target is present, which is what a reconcile reports as written. */
  function Written<K, T, V>(targets: set<T>, seed: seq<Entry<K, T, V>>): nat {
    if seed == [] then 0
    else Written(targets, seed[..|seed| - 1]) + (if seed[|seed| - 1].target in targets then 1 else 0)
  }

  function Lookup<K, V>(table: map<K, V>, k: K): Option<V> {
    if k in table then Some(table[k]) else None
  }

  /** After a reconcile a key holds what the seed says of it, or else what it held before. */
  lemma {:induction false} UpsertMeaning<K, T, V>(
    table: map<K, V>, targets: set<T>, seed: seq<Entry<K, T, V>>, k: K)
    ensures Lookup(Upsert(table, targets, seed), k)
         == if Says(targets, seed, k).Some? then Says(targets, seed, k) else Lookup(table, k)
  {
    if seed != [] {
      UpsertMeaning(table, targets, seed[..|seed| - 1], k);
    }
  }

  lemma SameLookups<K, V>(a: map<K, V>, b: map<K, V>)
    requires forall k :: Lookup(a, k) == Lookup(b, k)
    ensures a == b
  {
    assert forall k :: k in a <==> Lookup(a, k).Some?;
    assert forall k :: k in b <==> Lookup(b, k).Some?;
    forall k | k in a ensures k in b && a[k] == b[k] {
      assert Lookup(a, k) == Some(a[k]);
    }
  }

  /** Two tables come out of a reconcile the same exactly when they differ, if at all, only in keys the
      seed speaks for. */
  lemma EditsAreOvertaken<K, T, V>(a: map<K, V>, b: map<K, V>, targets: set<T>, seed: seq<Entry<K, T, V>>)
    ensures Upsert(a, targets, seed) == Upsert(b, targets, seed)
       <==> forall k :: Says(targets, seed, k).None? ==> Lookup(a, k) == Lookup(b, k)
  {
    var na, nb := Upsert(a, targets, seed), Upsert(b, targets, seed);
    forall k
      ensures Says(targets, seed, k).None? ==> Lookup(na, k) == Lookup(a, k) && Lookup(nb, k) == Lookup(b, k)
      ensures Says(targets, seed, k).Some? ==> Lookup(na, k) == Lookup(nb, k)
    {
      UpsertMeaning(a, targets, seed, k);
      UpsertMeaning(b, targets, seed, k);
    }
    if forall k :: Says(targets, seed, k).None? ==> Lookup(a, k) == Lookup(b, k) {
      SameLookups(na, nb);
    }
  }

  /** A key spoken for under fewer targets is still spoken for under more. */
  lemma {:induction false} MoreTargetsSayMore<K, T, V>(
    few: set<T>, many: set<T>, seed: seq<Entry<K, T, V>>, k: K)
    requires few <= many && Says(few, seed, k).Some?
    ensures Says(many, seed, k).Some?
  {
    var last := seed[|seed| - 1];
    if !(last.key == k && last.target in few) {
      MoreTargetsSayMore(few, many, seed[..|seed| - 1], k);
    }
  }

  /** An earlier reconcile, against fewer targets, leaves no trace after a later one. */
  lemma EarlierReseedsAreOvertaken<K, T, V>(
    table: map<K, V>, few: set<T>, many: set<T>, seed: seq<Entry<K, T, V>>)
    requires few <= many
    ensures Upsert(Upsert(table, few, seed), many, seed) == Upsert(table, many, seed)
  {
    forall k | Says(many, seed, k).None?
      ensures Lookup(Upsert(table, few, seed), k) == Lookup(table, k)
    {
      UpsertMeaning(table, few, seed, k);
      if Says(few, seed, k).Some? {
        MoreTargetsSayMore(few, many, seed, k);
      }
    }
    EditsAreOvertaken(Upsert(table, few, seed), table, many, seed);
  }

  // ----- Any split of an ingest -----

  /** What may happen between two looks at a seeded table: the ingest adds targets, a reconcile runs, or
      somebody edits (or deletes) a row by hand. */
  datatype Step<K, T, V> = Grow(added: set<T>) | Reseed | Edit(key: K, row: Option<V>)

  function AllTargets<K, T, V>(targets: set<T>, steps: seq<Step<K, T, V>>): set<T>
    decreases |steps|
  {
    if steps == [] then targets
    else AllTargets(if steps[0].Grow? then targets + steps[0].added else targets, steps[1..])
  }

  function TableAfter<K, T, V>(table: map<K, V>, targets: set<T>, seed: seq<Entry<K, T, V>>,
                               steps: seq<Step<K, T, V>>): map<K, V>
    decreases |steps|
  {
    if steps == [] then table
    else
      match steps[0]
      case Grow(added) => TableAfter(table, targets + added, seed, steps[1..])
      case Reseed => TableAfter(Upsert(table, targets, seed), targets, seed, steps[1..])
      case Edit(k, row) =>
        TableAfter(if row.Some? then table[k := row.value] else table - {k}, targets, seed, steps[1..])
  }

  predicate EditsSeededRows<K(==), T(==), V>(targets: set<T>, seed: seq<Entry<K, T, V>>, steps: seq<Step<K, T, V>>) {
    forall i | 0 <= i < |steps| && steps[i].Edit? :: Says(targets, seed, steps[i].key).Some?
  }

  lemma {:induction false} TargetsGrow<K, T, V>(targets: set<T>, steps: seq<Step<K, T, V>>)
    ensures targets <= AllTargets(targets, steps)
    decreases |steps|
  {
    if steps != [] {
      TargetsGrow(if steps[0].Grow? then targets + steps[0].added else targets, steps[1..]);
    }
  }

  /** However an ingest is split, wherever reconciles run in between, and whatever is done by hand to
      rows the seed speaks for, a final reconcile gives the table of one reconcile at the end. */
  lemma {:induction false} SeedingIsConfluent<K, T, V>(
    table: map<K, V>, targets: set<T>, seed: seq<Entry<K, T, V>>, steps: seq<Step<K, T, V>>)
    requires EditsSeededRows(AllTargets(targets, steps), seed, steps)
    ensures var final := AllTargets(targets, steps);
            Upsert(TableAfter(table, targets, seed, steps), final, seed) == Upsert(table, final, seed)
    decreases |steps|
  {
    if steps != [] {
      var step, rest, final := steps[0], steps[1..], AllTargets(targets, steps);
      assert forall i | 0 <= i < |rest| :: rest[i] == steps[i + 1];
      match step {
        case Grow(added) =>
          SeedingIsConfluent(table, targets + added, seed, rest);
        case Reseed =>
          SeedingIsConfluent(Upsert(table, targets, seed), targets, seed, rest);
          TargetsGrow(targets, rest);
          EarlierReseedsAreOvertaken(table, targets, final, seed);
        case Edit(k, row) =>
          var edited := if row.Some? then table[k := row.value] else table - {k};
          SeedingIsConfluent(edited, targets, seed, rest);
          EditsAreOvertaken(edited, table, final, seed);
      }
    }
  }

  /** A reconcile right after a reconcile changes nothing. */
  lemma ReseedIsIdempotent<K, T, V>(table: map<K, V>, targets: set<T>, seed: seq<Entry<K, T, V>>)
    ensures Upsert(Upsert(table, targets, seed), targets, seed) == Upsert(table, targets, seed)
  {
    EarlierReseedsAreOvertaken(table, targets, targets, seed);
  }

  /** A reconcile never leaves a row whose own key names something absent, if there was none before. */
  lemma {:induction false} KeysStayLive<K, V>(table: map<K, V>, live: set<K>, seed: seq<Entry<K, K, V>>)
    requires table.Keys <= live && forall i | 0 <= i < |seed| :: seed[i].target == seed[i].key
    ensures Upsert(table, live, seed).Keys <= live
  {
    if seed != [] {
      KeysStayLive(table, live, seed[..|seed| - 1]);
    }
  }

  // ----- Clear and rewrite -----

  /** Plain inserts into an emptied table; a repeated key breaks the primary key. */
  function Rewrite<K, V>(rows: seq<(K, V)>): Option<map<K, V>> {
    if rows == [] then Some(map[])
    else
      var front := Rewrite(rows[..|rows| - 1]);
      var last := rows[|rows| - 1];
      if front.Some? && last.0 !in front.value then Some(front.value[last.0 := last.1]) else None
  }

  method WriteAgain<K(!new,==), V(==)>(rows: seq<(K, V)>) returns (r: Option<map<K, V>>)
    ensures r == Rewrite(rows)
    ensures r.Some? <==> DistinctKeys(rows)
    ensures r.Some? ==> HoldsRows(r.value, rows)
  {
    var table: map<K, V> := map[];
    for i := 0 to |rows|
      invariant Rewrite(rows[..i]) == Some(table)
    {
      assert rows[..i + 1][..i] == rows[..i];
      if rows[i].0 in table {
        RewriteFailsOn(rows, i + 1);
        RewriteHolds(rows);
        return None;
      }
      table := table[rows[i].0 := rows[i].1];
    }
    assert rows[..|rows|] == rows;
    RewriteHolds(rows);
    r := Some(table);
  }

  lemma {:induction false} RewriteFailsOn<K, V>(rows: seq<(K, V)>, n: nat)
    requires n <= |rows| && Rewrite(rows[..n]).None?
    ensures Rewrite(rows).None?
  {
    if n == |rows| {
      assert rows[..n] == rows;
    } else {
      assert rows[..|rows| - 1][..n] == rows[..n];
      RewriteFailsOn(rows[..|rows| - 1], n);
    }
  }

  predicate DistinctKeys<K(==), V>(rows: seq<(K, V)>) {
    forall i, j | 0 <= i < j < |rows| :: rows[i].0 != rows[j].0
  }

  predicate HoldsKey<K(==), V>(rows: seq<(K, V)>, k: K) {
    exists i | 0 <= i < |rows| :: rows[i].0 == k
  }

  /** A rewrite succeeds exactly when no key repeats, and then the table is the seed and nothing else. */
  lemma {:induction false} RewriteMeaning<K, V>(rows: seq<(K, V)>)
    ensures Rewrite(rows).Some? <==> DistinctKeys(rows)
    ensures Rewrite(rows).Some? ==> forall k :: k in Rewrite(rows).value <==> HoldsKey(rows, k)
    ensures Rewrite(rows).Some? ==>
              forall i | 0 <= i < |rows| ::
                rows[i].0 in Rewrite(rows).value && Rewrite(rows).value[rows[i].0] == rows[i].1
  {
    if rows != [] {
      var front, last := rows[..|rows| - 1], rows[|rows| - 1];
      RewriteMeaning(front);
      assert forall i | 0 <= i < |front| :: rows[i] == front[i];
      assert HoldsKey(front, last.0) ==> !DistinctKeys(rows);
      assert DistinctKeys(rows) ==> DistinctKeys(front);
      forall k ensures HoldsKey(rows, k) <==> HoldsKey(front, k) || last.0 == k {
        assert rows[|front|] == last;
      }
    }
  }

  // ----- What a table holds -----

  /** The table is these rows and nothing else, one for each key. */
  predicate HoldsRows<K(!new,==), V(==)>(table: map<K, V>, rows: seq<(K, V)>) {
    && DistinctKeys(rows)
    && (forall i | 0 <= i < |rows| :: rows[i].0 in table && table[rows[i].0] == rows[i].1)
    && (forall k | k in table :: HoldsKey(rows, k))
  }

  lemma RewriteHolds<K(!new), V>(rows: seq<(K, V)>)
    ensures Rewrite(rows).Some? <==> DistinctKeys(rows)
    ensures Rewrite(rows).Some? ==> HoldsRows(Rewrite(rows).value, rows)
  {
    RewriteMeaning(rows);
  }

  /** Row i is the last one for its key whose target is there. */
  predicate LastLive<K(==), T(==), V>(targets: set<T>, seed: seq<Entry<K, T, V>>, k: K, i: int) {
    && 0 <= i < |seed| && seed[i].key == k && seed[i].target in targets
    && forall j | i < j < |seed| && seed[j].key == k :: seed[j].target !in targets
  }

  lemma {:induction false} SaysMeaning<K, T, V>(targets: set<T>, seed: seq<Entry<K, T, V>>, k: K)
    ensures forall i | LastLive(targets, seed, k, i) :: Says(targets, seed, k) == Some(seed[i].row)
    ensures Says(targets, seed, k).Some? <==> exists i :: LastLive(targets, seed, k, i)
  {
    if seed != [] {
      var n := |seed| - 1;
      SaysMeaning(targets, seed[..n], k);
      if seed[n].key == k && seed[n].target in targets {
        assert LastLive(targets, seed, k, n);
      } else {
        forall i | LastLive(targets, seed, k, i) ensures LastLive(targets, seed[..n], k, i) {}
        forall i | LastLive(targets, seed[..n], k, i) ensures LastLive(targets, seed, k, i) {}
      }
    }
  }

  /** The table says of every key what the seed's last live row for it says, and of the other keys what it
      said before. */
  ghost predicate SeededOver<K(!new), T, V>(before: map<K, V>, after: map<K, V>, targets: set<T>,
                                            seed: seq<Entry<K, T, V>>)
  {
    && (forall k, i | LastLive(targets, seed, k, i) :: k in after && after[k] == seed[i].row)
    && (forall k | (forall i :: !LastLive(targets, seed, k, i)) ::
          (k in after <==> k in before) && (k in before && k in after ==> after[k] == before[k]))
  }

  lemma LookupsSeed<K(!new), T, V>(before: map<K, V>, after: map<K, V>, targets: set<T>, seed: seq<Entry<K, T, V>>)
    requires forall k :: Lookup(after, k)
                         == if Says(targets, seed, k).Some? then Says(targets, seed, k) else Lookup(before, k)
    ensures SeededOver(before, after, targets, seed)
  {
    forall k, i | LastLive(targets, seed, k, i) ensures k in after && after[k] == seed[i].row {
      SaysMeaning(targets, seed, k);
      assert Lookup(after, k) == Some(seed[i].row);
    }
    forall k | forall i :: !LastLive(targets, seed, k, i)
      ensures (k in after <==> k in before) && (k in before && k in after ==> after[k] == before[k])
    {
      SaysMeaning(targets, seed, k);
      assert Lookup(after, k) == Lookup(before, k);
    }
  }

  lemma UpsertSeeds<K(!new), T, V>(table: map<K, V>, targets: set<T>, seed: seq<Entry<K, T, V>>)
    ensures SeededOver(table, Upsert(table, targets, seed), targets, seed)
  {
    forall k
      ensures Lookup(Upsert(table, targets, seed), k)
           == if Says(targets, seed, k).Some? then Says(targets, seed, k) else Lookup(table, k)
    {
      UpsertMeaning(table, targets, seed, k);
    }
    LookupsSeed(table, Upsert(table, targets, seed), targets, seed);
  }

  /** What a reconcile counts is the rows whose target is there, repeated keys and all. */
  lemma {:induction false} WrittenMeaning<K, T, V>(targets: set<T>, seed: seq<Entry<K, T, V>>)
    ensures Written(targets, seed) == |set i | 0 <= i < |seed| && seed[i].target in targets|
  {
    if seed != [] {
      var n := |seed| - 1;
      WrittenMeaning(targets, seed[..n]);
      var before := set i | 0 <= i < n && seed[..n][i].target in targets;
      var after := set i | 0 <= i < |seed| && seed[i].target in targets;
      assert after == before + if seed[n].target in targets then {n} else {};
    }
  }
}
