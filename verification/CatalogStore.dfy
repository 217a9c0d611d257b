/** The catalog as its reconciles and opens change it, table by table. */
module CatalogStore {
  import opened Wrappers
  import opened Seeds
  import opened C = Convergence
  import opened CatalogContents

  /** A table with a synthesized row for each of some codes. */
  function Filled<V>(table: map<string, V>, codes: set<string>, synthesize: string -> V): map<string, V> {
    map code | code in table.Keys + codes :: if code in codes then synthesize(code) else table[code]
  }

  lemma FilledStep<V>(table: map<string, V>, codes: set<string>, synthesize: string -> V, code: string)
    ensures Filled(table, {}, synthesize) == table
    ensures Filled(table, codes, synthesize)[code := synthesize(code)] == Filled(table, codes + {code}, synthesize)
  {
  }

  lemma MoveOver(a: set<string>, b: set<string>, x: string)
    requires x in b
    ensures (a + {x}) + (b - {x}) == a + b
  {
  }

  method Fill<V>(table: map<string, V>, codes: set<string>, synthesize: string -> V)
    returns (result: map<string, V>)
    ensures result == Filled(table, codes, synthesize)
  {
    result := table;
    var left := codes;
    ghost var written := {};
    FilledStep(table, {}, synthesize, "");
    while left != {}
      invariant written + left == codes && result == Filled(table, written, synthesize)
      decreases |left|
    {
      var code :| code in left;
      FilledStep(table, written, synthesize, code);
      MoveOver(written, left, code);
      result := result[code := synthesize(code)];
      written, left := written + {code}, left - {code};
    }
    assert written == codes;
  }

  method VariantPasses(variants: map<string, Variant>, printings: map<string, string>, b: Build)
    returns (result: map<string, Variant>, n: nat)
    ensures result == VariantTable(variants, printings, b)
    ensures n == |b.variants| + |variants.Keys + printings.Values - SeedCodes(b)|
  {
    var table, _ := Reconcile(variants, ALWAYS, b.variants);
    PassesAddUp(variants, printings, b, table);
    var stale := table.Keys - SeedCodes(b);
    var refreshed := Fill(table, stale, b.synthesize);
    var missing := printings.Values - refreshed.Keys;
    result := Fill(refreshed, missing, b.synthesize);
    n := |b.variants| + |stale| + |missing|;
  }

  lemma PassesAddUp(variants: map<string, Variant>, printings: map<string, string>, b: Build,
                    table: map<string, Variant>)
    requires table == Upsert(variants, ALWAYS, b.variants)
    ensures var stale := table.Keys - SeedCodes(b);
            var refreshed := Filled(table, stale, b.synthesize);
            var missing := printings.Values - refreshed.Keys;
            && Filled(refreshed, missing, b.synthesize) == VariantTable(variants, printings, b)
            && |stale| + |missing| == |variants.Keys + printings.Values - SeedCodes(b)|
  {
    SeededRows(variants, b);
    TwoPasses(variants, printings, b, table);
    assert Filled(table, table.Keys - SeedCodes(b), b.synthesize).Keys == table.Keys;
    TwoCounts(variants.Keys, printings.Values, SeedCodes(b));
  }

  class Catalog {
    var version: int
    var objects: set<string>
    var columns: set<(string, string)>
    var variants: map<string, Variant>
    var subTypes: map<(int, string), string>
    var bundles: map<string, Bundle>
    var aliases: map<string, string>
    var prices: map<string, Price>
    var keywords: map<string, string>
    var rarities: map<string, string>
    var flags: map<string, string>
    var fingerprint: Option<string>
    var sets: set<string>
    var printings: map<string, string>

    function View(): File
      reads this
    {
      File(version, objects, columns, variants, subTypes, bundles, aliases, prices, keywords, rarities, flags,
           fingerprint, sets, printings)
    }

    /** Upserts the seed, then gives a synthesized row to every code the seed does not cover: first those in
        the table, then those only a printing names. */
    method ReconcileVariants(b: Build) returns (n: nat)
      modifies this
      ensures Apply(Variants, old(View()), b) == Some(View())
      ensures n == |b.variants| + |old(variants.Keys + printings.Values) - SeedCodes(b)|
    {
      variants, n := VariantPasses(variants, printings, b);
    }

    /** Clears the table and writes the seed; a repeated pair or an unknown variant rolls it back. */
    method ReconcileSubTypes(b: Build) returns (ok: bool)
      modifies this
      ensures ok == Apply(SubTypes, old(View()), b).Some?
      ensures View() == if ok then Apply(SubTypes, old(View()), b).value else old(View())
      ensures ok ==> HoldsRows(subTypes, b.subTypes)
    {
      var table := WriteAgain(b.subTypes);
      ok := CodesExist(variants, b.subTypes) && table.Some?;
      if ok {
        subTypes := table.value;
      }
    }

    method ReconcileBundles(b: Build) returns (n: nat)
      modifies this
      ensures Apply(Bundles, old(View()), b) == Some(View()) && n == |b.bundles|
      ensures SeededOver(old(bundles), bundles, {()}, b.bundles)
    {
      AllWritten(b.bundles);
      bundles, n := Reconcile(bundles, ALWAYS, b.bundles);
    }

    method ReconcileAliases(b: Build) returns (written: nat)
      modifies this
      ensures Apply(Aliases, old(View()), b) == Some(View()) && written == Written(old(sets), b.aliases)
      ensures SeededOver(old(aliases), aliases, sets, b.aliases)
    {
      aliases, written := Reconcile(aliases, sets, b.aliases);
    }

    method ReconcilePrices(b: Build) returns (written: nat)
      modifies this
      ensures Apply(Prices, old(View()), b) == Some(View())
      ensures written == Written(old(printings.Keys), b.prices)
      ensures forall p :: HasOverride(p) <==> old(HasOverride(p)) || Says(printings.Keys, b.prices, p).Some?
      ensures SeededOver(old(prices), prices, printings.Keys, b.prices)
    {
      forall p ensures p in Upsert(prices, printings.Keys, b.prices)
                   <==> p in prices || Says(printings.Keys, b.prices, p).Some?
      {
        UpsertMeaning(prices, printings.Keys, b.prices, p);
      }
      prices, written := Reconcile(prices, printings.Keys, b.prices);
    }

    /** The two seeds whose rows refer to rows an ingest creates. */
    method ReconcileIngestDependentSeeds(b: Build) returns (setAliases: nat, catalogPrices: nat)
      modifies this
      ensures View() == Close(old(View()), b)
      ensures setAliases == Written(old(sets), b.aliases)
      ensures catalogPrices == Written(old(printings.Keys), b.prices)
    {
      ghost var f := View();
      setAliases := ReconcileAliases(b);
      ghost var g := View();
      catalogPrices := ReconcilePrices(b);
      assert CLOSING[1..] == [Prices] && [Prices][1..] == [];
      assert Close(f, b) == RunStages(g, b, [Prices]).0;
    }

    predicate HasOverride(printing: string)
      reads this
    {
      printing in prices
    }

    method ReconcileSearch(b: Build) returns (ok: bool)
      modifies this
      ensures ok == Apply(Search, old(View()), b).Some?
      ensures View() == if ok then Apply(Search, old(View()), b).value else old(View())
      ensures ok ==> HoldsRows(keywords, b.keywords) && HoldsRows(rarities, b.rarities) && HoldsRows(flags, b.flags)
    {
      var k := WriteAgain(b.keywords);
      var r := WriteAgain(b.rarities);
      var f := WriteAgain(b.flags);
      ok := k.Some? && r.Some? && f.Some?;
      if ok {
        keywords, rarities, flags := k.value, r.value, f.value;
      }
    }

    method ApplySchema(b: Build)
      modifies this
      ensures View() == RunStages(old(View()), b, SchemaStages(b.objects)).0
      ensures RunStages(old(View()), b, SchemaStages(b.objects)).1
    {
      ghost var f, plan := View(), SchemaStages(b.objects);
      for i := 0 to |b.objects|
        invariant RunStages(f, b, plan) == RunStages(View(), b, plan[i..])
      {
        StageStep(View(), b, plan, i);
        objects := objects + {b.objects[i]};
      }
    }

    method AddMissingColumns(b: Build)
      modifies this
      ensures View() == RunStages(old(View()), b, ColumnStages(b.columns)).0
      ensures RunStages(old(View()), b, ColumnStages(b.columns)).1
    {
      ghost var f, plan := View(), ColumnStages(b.columns);
      for i := 0 to |b.columns|
        invariant RunStages(f, b, plan) == RunStages(View(), b, plan[i..])
      {
        StageStep(View(), b, plan, i);
        if b.columns[i] !in columns {
          columns := columns + {b.columns[i]};
        } else {
          assert columns == columns + {b.columns[i]};
        }
      }
    }

    /** The seeds that refer only to each other. */
    method ReconcileSelfContainedSeeds(b: Build) returns (ok: bool)
      modifies this
      ensures (View(), ok) == RunStages(old(View()), b, [Variants, SubTypes, Bundles])
    {
      ghost var stages := [Variants, SubTypes, Bundles];
      StageStep(View(), b, stages, 0);
      var _ := ReconcileVariants(b);
      StageStep(View(), b, stages, 1);
      ok := ReconcileSubTypes(b);
      if ok {
        StageStep(View(), b, stages, 2);
        var _ := ReconcileBundles(b);
      }
    }

    /** The search tables, the stamp and last of all the claim. */
    method Finish(b: Build) returns (ok: bool)
      modifies this
      ensures (View(), ok) == RunStages(old(View()), b, [Search, Stamp, Record])
    {
      LastStages(View(), b);
      ok := ReconcileSearch(b);
      if ok {
        version := b.version;
        fingerprint := Some(b.hash);
      }
    }

    /** Everything a build writes, in order, stopping at the first transaction that fails. */
    method Converge(b: Build) returns (ok: bool)
      modifies this
      ensures (View(), ok) == RunStages(old(View()), b, Plan(b))
      ensures ok ==> Contents(old(View()), View(), b)
    {
      ghost var f := View();
      if RunStages(f, b, Plan(b)).1 {
        PlanContents(f, b);
      }
      ApplySchema(b);
      AddMissingColumns(b);
      ghost var g := View();
      PlanSplits(f, b);
      TailSplits(g, b);
      ok := ReconcileSelfContainedSeeds(b);
      if ok {
        var _, _ := ReconcileIngestDependentSeeds(b);
        ok := Finish(b);
      }
    }

    /** A read-write open that lives: a file from a newer build is refused before anything is written. */
    method OpenShared(b: Build) returns (ok: bool)
      modifies this
      ensures (View(), ok) == C.OpenShared(old(View()), b, |Plan(b)|)
      ensures ok ==> Contents(old(View()), View(), b)
    {
      if version > b.version {
        return false;
      }
      ok := Converge(b);
    }

    /** A server's open, which writes nothing when the two marks are this build's. */
    method OpenForServing(b: Build, readable: bool) returns (ok: bool)
      modifies this
      ensures (View(), ok) == C.OpenForServing(old(View()), b, readable, |Plan(b)|)
      ensures readable && IsConverged(old(View()), b) ==> View() == old(View()) && ok
    {
      if readable && version == b.version && fingerprint == Some(b.hash) {
        return true;
      }
      ok := OpenShared(b);
    }
  }

  /** The codes left to synthesize a row for, once in the table and once on printings only. */
  lemma TwoCounts(known: set<string>, printed: set<string>, seeded: set<string>)
    ensures |(known + seeded) - seeded| + |printed - (known + seeded)| == |known + printed - seeded|
  {
    assert known + printed - seeded == ((known + seeded) - seeded) + (printed - (known + seeded));
  }

  /** A seed that refers to nothing is written whole. */
  lemma {:induction false} AllWritten<K, V>(seed: seq<Entry<K, (), V>>)
    ensures Written(ALWAYS, seed) == |seed|
  {
    if seed != [] {
      AllWritten(seed[..|seed| - 1]);
      assert seed[|seed| - 1].target == ();
      assert () in ALWAYS;
    }
  }

  function Tail(): seq<Stage> {
    [Variants, SubTypes, Bundles, Aliases, Prices, Search, Stamp, Record]
  }

  lemma StageStep(f: File, b: Build, stages: seq<Stage>, i: nat)
    requires i < |stages|
    ensures RunStages(f, b, stages[i..])
         == var next := Apply(stages[i], f, b);
            if next.Some? then RunStages(next.value, b, stages[i + 1..]) else (f, false)
  {
    assert stages[i..][1..] == stages[i + 1..];
  }

  lemma LastStages(f: File, b: Build)
    ensures RunStages(f, b, [Search, Stamp, Record])
         == var next := Apply(Search, f, b);
            if next.Some? then (next.value.(version := b.version, fingerprint := Some(b.hash)), true) else (f, false)
  {
    var stages := [Search, Stamp, Record];
    StageStep(f, b, stages, 0);
    if Apply(Search, f, b).Some? {
      var g := Apply(Search, f, b).value;
      StageStep(g, b, stages, 1);
      StageStep(g.(version := b.version), b, stages, 2);
    }
  }

  lemma TailSplits(f: File, b: Build)
    ensures var run := RunStages(f, b, [Variants, SubTypes, Bundles]);
            RunStages(f, b, Tail()) == if run.1 then RunStages(Close(run.0, b), b, [Search, Stamp, Record]) else run
  {
    var head, last := [Variants, SubTypes, Bundles], [Search, Stamp, Record];
    RunSplits(f, b, head, CLOSING + last);
    assert Tail() == head + (CLOSING + last);
    var (g, ok) := RunStages(f, b, head);
    if ok {
      RunSplits(g, b, CLOSING, last);
      ClosingNeverFails(g, b);
    }
  }

  lemma ClosingNeverFails(f: File, b: Build)
    ensures RunStages(f, b, CLOSING).1
  {
    StageStep(f, b, CLOSING, 0);
    StageStep(Apply(Aliases, f, b).value, b, CLOSING, 1);
  }

  lemma PlanSplits(f: File, b: Build)
    requires RunStages(f, b, SchemaStages(b.objects)).1
    requires RunStages(RunStages(f, b, SchemaStages(b.objects)).0, b, ColumnStages(b.columns)).1
    ensures var g := RunStages(f, b, SchemaStages(b.objects)).0;
            RunStages(f, b, Plan(b)) == RunStages(RunStages(g, b, ColumnStages(b.columns)).0, b, Tail())
  {
    var head, rest := SchemaStages(b.objects), ColumnStages(b.columns);
    RunSplits(f, b, head, rest + Tail());
    RunSplits(RunStages(f, b, head).0, b, rest, Tail());
    assert Plan(b) == head + (rest + Tail());
  }

  lemma SeededRows(variants: map<string, Variant>, b: Build)
    ensures var t := Upsert(variants, ALWAYS, b.variants);
            && t.Keys == variants.Keys + SeedCodes(b)
            && forall code | code in t && code in SeedCodes(b) :: t[code] == VariantRow(b, code)
  {
    var t := Upsert(variants, ALWAYS, b.variants);
    forall code
      ensures code in t <==> code in variants || code in SeedCodes(b)
      ensures code in t && code in SeedCodes(b) ==> t[code] == VariantRow(b, code)
    {
      UpsertMeaning(variants, ALWAYS, b.variants, code);
      assert code in t <==> Lookup(t, code).Some?;
      SaidCode(b.variants, code);
    }
  }

  lemma {:induction false} SaidCode(seed: seq<Entry<string, (), Variant>>, code: string)
    ensures Says(ALWAYS, seed, code).Some? <==> code in (set e | e in seed :: e.key)
  {
    if seed != [] {
      var front, last := seed[..|seed| - 1], seed[|seed| - 1];
      assert last.target == ();
      assert last.target in ALWAYS;
      SaidCode(front, code);
      assert forall e | e in seed :: e in front || e == last;
      assert last in seed && forall e | e in front :: e in seed;
    }
  }

  /** Refreshing the codes outside the seed and then adding those only printings name gives the table. */
  lemma TwoPasses(variants: map<string, Variant>, printings: map<string, string>, b: Build,
                  seeded: map<string, Variant>)
    requires seeded == Upsert(variants, ALWAYS, b.variants)
    ensures var refreshed := Filled(seeded, seeded.Keys - SeedCodes(b), b.synthesize);
            Filled(refreshed, printings.Values - refreshed.Keys, b.synthesize) == VariantTable(variants, printings, b)
  {
    SeededRows(variants, b);
    var refreshed := Filled(seeded, seeded.Keys - SeedCodes(b), b.synthesize);
    assert refreshed.Keys == seeded.Keys;
    var t := Filled(refreshed, printings.Values - refreshed.Keys, b.synthesize);
    var u := VariantTable(variants, printings, b);
    assert t.Keys == u.Keys;
    forall code | code in t ensures t[code] == u[code] {
      SaidCode(b.variants, code);
    }
  }
}
