/** What a catalog holds, table by table, after an open or a build that went through: said of the seeds and
    of what the file held before. */
module CatalogContents {
  import opened Wrappers
  import opened Seeds
  import opened Convergence
  import opened MixedBuilds
  import opened CatalogRuns

  // ----- What an open leaves alone -----

  /** The bundles its seed does not speak for. */
  ghost predicate KeepsBundles(f: File, g: File, b: Build) {
    forall k :: Says(ALWAYS, b.bundles, k).None? ==> Lookup(g.bundles, k) == Lookup(f.bundles, k)
  }

  lemma StageKeepsBundles(s: Stage, f: File, b: Build)
    requires Apply(s, f, b).Some?
    ensures KeepsBundles(f, Apply(s, f, b).value, b)
  {
    if s == Bundles {
      forall k ensures Says(ALWAYS, b.bundles, k).None? ==>
                         Lookup(Upsert(f.bundles, ALWAYS, b.bundles), k) == Lookup(f.bundles, k)
      {
        UpsertMeaning(f.bundles, ALWAYS, b.bundles, k);
      }
    }
  }

  lemma {:induction false} RunKeepsBundles(f: File, b: Build, stages: seq<Stage>)
    ensures KeepsBundles(f, RunStages(f, b, stages).0, b)
    decreases |stages|
  {
    if stages != [] && Apply(stages[0], f, b).Some? {
      StageKeepsBundles(stages[0], f, b);
      RunKeepsBundles(Apply(stages[0], f, b).value, b, stages[1..]);
    }
  }

  // ----- The schema -----

  /** Only objects and columns of the build are added. */
  predicate OwnSchema(stages: seq<Stage>, b: Build) {
    forall i | 0 <= i < |stages| ::
      (stages[i].Schema? ==> stages[i].name in b.objects) && (stages[i].Column? ==> stages[i].column in b.columns)
  }

  predicate WithinSchema(f: File, g: File, b: Build) {
    && f.objects <= g.objects && f.columns <= g.columns
    && (forall x | x in g.objects :: x in f.objects || x in b.objects)
    && (forall x | x in g.columns :: x in f.columns || x in b.columns)
  }

  lemma OneWithinSchema(s: Stage, f: File, b: Build)
    requires Apply(s, f, b).Some? && OwnSchema([s], b)
    ensures WithinSchema(f, Apply(s, f, b).value, b)
  {
    assert [s][0] == s;
  }

  lemma {:induction false} RunWithinSchema(f: File, b: Build, stages: seq<Stage>)
    requires OwnSchema(stages, b)
    ensures WithinSchema(f, RunStages(f, b, stages).0, b)
    decreases |stages|
  {
    if stages != [] && Apply(stages[0], f, b).Some? {
      OneWithinSchema(stages[0], f, b);
      assert forall i | 0 <= i < |stages[1..]| :: stages[1..][i] == stages[i + 1];
      RunWithinSchema(Apply(stages[0], f, b).value, b, stages[1..]);
    }
  }

  lemma PlanIsOwn(b: Build)
    ensures OwnSchema(Plan(b), b)
    ensures forall i | 0 <= i < |b.objects| :: Touches(Plan(b), Schema(b.objects[i]))
    ensures forall i | 0 <= i < |b.columns| :: Touches(Plan(b), Column(b.columns[i]))
  {
    forall i | 0 <= i < |b.objects| ensures Touches(Plan(b), Schema(b.objects[i])) {
      assert Plan(b)[i] == Schema(b.objects[i]);
    }
    forall i | 0 <= i < |b.columns| ensures Touches(Plan(b), Column(b.columns[i])) {
      assert Plan(b)[|b.objects| + i] == Column(b.columns[i]);
    }
  }

  ghost predicate SchemaAdded(f: File, g: File, b: Build) {
    && (forall x :: x in g.objects <==> x in f.objects || x in b.objects)
    && (forall x :: x in g.columns <==> x in f.columns || x in b.columns)
  }

  lemma SchemaContents(f: File, g: File, b: Build)
    requires Settled(g, b) && WithinSchema(f, g, b)
    ensures SchemaAdded(f, g, b)
  {
    PlanIsOwn(b);
    forall x | x in b.objects ensures x in g.objects {
      var i :| 0 <= i < |b.objects| && b.objects[i] == x;
      PlanDoes(Schema(x), g, b);
      assert x in g.objects + {x};
    }
    forall x | x in b.columns ensures x in g.columns {
      var i :| 0 <= i < |b.columns| && b.columns[i] == x;
      PlanDoes(Column(x), g, b);
      assert x in g.columns + {x};
    }
  }

  // ----- The tables -----

  /** The rows a build gives the file's variant codes: its seed's own row, or one it makes up. */
  ghost predicate VariantsSay(table: map<string, Variant>, b: Build) {
    forall code | code in table ::
      && (forall i | LastLive({()}, b.variants, code, i) :: table[code] == b.variants[i].row)
      && ((forall i :: !LastLive({()}, b.variants, code, i)) ==> table[code] == b.synthesize(code))
  }

  lemma VariantContents(g: File, b: Build)
    requires Done(Variants, g, b)
    ensures VariantsSay(g.variants, b)
  {
    assert VariantTable(g.variants, g.printings, b) == g.variants;
    forall code | code in g.variants
      ensures forall i | LastLive({()}, b.variants, code, i) :: g.variants[code] == b.variants[i].row
      ensures (forall i :: !LastLive({()}, b.variants, code, i)) ==> g.variants[code] == b.synthesize(code)
    {
      SaysMeaning({()}, b.variants, code);
      assert VariantTable(g.variants, g.printings, b)[code] == VariantRow(b, code);
    }
  }

  /** The four tables that are cleared and written hold their own seed's rows and nothing else. */
  ghost predicate RewrittenTables(g: File, b: Build) {
    && HoldsRows(g.subTypes, b.subTypes)
    && HoldsRows(g.keywords, b.keywords)
    && HoldsRows(g.rarities, b.rarities)
    && HoldsRows(g.flags, b.flags)
  }

  lemma RewrittenContents(g: File, b: Build)
    requires Done(SubTypes, g, b) && Done(Search, g, b)
    ensures RewrittenTables(g, b)
    ensures forall i | 0 <= i < |b.subTypes| :: b.subTypes[i].1 in g.variants
  {
    RewriteHolds(b.subTypes);
    RewriteHolds(b.keywords);
    RewriteHolds(b.rarities);
    RewriteHolds(b.flags);
  }

  /** The three upserted tables hold what their own seed says under their own targets, and else what they
      held. */
  ghost predicate UpsertedTables(f: File, g: File, b: Build) {
    && SeededOver(f.bundles, g.bundles, {()}, b.bundles)
    && SeededOver(f.aliases, g.aliases, g.sets, b.aliases)
    && SeededOver(f.prices, g.prices, g.printings.Keys, b.prices)
  }

  lemma UpsertedContents(f: File, g: File, b: Build)
    requires Done(Bundles, g, b) && Done(Aliases, g, b) && Done(Prices, g, b)
    requires KeepsUnsaid(f, g, b) && KeepsBundles(f, g, b)
    ensures UpsertedTables(f, g, b)
  {
    NothingToWrite(g.bundles, ALWAYS, b.bundles);
    NothingToWrite(g.aliases, g.sets, b.aliases);
    NothingToWrite(g.prices, g.printings.Keys, b.prices);
    LookupsSeed(f.bundles, g.bundles, {()}, b.bundles);
    LookupsSeed(f.aliases, g.aliases, g.sets, b.aliases);
    LookupsSeed(f.prices, g.prices, g.printings.Keys, b.prices);
  }

  /** Everything an open that returns leaves in the file. */
  ghost predicate Contents(f: File, g: File, b: Build) {
    && SchemaAdded(f, g, b)
    && g.variants.Keys == f.variants.Keys + (set e | e in b.variants :: e.key) + f.printings.Values
    && VariantsSay(g.variants, b)
    && RewrittenTables(g, b)
    && UpsertedTables(f, g, b)
    && g.version == b.version && g.fingerprint == Some(b.hash)
    && g.sets == f.sets && g.printings == f.printings
  }

  lemma SettledContents(f: File, g: File, b: Build)
    requires Settled(g, b) && WithinSchema(f, g, b) && KeepsUnsaid(f, g, b) && KeepsBundles(f, g, b)
    ensures SchemaAdded(f, g, b) && VariantsSay(g.variants, b) && RewrittenTables(g, b) && UpsertedTables(f, g, b)
    ensures g.version == b.version && g.fingerprint == Some(b.hash)
  {
    SettledTables(g, b);
    SchemaContents(f, g, b);
    VariantContents(g, b);
    RewrittenContents(g, b);
    UpsertedContents(f, g, b);
    SettledIsMarked(g, b);
  }

  lemma SettledTables(g: File, b: Build)
    requires Settled(g, b)
    ensures Done(Variants, g, b) && Done(SubTypes, g, b) && Done(Search, g, b)
    ensures Done(Bundles, g, b) && Done(Aliases, g, b) && Done(Prices, g, b)
  {
    AllPlansTouch(Variants, b);
    AllPlansTouch(SubTypes, b);
    AllPlansTouch(Search, b);
    AllPlansTouch(Bundles, b);
    AllPlansTouch(Aliases, b);
    AllPlansTouch(Prices, b);
  }

  /** A convergence that goes through leaves every table as its own seed has it. */
  lemma PlanContents(f: File, b: Build)
    requires RunStages(f, b, Plan(b)).1
    ensures Contents(f, RunStages(f, b, Plan(b)).0, b)
  {
    PlanOutcome(f, b);
    PlanIsOwn(b);
    RunWithinSchema(f, b, Plan(b));
    RunKeepsUnsaid(f, b, Plan(b));
    RunKeepsBundles(f, b, Plan(b));
    CodesOfARun(f, b, Plan(b));
    AllPlansTouch(Variants, b);
    SettledContents(f, RunStages(f, b, Plan(b)).0, b);
  }

  /** And so does an open that returns. */
  lemma OpenContents(f: File, b: Build, life: nat)
    requires OpenShared(f, b, life).1
    ensures Contents(f, OpenShared(f, b, life).0, b)
  {
    PlanContents(f, b);
  }

  /** It returns exactly when the file is not newer, it lives long enough, no key of a rewritten table is
      repeated and every sub-type names a variant there will be. */
  lemma OpenReturns(f: File, b: Build, life: nat)
    ensures OpenShared(f, b, life).1
       <==> && f.version <= b.version
            && life >= |b.objects| + |b.columns| + 8
            && DistinctKeys(b.subTypes) && DistinctKeys(b.keywords) && DistinctKeys(b.rarities) && DistinctKeys(b.flags)
            && forall i | 0 <= i < |b.subTypes| ::
                 b.subTypes[i].1 in f.variants.Keys + (set e | e in b.variants :: e.key) + f.printings.Values
    ensures f.version > b.version ==> OpenShared(f, b, life) == (f, false)
  {
    OpenReaches(f, b, life);
    RewriteHolds(b.subTypes);
    RewriteHolds(b.keywords);
    RewriteHolds(b.rarities);
    RewriteHolds(b.flags);
    assert |Plan(b)| == |b.objects| + |b.columns| + 8;
    var table := VariantTable(f.variants, f.printings, b);
    assert table.Keys == f.variants.Keys + (set e | e in b.variants :: e.key) + f.printings.Values;
    assert CodesExist(table, b.subTypes) <==> forall i | 0 <= i < |b.subTypes| :: b.subTypes[i].1 in table.Keys;
  }

  /** A server's open leaves a readable file with this version and this fingerprint alone and returns; any
      other it opens read-write. */
  lemma ServingMeaning(f: File, b: Build, readable: bool, life: nat)
    ensures OpenForServing(f, b, readable, life)
         == if readable && f.version == b.version && f.fingerprint == Some(b.hash) then (f, true)
            else OpenShared(f, b, life)
  {
  }

  // ----- Ingests -----

  /** The variant the ingest's last row for a printing gives it. */
  function LastVariant(ops: seq<Ingest>, id: string): Option<string> {
    if ops == [] then None
    else if LastVariant(ops[1..], id).Some? then LastVariant(ops[1..], id)
    else if ops[0].AddPrinting? && ops[0].id == id then Some(ops[0].variant)
    else None
  }

  /** One row of an ingest: a set, or a printing under its variant, which gets a row if it has none. */
  lemma TakeMeaning(f: File, b: Build, op: Ingest)
    ensures op.AddSet? ==> Take(f, b, op) == f.(sets := f.sets + {op.code})
    ensures op.AddPrinting? ==>
              var g := Take(f, b, op);
              && g == f.(printings := f.printings[op.id := op.variant], variants := g.variants)
              && g.variants.Keys == f.variants.Keys + {op.variant}
              && (forall code | code in f.variants :: g.variants[code] == f.variants[code])
              && (op.variant !in f.variants ==> g.variants[op.variant] == b.synthesize(op.variant))
  {
  }

  lemma TakePrinting(f: File, b: Build, op: Ingest, id: string)
    ensures Lookup(Take(f, b, op).printings, id)
         == if op.AddPrinting? && op.id == id then Some(op.variant) else Lookup(f.printings, id)
  {
  }

  /** Each printing the ingest names has the variant its last row for it gives, the others the one they had. */
  lemma {:induction false} IngestPrintings(f: File, b: Build, ops: seq<Ingest>, id: string)
    ensures Lookup(TakeAll(f, b, ops).printings, id)
         == if LastVariant(ops, id).Some? then LastVariant(ops, id) else Lookup(f.printings, id)
    decreases |ops|
  {
    if ops != [] {
      TakePrinting(f, b, ops[0], id);
      IngestPrintings(Take(f, b, ops[0]), b, ops[1..], id);
    }
  }

  // ----- Builds -----

  /** What an ingest and its closing seeds leave alone. */
  predicate SameOutside(f: File, g: File) {
    g == f.(sets := g.sets, printings := g.printings, variants := g.variants, aliases := g.aliases, prices := g.prices)
  }

  lemma TakeStaysInside(f: File, b: Build, op: Ingest, g: File)
    requires SameOutside(Take(f, b, op), g)
    ensures SameOutside(f, g)
  {
  }

  lemma {:induction false} IngestStaysInside(f: File, b: Build, ops: seq<Ingest>)
    ensures SameOutside(f, TakeAll(f, b, ops))
    decreases |ops|
  {
    if ops != [] {
      IngestStaysInside(Take(f, b, ops[0]), b, ops[1..]);
      TakeStaysInside(f, b, ops[0], TakeAll(f, b, ops));
    }
  }

  lemma CloseMeaning(f: File, b: Build)
    ensures Close(f, b) == f.(aliases := Upsert(f.aliases, f.sets, b.aliases),
                              prices := Upsert(f.prices, f.printings.Keys, b.prices))
  {
    var g := Apply(Aliases, f, b).value;
    assert CLOSING[1..] == [Prices] && [Prices][1..] == [];
    assert RunStages(g, b, [Prices]) == RunStages(Apply(Prices, g, b).value, b, []);
  }

  /** A build that comes to its end leaves the aliases and the prices as their seeds have them under all the
      sets and printings there are now, the ingest's own among them. */
  lemma BuildContents(f: File, b: Build, ops: seq<Ingest>)
    requires Next(f, b, Derive(ops)).1
    ensures var g := Next(f, b, Derive(ops)).0;
            && g.sets == f.sets + NewSets(ops)
            && g.printings.Keys == f.printings.Keys + NewPrintings(ops) 
            && (forall id :: Lookup(g.printings, id)
                          == if LastVariant(ops, id).Some? then LastVariant(ops, id) else Lookup(f.printings, id))
            && g.variants.Keys == f.variants.Keys + SeedCodes(b) + f.printings.Values + NewCodes(ops)
            && VariantsSay(g.variants, b) && RewrittenTables(g, b)
            && SeededOver(f.bundles, g.bundles, {()}, b.bundles)
            && SeededOver(f.aliases, g.aliases, f.sets + NewSets(ops), b.aliases)
            && SeededOver(f.prices, g.prices, f.printings.Keys + NewPrintings(ops), b.prices)
            && SchemaAdded(f, g, b) && g.version == b.version && g.fingerprint == Some(b.hash)
  {
    var start := OpenShared(f, b, |Plan(b)|).0;
    var full := TakeAll(start, b, ops);
    var g := Next(f, b, Derive(ops)).0;
    OpenContents(f, b, |Plan(b)|);
    OpenReaches(f, b, |Plan(b)|);
    IngestAdds(start, b, ops);
    IngestStaysInside(start, b, ops);
    forall id { IngestPrintings(start, b, ops, id); }
    CloseMeaning(full, b);
    FinishedBuild(f, b, ops);
    RunKeepsUnsaid(f, b, Plan(b));
    BuiltTables(f, start, g, b, ops);
  }

  /** A table seeded again under more targets holds what one seeding under all of them leaves. */
  lemma SeededAgain<K(!new), T, V>(before: map<K, V>, start: map<K, V>, few: set<T>, many: set<T>,
                                   seed: seq<Entry<K, T, V>>)
    requires few <= many
    requires forall k :: Says(few, seed, k).None? ==> Lookup(start, k) == Lookup(before, k)
    ensures SeededOver(before, Upsert(start, many, seed), many, seed)
  {
    var after := Upsert(start, many, seed);
    forall k
      ensures Lookup(after, k) == if Says(many, seed, k).Some? then Says(many, seed, k) else Lookup(before, k)
    {
      UpsertMeaning(start, many, seed, k);
      if Says(few, seed, k).Some? {
        MoreTargetsSayMore(few, many, seed, k);
      }
    }
    LookupsSeed(before, after, many, seed);
  }

  lemma BuiltTables(f: File, start: File, g: File, b: Build, ops: seq<Ingest>)
    requires Settled(g, b) && SameOutside(start, g) && KeepsUnsaid(f, start, b)
    requires g.sets == f.sets + NewSets(ops) && g.printings.Keys == f.printings.Keys + NewPrintings(ops)
    requires g.aliases == Upsert(start.aliases, g.sets, b.aliases)
    requires g.prices == Upsert(start.prices, g.printings.Keys, b.prices)
    ensures VariantsSay(g.variants, b)
    ensures SeededOver(f.aliases, g.aliases, g.sets, b.aliases)
    ensures SeededOver(f.prices, g.prices, g.printings.Keys, b.prices)
  {
    SettledTables(g, b);
    VariantContents(g, b);
    SeededAgain(f.aliases, start.aliases, f.sets, g.sets, b.aliases);
    SeededAgain(f.prices, start.prices, f.printings.Keys, g.printings.Keys, b.prices);
  }
}
