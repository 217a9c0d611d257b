/** One catalog file shared by builds that ship different seeds: what another build's open undoes of this
    build's convergence, and when this build's servers can tell. */
module MixedBuilds {
  import opened Wrappers
  import opened Seeds
  import opened Convergence

  // ----- Where two builds say the same -----

  /** Two seeds never say different things of a key. */
  ghost predicate SayAlike<K(!new), T, V>(targets: set<T>, a: seq<Entry<K, T, V>>, b: seq<Entry<K, T, V>>) {
    forall k :: Says(targets, a, k).Some? && Says(targets, b, k).Some? ==> Says(targets, a, k) == Says(targets, b, k)
  }

  /** What two builds' transactions of a kind write to a file does not clash. */
  ghost predicate Agree(s: Stage, f: File, a: Build, b: Build) {
    match s
    case Schema(_) => true
    case Column(_) => true
    case Variants => forall code | code in f.variants.Keys + SeedCodes(b) :: VariantRow(a, code) == VariantRow(b, code)
    case SubTypes => Rewrite(a.subTypes) == Rewrite(b.subTypes)
    case Bundles => SayAlike(ALWAYS, a.bundles, b.bundles)
    case Aliases => SayAlike(f.sets, a.aliases, b.aliases)
    case Prices => SayAlike(f.printings.Keys, a.prices, b.prices)
    case Search =>
      && Rewrite(a.keywords) == Rewrite(b.keywords)
      && Rewrite(a.rarities) == Rewrite(b.rarities)
      && Rewrite(a.flags) == Rewrite(b.flags)
    case Stamp => a.version == b.version
    case Record => a.hash == b.hash
  }

  /** A reconcile has nothing to write exactly when the table says what the seed says. */
  lemma NothingToWrite<K(!new), T, V>(table: map<K, V>, targets: set<T>, seed: seq<Entry<K, T, V>>)
    ensures Upsert(table, targets, seed) == table
       <==> forall k :: Says(targets, seed, k).Some? ==> Lookup(table, k) == Says(targets, seed, k)
  {
    forall k
      ensures Lookup(Upsert(table, targets, seed), k)
           == if Says(targets, seed, k).Some? then Says(targets, seed, k) else Lookup(table, k)
    {
      UpsertMeaning(table, targets, seed, k);
    }
    if forall k :: Says(targets, seed, k).Some? ==> Lookup(table, k) == Says(targets, seed, k) {
      SameLookups(Upsert(table, targets, seed), table);
    }
  }

  /** A table one seed has nothing to write to is still so after another seed exactly when they agree. */
  lemma ReseedsAgree<K(!new), T, V>(table: map<K, V>, targets: set<T>, a: seq<Entry<K, T, V>>,
                                    b: seq<Entry<K, T, V>>)
    requires Upsert(table, targets, a) == table
    ensures var t := Upsert(table, targets, b);
            Upsert(t, targets, a) == t <==> SayAlike(targets, a, b)
  {
    var t := Upsert(table, targets, b);
    NothingToWrite(table, targets, a);
    NothingToWrite(t, targets, a);
    forall k
      ensures Lookup(t, k) == if Says(targets, b, k).Some? then Says(targets, b, k) else Lookup(table, k)
    {
      UpsertMeaning(table, targets, b, k);
    }
  }

  lemma VariantsSaidTwice(table: map<string, Variant>, printings: map<string, string>, a: Build, codes: set<string>,
                          b: Build)
    requires table.Keys == codes && SeedCodes(a) <= codes && printings.Values <= codes
    requires forall code | code in codes :: table[code] == VariantRow(b, code)
    ensures VariantTable(table, printings, a) == table
       <==> forall code | code in codes :: VariantRow(a, code) == VariantRow(b, code)
  {
    var again := VariantTable(table, printings, a);
    assert again.Keys == codes;
    forall code | code in codes ensures again[code] == VariantRow(a, code) {}
    if again == table {
      forall code | code in codes ensures VariantRow(a, code) == VariantRow(b, code) {
        assert again[code] == table[code];
      }
    }
  }

  lemma VariantsCover(f: File, a: Build)
    requires Done(Variants, f, a)
    ensures SeedCodes(a) <= f.variants.Keys && f.printings.Values <= f.variants.Keys
  {
    assert VariantTable(f.variants, f.printings, a).Keys == f.variants.Keys;
  }

  lemma VariantsAgree(f: File, a: Build, b: Build)
    requires Done(Variants, f, a)
    ensures Done(Variants, Apply(Variants, f, b).value, a) <==> Agree(Variants, f, a, b)
  {
    VariantsCover(f, a);
    var table := VariantTable(f.variants, f.printings, b);
    assert table.Keys == f.variants.Keys + SeedCodes(b);
    VariantsSaidTwice(table, f.printings, a, f.variants.Keys + SeedCodes(b), b);
  }

  /** Where one build has finished with a table, another build's transaction leaves it finished with
      exactly when the two agree on it. */
  lemma OneTable(s: Stage, f: File, a: Build, b: Build)
    requires Done(s, f, a) && Apply(s, f, b).Some?
    ensures Done(s, Apply(s, f, b).value, a) <==> Agree(s, f, a, b)
  {
    match s
    case Schema(name) => assert f.objects + {name} + {name} == f.objects + {name};
    case Column(column) => assert f.columns + {column} + {column} == f.columns + {column};
    case Variants => VariantsAgree(f, a, b);
    case Bundles => ReseedsAgree(f.bundles, ALWAYS, a.bundles, b.bundles);
    case Aliases => ReseedsAgree(f.aliases, f.sets, a.aliases, b.aliases);
    case Prices => ReseedsAgree(f.prices, f.printings.Keys, a.prices, b.prices);
    case _ =>
  }

  lemma VariantsAreOnlyAdded(s: Stage, f: File, b: Build)
    requires Apply(s, f, b).Some?
    ensures f.variants.Keys <= Apply(s, f, b).value.variants.Keys
  {
  }

  lemma SubTypesApart(s: Stage, f: File, a: Build, b: Build)
    requires s != SubTypes && Fits(f, a) && Apply(s, f, b).Some?
    ensures Done(SubTypes, Apply(s, f, b).value, a) <==> Done(SubTypes, f, a)
  {
    VariantsAreOnlyAdded(s, f, b);
    assert Apply(s, f, b).value.subTypes == f.subTypes;
  }

  lemma SchemaStays(s: Stage, t: Stage, f: File, a: Build, b: Build)
    requires (t.Schema? || t.Column?) && Done(t, f, a) && Apply(s, f, b).Some?
    ensures Done(t, Apply(s, f, b).value, a)
  {
    var g := Apply(s, f, b).value;
    match t
    case Schema(name) =>
      assert name in f.objects + {name};
      assert g.objects + {name} == g.objects;
    case Column(column) =>
      assert column in f.columns + {column};
      assert g.columns + {column} == g.columns;
  }

  /** A transaction of another build neither undoes nor does what this build does elsewhere. */
  lemma OtherTables(s: Stage, t: Stage, f: File, a: Build, b: Build)
    requires s != t && Fits(f, a) && Apply(s, f, b).Some?
    requires t.Schema? || t.Column? ==> Done(t, f, a)
    ensures Done(t, Apply(s, f, b).value, a) <==> Done(t, f, a)
  {
    if t.Schema? || t.Column? {
      SchemaStays(s, t, f, a, b);
    } else if t == SubTypes {
      SubTypesApart(s, f, a, b);
    }
  }

  /** Where two builds agree does not change while one of them works. */
  lemma AgreementStays(s: Stage, t: Stage, f: File, a: Build, b: Build)
    requires f.printings.Values <= f.variants.Keys && Apply(s, f, b).Some?
    ensures Agree(t, Apply(s, f, b).value, a, b) <==> Agree(t, f, a, b)
  {
    if s.Variants? {
      assert Apply(s, f, b).value.variants.Keys + SeedCodes(b) == f.variants.Keys + SeedCodes(b);
    }
  }

  // ----- What another build's work undoes -----

  /** The file `g` came of `f` by some of b's transactions: a's are undone exactly where the two clash. */
  ghost predicate Tracks(f: File, g: File, a: Build, b: Build, did: seq<Stage>) {
    && Fits(g, a)
    && g.printings.Values <= g.variants.Keys
    && AllDone(did, g, b)
    && (forall t | Touches(Plan(a), t) :: Done(t, g, a) <==> (Touches(did, t) ==> Agree(t, f, a, b)))
    && (forall t :: Agree(t, g, a, b) <==> Agree(t, f, a, b))
  }

  lemma DidOneMore(did: seq<Stage>, s: Stage, t: Stage)
    ensures Touches(did + [s], t) <==> Touches(did, t) || s == t
  {
    if Touches(did, t) {
      var i :| 0 <= i < |did| && did[i] == t;
      assert (did + [s])[i] == t;
    }
    if s == t {
      assert (did + [s])[|did|] == t;
    }
  }

  lemma TrackOne(s: Stage, f: File, g: File, a: Build, b: Build, did: seq<Stage>, t: Stage)
    requires Tracks(f, g, a, b, did) && Apply(s, g, b).Some? && Touches(Plan(a), t)
    ensures Done(t, Apply(s, g, b).value, a) <==> (Touches(did + [s], t) ==> Agree(t, f, a, b))
  {
    DidOneMore(did, s, t);
    if t != s {
      if t.Schema? || t.Column? {
        assert Agree(t, f, a, b);
      }
      OtherTables(s, t, g, a, b);
    } else if Touches(did, t) {
      assert Done(s, g, b);
    } else {
      OneTable(s, g, a, b);
    }
  }

  lemma TrackStep(s: Stage, f: File, g: File, a: Build, b: Build, did: seq<Stage>)
    requires Tracks(f, g, a, b, did) && Apply(s, g, b).Some?
    ensures Tracks(f, Apply(s, g, b).value, a, b, did + [s])
  {
    var h := Apply(s, g, b).value;
    FitsStays(s, g, b, a);
    AllStayDone(s, did, g, b);
    AppliedIsDone(s, g, b);
    assert AllDone(did + [s], h, b);
    assert g.variants.Keys <= h.variants.Keys;
    forall t | Touches(Plan(a), t)
      ensures Done(t, h, a) <==> (Touches(did + [s], t) ==> Agree(t, f, a, b))
    {
      TrackOne(s, f, g, a, b, did, t);
    }
    forall t ensures Agree(t, h, a, b) <==> Agree(t, f, a, b) {
      AgreementStays(s, t, g, a, b);
    }
  }

  lemma {:induction false} TrackAll(f: File, g: File, a: Build, b: Build, did: seq<Stage>, stages: seq<Stage>)
    requires Tracks(f, g, a, b, did) && RunStages(g, b, stages).1
    ensures Tracks(f, RunStages(g, b, stages).0, a, b, did + stages)
    decreases |stages|
  {
    if stages == [] {
      assert did + stages == did;
    } else {
      TrackStep(stages[0], f, g, a, b, did);
      TrackAll(f, Apply(stages[0], g, b).value, a, b, did + [stages[0]], stages[1..]);
      assert did + stages == did + [stages[0]] + stages[1..];
    }
  }

  lemma PlanEnds(b: Build)
    ensures Touches(Plan(b), Record)
  {
    assert Plan(b)[|Work(b)|] == Record;
  }

  lemma PlanDoes(t: Stage, f: File, b: Build)
    requires Settled(f, b) && Touches(Plan(b), t)
    ensures Done(t, f, b)
  {
  }

  lemma SettledTracks(f: File, a: Build, b: Build)
    requires Settled(f, a)
    ensures Tracks(f, f, a, b, [])
  {
    PlanHas(a, 0);
    PlanHas(a, 1);
    PlanHas(a, 5);
    SettledFits(f, a);
    VariantsCover(f, a);
  }

  /** Every table other than the schema is part of every plan. */
  lemma AllPlansTouch(t: Stage, b: Build)
    requires !t.Schema? && !t.Column?
    ensures Touches(Plan(b), t)
  {
    PlanEnds(b);
    var i := match t
      case Variants => 0
      case SubTypes => 1
      case Bundles => 2
      case Aliases => 3
      case Prices => 4
      case Search => 5
      case _ => 6;
    PlanHas(b, i);
  }

  ghost predicate AgreeOn(stages: seq<Stage>, f: File, a: Build, b: Build) {
    forall t | Touches(stages, t) :: Agree(t, f, a, b)
  }

  /** After some of another build's transactions a settled file is still settled exactly when the two
      builds agree on each of them. */
  lemma TheirWorkUndoes(f: File, a: Build, b: Build, stages: seq<Stage>)
    requires Settled(f, a) && RunStages(f, b, stages).1
    ensures var g := RunStages(f, b, stages).0;
            Fits(g, a) && (Settled(g, a) <==> AgreeOn(stages, f, a, b))
  {
    var g := RunStages(f, b, stages).0;
    SettledTracks(f, a, b);
    TrackAll(f, f, a, b, [], stages);
    assert [] + stages == stages;
    if Settled(g, a) {
      forall t | Touches(stages, t) ensures Agree(t, f, a, b) {
        if !t.Schema? && !t.Column? {
          AllPlansTouch(t, a);
          PlanDoes(t, g, a);
        }
      }
    }
    if AgreeOn(stages, f, a, b) {
      forall i | 0 <= i < |Plan(a)| ensures Done(Plan(a)[i], g, a) {
        assert Touches(Plan(a), Plan(a)[i]);
      }
    }
  }

  // ----- How far an open gets -----

  predicate Searchable(b: Build) {
    Rewrite(b.keywords).Some? && Rewrite(b.rarities).Some? && Rewrite(b.flags).Some?
  }

  /** How many of its transactions go through before one fails: rewrites are the only ones that can. */
  function Limit(f: File, b: Build): nat {
    var n := |b.objects| + |b.columns|;
    if SubTypeTable(VariantTable(f.variants, f.printings, b), b).None? then n + 1
    else if !Searchable(b) then n + 5
    else n + 8
  }

  /** The transactions an open that lives so long gets done. */
  function Reached(f: File, b: Build, life: nat): seq<Stage> {
    if f.version > b.version then []
    else Plan(b)[..if life < Limit(f, b) then life else Limit(f, b)]
  }

  predicate SchemaOnly(stages: seq<Stage>) {
    forall i | 0 <= i < |stages| :: stages[i].Schema? || stages[i].Column?
  }

  lemma SchemaTail(stages: seq<Stage>)
    requires SchemaOnly(stages) && stages != []
    ensures SchemaOnly(stages[1..])
  {
    assert forall i | 0 <= i < |stages[1..]| :: stages[1..][i] == stages[i + 1];
  }

  lemma SchemaStep(s: Stage, f: File, b: Build)
    requires s.Schema? || s.Column?
    ensures Apply(s, f, b).Some?
    ensures Apply(s, f, b).value.variants == f.variants && Apply(s, f, b).value.printings == f.printings
  {
  }

  lemma {:induction false} SchemaRuns(f: File, b: Build, stages: seq<Stage>)
    requires SchemaOnly(stages)
    ensures var (g, ok) := RunStages(f, b, stages);
            ok && g.variants == f.variants && g.printings == f.printings
    decreases |stages|
  {
    if stages != [] {
      SchemaStep(stages[0], f, b);
      SchemaTail(stages);
      SchemaRuns(Apply(stages[0], f, b).value, b, stages[1..]);
    }
  }

  function Head(b: Build): seq<Stage> {
    SchemaStages(b.objects) + ColumnStages(b.columns)
  }

  /** One more transaction after some that went through. */
  lemma RunSnoc(f: File, b: Build, stages: seq<Stage>, s: Stage)
    requires RunStages(f, b, stages).1
    ensures var g := RunStages(f, b, stages).0;
            RunStages(f, b, stages + [s]) == if Apply(s, g, b).Some? then (Apply(s, g, b).value, true) else (g, false)
  {
    var g := RunStages(f, b, stages).0;
    RunSplits(f, b, stages, [s]);
    assert [s][1..] == [];
    if Apply(s, g, b).Some? {
      assert RunStages(Apply(s, g, b).value, b, []) == (Apply(s, g, b).value, true);
    }
  }

  /** Where the first transaction after some fails, nothing after it is done. */
  lemma StopsThere(f: File, b: Build, stages: seq<Stage>, limit: nat, n: nat)
    requires limit < n <= |stages|
    requires RunStages(f, b, stages[..limit]).1
    requires Apply(stages[limit], RunStages(f, b, stages[..limit]).0, b).None?
    ensures RunStages(f, b, stages[..n]) == (RunStages(f, b, stages[..limit]).0, false)
  {
    RunSnoc(f, b, stages[..limit], stages[limit]);
    RunSplits(f, b, stages[..limit] + [stages[limit]], stages[limit + 1..n]);
    assert stages[..n] == stages[..limit] + [stages[limit]] + stages[limit + 1..n];
  }

  lemma PrefixRuns(f: File, b: Build, stages: seq<Stage>, n: nat)
    requires n <= |stages| && RunStages(f, b, stages).1
    ensures RunStages(f, b, stages[..n]).1
  {
    assert stages == stages[..n] + stages[n..];
    RunSplits(f, b, stages[..n], stages[n..]);
  }

  /** Bundles, aliases and prices never fail and touch no variant. */
  lemma UpsertsRun(f: File, b: Build)
    ensures RunStages(f, b, [Bundles, Aliases, Prices]).1
  {
    var g := Apply(Bundles, f, b).value;
    var h := Apply(Aliases, g, b).value;
    assert [Bundles, Aliases, Prices][1..] == [Aliases, Prices];
    assert [Aliases, Prices][1..] == [Prices] && [Prices][1..] == [];
    assert RunStages(h, b, [Prices]) == RunStages(Apply(Prices, h, b).value, b, []);
    assert RunStages(g, b, [Aliases, Prices]) == RunStages(h, b, [Prices]);
  }

  /** The two rewrites are where a convergence can stop. */
  lemma UpToSubTypes(f: File, b: Build)
    ensures var g := RunStages(f, b, Head(b) + [Variants]).0;
            && RunStages(f, b, Head(b) + [Variants]).1
            && (Apply(SubTypes, g, b).Some? <==> SubTypeTable(VariantTable(f.variants, f.printings, b), b).Some?)
  {
    assert SchemaOnly(Head(b));
    SchemaRuns(f, b, Head(b));
    RunSnoc(f, b, Head(b), Variants);
  }

  lemma UpToSearch(f: File, b: Build)
    requires SubTypeTable(VariantTable(f.variants, f.printings, b), b).Some?
    ensures RunStages(f, b, Head(b) + [Variants, SubTypes, Bundles, Aliases, Prices]).1
  {
    UpToSubTypes(f, b);
    RunSnoc(f, b, Head(b) + [Variants], SubTypes);
    var g := RunStages(f, b, Head(b) + [Variants] + [SubTypes]).0;
    RunSplits(f, b, Head(b) + [Variants] + [SubTypes], [Bundles, Aliases, Prices]);
    UpsertsRun(g, b);
    assert Head(b) + [Variants, SubTypes, Bundles, Aliases, Prices]
        == Head(b) + [Variants] + [SubTypes] + [Bundles, Aliases, Prices];
  }

  lemma UpToTheEnd(f: File, b: Build)
    requires SubTypeTable(VariantTable(f.variants, f.printings, b), b).Some? && Searchable(b)
    ensures RunStages(f, b, Plan(b)).1
  {
    UpToSearch(f, b);
    var head := Head(b) + [Variants, SubTypes, Bundles, Aliases, Prices];
    RunSnoc(f, b, head, Search);
    var g := RunStages(f, b, head + [Search]).0;
    RunSnoc(f, b, head + [Search], Stamp);
    RunSnoc(f, b, head + [Search] + [Stamp], Record);
    assert Plan(b) == head + [Search] + [Stamp] + [Record];
  }

  /** Everything up to the limit goes through, and nothing past it is done. */
  lemma LimitIsExact(f: File, b: Build, n: nat)
    requires n <= |Plan(b)|
    ensures var limit := Limit(f, b);
            && limit <= |Plan(b)|
            && RunStages(f, b, Plan(b)[..if n < limit then n else limit]).1
            && RunStages(f, b, Plan(b)[..n]) == (RunStages(f, b, Plan(b)[..if n < limit then n else limit]).0, n <= limit)
  {
    var limit, plan, k := Limit(f, b), Plan(b), |b.objects| + |b.columns|;
    assert |plan| == k + 8;
    if SubTypeTable(VariantTable(f.variants, f.printings, b), b).None? {
      UpToSubTypes(f, b);
      assert plan[..limit] == Head(b) + [Variants] && plan[limit] == SubTypes;
    } else if !Searchable(b) {
      UpToSearch(f, b);
      assert plan[..limit] == Head(b) + [Variants, SubTypes, Bundles, Aliases, Prices] && plan[limit] == Search;
    } else {
      UpToTheEnd(f, b);
      assert plan[..limit] == plan;
    }
    if n <= limit {
      assert plan[..limit][..n] == plan[..n];
      PrefixRuns(f, b, plan[..limit], n);
    } else {
      StopsThere(f, b, plan, limit, n);
    }
  }

  /** An open does exactly the transactions it reaches, and returns when those are all of them. */
  lemma OpenReaches(f: File, b: Build, life: nat)
    ensures var (g, ok) := OpenShared(f, b, life);
            && RunStages(f, b, Reached(f, b, life)) == (g, true)
            && (ok <==> life >= |Plan(b)| && Reached(f, b, life) == Plan(b))
  {
    var n := if life < |Plan(b)| then life else |Plan(b)|;
    assert Plan(b)[..|Plan(b)|] == Plan(b);
    LimitIsExact(f, b, n);
  }

  // ----- What another build's open undoes -----

  /** After another build's open, wherever it died, the file is still settled exactly when the two builds
      agree on every transaction the open reached. */
  lemma TheirOpenUndoes(f: File, a: Build, b: Build, life: nat)
    requires Settled(f, a)
    ensures var g := OpenShared(f, b, life).0;
            Fits(g, a) && (Settled(g, a) <==> AgreeOn(Reached(f, b, life), f, a, b))
  {
    OpenReaches(f, b, life);
    TheirWorkUndoes(f, a, b, Reached(f, b, life));
  }

  /** Transactions of b that leave both of a's marks in place. */
  predicate MarksStay(stages: seq<Stage>, a: Build, b: Build) {
    && (Touches(stages, Stamp) ==> a.version == b.version)
    && (Touches(stages, Record) ==> a.hash == b.hash)
  }

  /** Transactions of b after which a is refused. */
  predicate Outdates(stages: seq<Stage>, a: Build, b: Build) {
    Touches(stages, Stamp) && b.version > a.version
  }

  /** This build's marks outlive it exactly when it stopped before its stamp, or stamps the same version
      and stopped before its record. */
  lemma EarlyDeathsAreInvisible(f: File, a: Build, b: Build, life: nat)
    requires IsConverged(f, a)
    ensures IsConverged(OpenShared(f, b, life).0, a) <==> MarksStay(Reached(f, b, life), a, b)
  {
    OpenReaches(f, b, life);
    MarksAfter(f, b, Reached(f, b, life));
  }

  function Marks(f: File): (int, Option<string>) {
    (f.version, f.fingerprint)
  }

  lemma MarksAfterOne(s: Stage, f: File, b: Build)
    requires Apply(s, f, b).Some?
    ensures Marks(Apply(s, f, b).value)
         == (if s == Stamp then b.version else f.version, if s == Record then Some(b.hash) else f.fingerprint)
  {
  }

  lemma {:induction false} MarksAfter(f: File, b: Build, stages: seq<Stage>)
    requires RunStages(f, b, stages).1
    ensures Marks(RunStages(f, b, stages).0)
         == (if Touches(stages, Stamp) then b.version else f.version,
             if Touches(stages, Record) then Some(b.hash) else f.fingerprint)
  {
    if stages != [] {
      var n := |stages| - 1;
      PrefixRuns(f, b, stages, n);
      MarksAfter(f, b, stages[..n]);
      assert stages[..n] + [stages[n]] == stages;
      MarksOfOneMore(f, b, stages[..n], stages[n]);
    }
  }

  lemma MarksOfOneMore(f: File, b: Build, front: seq<Stage>, last: Stage)
    requires RunStages(f, b, front).1 && RunStages(f, b, front + [last]).1
    requires Marks(RunStages(f, b, front).0)
          == (if Touches(front, Stamp) then b.version else f.version,
              if Touches(front, Record) then Some(b.hash) else f.fingerprint)
    ensures Marks(RunStages(f, b, front + [last]).0)
         == (if Touches(front + [last], Stamp) then b.version else f.version,
             if Touches(front + [last], Record) then Some(b.hash) else f.fingerprint)
  {
    RunSnoc(f, b, front, last);
    MarksAfterOne(last, RunStages(f, b, front).0, b);
    DidOneMore(front, last, Stamp);
    DidOneMore(front, last, Record);
  }

  /** A file that a build fits is left alone by that build's whole open exactly when it is settled. */
  lemma IdleMeansSettled(f: File, b: Build)
    requires Fits(f, b) && f.version <= b.version
    ensures OpenShared(f, b, |Plan(b)|).0 == f <==> Settled(f, b)
  {
    FittingRunsFinish(f, b, b, Plan(b));
    PlanOutcome(f, b);
    if Settled(f, b) {
      SettledOpensIdle(f, b, |Plan(b)|);
    }
  }

  /** After another build's open this build's next one would change nothing exactly when the two agree on
      everything that open reached, or it reached the stamp of a newer version. */
  lemma TheNextOpenIsIdle(f: File, a: Build, b: Build, life: nat)
    requires Settled(f, a)
    ensures var g, stages := OpenShared(f, b, life).0, Reached(f, b, life);
            OpenShared(g, a, |Plan(a)|).0 == g <==> AgreeOn(stages, f, a, b) || Outdates(stages, a, b)
  {
    var g, stages := OpenShared(f, b, life).0, Reached(f, b, life);
    TheirOpenUndoes(f, a, b, life);
    OpenReaches(f, b, life);
    MarksAfter(f, b, stages);
    SettledIsMarked(f, a);
    if g.version <= a.version {
      IdleMeansSettled(g, a);
    }
  }

  /** This build's servers take the read-only path on a file a convergence would change exactly when the
      other open stopped before it could touch a mark, and after it reached something the two builds
      disagree on. */
  lemma AnotherBuildsDeathIsBelieved(f: File, a: Build, b: Build, life: nat)
    requires Settled(f, a)
    ensures var g, stages := OpenShared(f, b, life).0, Reached(f, b, life);
            IsConverged(g, a) && OpenShared(g, a, |Plan(a)|).0 != g
            <==> MarksStay(stages, a, b) && !AgreeOn(stages, f, a, b)
  {
    SettledIsMarked(f, a);
    TheNextOpenIsIdle(f, a, b, life);
    EarlyDeathsAreInvisible(f, a, b, life);
  }
}
