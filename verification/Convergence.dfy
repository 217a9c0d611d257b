/** A catalog file under crashable convergence: an open runs a fixed list of small transactions and may
    die between any two of them; a server's open looks at two marks in the file and, when they are this
    build's, runs none. */
module Convergence {
  import opened Wrappers
  import opened Seeds

  datatype Variant = Variant(caption: string, short: string, rank: int, tiebreak: int, color: string,
                             provenance: Option<string>, foil: bool)
  datatype Bundle = Bundle(name: string, year: int, group: int, series: string)
  datatype Price = Price(price: int, observedAt: string, note: Option<string>)

  /** Everything in the catalog that a convergence reads or writes. `printings` gives each printing its
      variant code. */
  datatype File = File(
    version: int,
    objects: set<string>,
    columns: set<(string, string)>,
    variants: map<string, Variant>,
    subTypes: map<(int, string), string>,
    bundles: map<string, Bundle>,
    aliases: map<string, string>,
    prices: map<string, Price>,
    keywords: map<string, string>,
    rarities: map<string, string>,
    flags: map<string, string>,
    fingerprint: Option<string>,
    sets: set<string>,
    printings: map<string, string>)

  /** What a binary ships: its version, its fingerprint and its seeds. */
  datatype Build = Build(
    version: int,
    hash: string,
    objects: seq<string>,
    columns: seq<(string, string)>,
    synthesize: string -> Variant,
    variants: seq<Entry<string, (), Variant>>,
    subTypes: seq<((int, string), string)>,
    bundles: seq<Entry<string, (), Bundle>>,
    aliases: seq<Entry<string, string, string>>,
    prices: seq<Entry<string, string, Price>>,
    keywords: seq<(string, string)>,
    rarities: seq<(string, string)>,
    flags: seq<(string, string)>)

  // ----- The transactions -----

  datatype Stage =
    | Schema(name: string) | Column(column: (string, string))
    | Variants | SubTypes | Bundles | Aliases | Prices | Search
    | Stamp | Record

  /** Bundles and variants refer to nothing an ingest creates. */
  const ALWAYS: set<()> := {()}

  /** Seed rows as the seed has them; a synthesized row for every other code, whether it was in the table
      or only on a printing. */
  function VariantTable(variants: map<string, Variant>, printings: map<string, string>, b: Build)
    : map<string, Variant>
  {
    map code | code in variants.Keys + SeedCodes(b) + printings.Values :: VariantRow(b, code)
  }

  function SeedCodes(b: Build): set<string> {
    set e | e in b.variants :: e.key
  }

  function VariantRow(b: Build, code: string): Variant {
    Says(ALWAYS, b.variants, code).GetOr(b.synthesize(code))
  }

  predicate CodesExist(variants: map<string, Variant>, rows: seq<((int, string), string)>) {
    forall i | 0 <= i < |rows| :: rows[i].1 in variants
  }

  function SubTypeTable(variants: map<string, Variant>, b: Build): Option<map<(int, string), string>> {
    if CodesExist(variants, b.subTypes) then Rewrite(b.subTypes) else None
  }

  /** One transaction; `None` when it fails and is rolled back. */
  function Apply(s: Stage, f: File, b: Build): Option<File> {
    match s
    case Schema(name) => Some(f.(objects := f.objects + {name}))
    case Column(column) => Some(f.(columns := f.columns + {column}))
    case Variants => Some(f.(variants := VariantTable(f.variants, f.printings, b)))
    case SubTypes =>
      var table := SubTypeTable(f.variants, b);
      if table.Some? then Some(f.(subTypes := table.value)) else None
    case Bundles => Some(f.(bundles := Upsert(f.bundles, ALWAYS, b.bundles)))
    case Aliases => Some(f.(aliases := Upsert(f.aliases, f.sets, b.aliases)))
    case Prices => Some(f.(prices := Upsert(f.prices, f.printings.Keys, b.prices)))
    case Search =>
      var keywords, rarities, flags := Rewrite(b.keywords), Rewrite(b.rarities), Rewrite(b.flags);
      if keywords.Some? && rarities.Some? && flags.Some?
      then Some(f.(keywords := keywords.value, rarities := rarities.value, flags := flags.value))
      else None
    case Stamp => Some(f.(version := b.version))
    case Record => Some(f.(fingerprint := Some(b.hash)))
  }

  function SchemaStages(objects: seq<string>): seq<Stage> {
    seq(|objects|, i requires 0 <= i < |objects| => Schema(objects[i]))
  }

  function ColumnStages(columns: seq<(string, string)>): seq<Stage> {
    seq(|columns|, i requires 0 <= i < |columns| => Column(columns[i]))
  }

  /** A convergence up to the claim that it happened. */
  function Work(b: Build): seq<Stage> {
    SchemaStages(b.objects) + ColumnStages(b.columns)
    + [Variants, SubTypes, Bundles, Aliases, Prices, Search, Stamp]
  }

  function Plan(b: Build): seq<Stage> {
    Work(b) + [Record]
  }

  /** The file after some transactions, and whether all of them went through. */
  function RunStages(f: File, b: Build, stages: seq<Stage>): (File, bool)
    decreases |stages|
  {
    if stages == [] then (f, true)
    else
      var next := Apply(stages[0], f, b);
      if next.Some? then RunStages(next.value, b, stages[1..]) else (f, false)
  }

  // ----- Opens, ingests, builds -----

  /** A read-write open that dies after `life` transactions, or never if that is past the end. The flag
      says whether it returned a connection. */
  function OpenShared(f: File, b: Build, life: nat): (File, bool) {
    if f.version > b.version then (f, false)
    else if life < |Plan(b)| then (RunStages(f, b, Plan(b)[..life]).0, false)
    else RunStages(f, b, Plan(b))
  }

  predicate IsConverged(f: File, b: Build) {
    f.version == b.version && f.fingerprint == Some(b.hash)
  }

  /** A server's open: `readable` says whether the file could be opened read-only. */
  function OpenForServing(f: File, b: Build, readable: bool, life: nat): (File, bool) {
    if readable && IsConverged(f, b) then (f, true) else OpenShared(f, b, life)
  }

  datatype Ingest = AddSet(code: string) | AddPrinting(id: string, variant: string)

  /** An ingest only adds; a printing's variant code gets a row first if it has none. */
  function Take(f: File, b: Build, op: Ingest): File {
    match op
    case AddSet(code) => f.(sets := f.sets + {code})
    case AddPrinting(id, variant) =>
      f.(variants := if variant in f.variants then f.variants else f.variants[variant := b.synthesize(variant)],
         printings := f.printings[id := variant])
  }

  function TakeAll(f: File, b: Build, ops: seq<Ingest>): File
    decreases |ops|
  {
    if ops == [] then f else TakeAll(Take(f, b, ops[0]), b, ops[1..])
  }

  const CLOSING := [Aliases, Prices]

  /** The two seeds that refer to rows an ingest creates, reconciled again at the end of a build. */
  function Close(f: File, b: Build): File {
    RunStages(f, b, CLOSING).0
  }

  /** A build may be abandoned when its ingest has got so far, or between its two closing seeds. */
  datatype Event =
    | Open(life: nat)
    | Serve(readable: bool, life: nat)
    | Derive(ops: seq<Ingest>)
    | Abandon(ops: seq<Ingest>, aliased: bool)

  /** The file an abandoned build leaves, if its open went through. */
  function Left(f: File, b: Build, ops: seq<Ingest>, aliased: bool): File {
    var g := TakeAll(f, b, ops);
    if aliased then Apply(Aliases, g, b).value else g
  }

  /** One event by one build; the flag says whether it came to its end. */
  function Next(f: File, b: Build, e: Event): (File, bool) {
    match e
    case Open(life) => OpenShared(f, b, life)
    case Serve(readable, life) => OpenForServing(f, b, readable, life)
    case Derive(ops) =>
      var start := OpenShared(f, b, |Plan(b)|);
      if start.1 then (Close(TakeAll(start.0, b, ops), b), true) else start
    case Abandon(ops, aliased) =>
      var start := OpenShared(f, b, |Plan(b)|);
      (if start.1 then Left(start.0, b, ops, aliased) else start.0, false)
  }

  function Run(f: File, events: seq<(Build, Event)>): File
    decreases |events|
  {
    if events == [] then f else Run(Next(f, events[0].0, events[0].1).0, events[1..])
  }

  // ----- A convergence leaves nothing for the next one to do -----

  /** The transaction goes through and changes nothing. */
  ghost predicate Done(s: Stage, f: File, b: Build) {
    Apply(s, f, b) == Some(f)
  }

  ghost predicate AllDone(stages: seq<Stage>, f: File, b: Build) {
    forall i | 0 <= i < |stages| :: Done(stages[i], f, b)
  }

  ghost predicate Settled(f: File, b: Build) {
    AllDone(Plan(b), f, b)
  }

  lemma VariantsSettle(variants: map<string, Variant>, printings: map<string, string>, b: Build)
    ensures var t := VariantTable(variants, printings, b);
            VariantTable(t, printings, b) == t
  {
  }

  lemma VariantsStaySettled(variants: map<string, Variant>, printings: map<string, string>, b: Build,
                            id: string, code: string)
    requires VariantTable(variants, printings, b) == variants
    ensures var grown := if code in variants then variants else variants[code := b.synthesize(code)];
            VariantTable(grown, printings[id := code], b) == grown
  {
    var grown := if code in variants then variants else variants[code := b.synthesize(code)];
    var codes := set e | e in b.variants :: e.key;
    assert codes <= variants.Keys && printings.Values <= variants.Keys;
    if code !in variants {
      UnsaidCode(b.variants, code);
    }
    assert printings[id := code].Values <= printings.Values + {code};
    assert (grown.Keys + codes + printings[id := code].Values) == grown.Keys;
  }

  lemma {:induction false} UnsaidCode(seed: seq<Entry<string, (), Variant>>, code: string)
    requires code !in (set e | e in seed :: e.key)
    ensures Says(ALWAYS, seed, code).None?
  {
    if seed != [] {
      assert seed[|seed| - 1] in seed;
      assert forall e | e in seed[..|seed| - 1] :: e in seed;
      UnsaidCode(seed[..|seed| - 1], code);
    }
  }

  /** A transaction that just went through has nothing left to do. */
  lemma AppliedIsDone(s: Stage, f: File, b: Build)
    requires Apply(s, f, b).Some?
    ensures Done(s, Apply(s, f, b).value, b)
  {
    match s
    case Variants => VariantsSettle(f.variants, f.printings, b);
    case Bundles => ReseedIsIdempotent(f.bundles, ALWAYS, b.bundles);
    case Aliases => ReseedIsIdempotent(f.aliases, f.sets, b.aliases);
    case Prices => ReseedIsIdempotent(f.prices, f.printings.Keys, b.prices);
    case _ =>
  }

  /** No transaction undoes another: what was done stays done. */
  lemma DoneStaysDone(s: Stage, t: Stage, f: File, b: Build)
    requires Apply(s, f, b).Some? && Done(t, f, b)
    ensures Done(t, Apply(s, f, b).value, b)
  {
    if s == t {
      AppliedIsDone(s, f, b);
    } else {
      var g := Apply(s, f, b).value;
      match t
      case Schema(name) =>
        assert name in f.objects + {name};
        assert g.objects + {name} == g.objects;
      case Column(column) =>
        assert column in f.columns + {column};
        assert g.columns + {column} == g.columns;
      case SubTypes => assert f.variants.Keys <= g.variants.Keys;
      case _ =>
    }
  }

  lemma AllStayDone(s: Stage, stages: seq<Stage>, f: File, b: Build)
    requires Apply(s, f, b).Some? && AllDone(stages, f, b)
    ensures AllDone(stages, Apply(s, f, b).value, b)
  {
    forall i | 0 <= i < |stages| ensures Done(stages[i], Apply(s, f, b).value, b) {
      DoneStaysDone(s, stages[i], f, b);
    }
  }

  /** Transactions that all went through are all done, together with those done before. */
  lemma {:induction false} RunDoes(f: File, b: Build, before: seq<Stage>, stages: seq<Stage>)
    requires AllDone(before, f, b) && RunStages(f, b, stages).1
    ensures AllDone(before + stages, RunStages(f, b, stages).0, b)
    decreases |stages|
  {
    if stages == [] {
      assert before + stages == before;
    } else {
      var g := Apply(stages[0], f, b).value;
      AllStayDone(stages[0], before, f, b);
      AppliedIsDone(stages[0], f, b);
      RunDoes(g, b, before + [stages[0]], stages[1..]);
      assert before + stages == before + [stages[0]] + stages[1..];
    }
  }

  /** Where everything is done, running any of it again changes nothing and does not fail. */
  lemma {:induction false} DoneRunsIdle(f: File, b: Build, stages: seq<Stage>)
    requires AllDone(stages, f, b)
    ensures RunStages(f, b, stages) == (f, true)
    decreases |stages|
  {
    if stages != [] {
      assert Done(stages[0], f, b);
      assert forall i | 0 <= i < |stages[1..]| :: stages[1..][i] == stages[i + 1];
      DoneRunsIdle(f, b, stages[1..]);
    }
  }

  /** An open of a settled file changes nothing, wherever it dies. */
  lemma SettledOpensIdle(f: File, b: Build, life: nat)
    requires Settled(f, b)
    ensures OpenShared(f, b, life).0 == f
    ensures f.version <= b.version && life >= |Plan(b)| ==> OpenShared(f, b, life).1
  {
    DoneRunsIdle(f, b, Plan(b));
    if life < |Plan(b)| {
      DoneRunsIdle(f, b, Plan(b)[..life]);
    }
  }

  // ----- The two marks -----

  predicate Touches(stages: seq<Stage>, s: Stage) {
    exists i | 0 <= i < |stages| :: stages[i] == s
  }

  lemma OneMark(s: Stage, f: File, b: Build)
    requires Apply(s, f, b).Some?
    ensures s != Record ==> Apply(s, f, b).value.fingerprint == f.fingerprint
    ensures s != Stamp ==> Apply(s, f, b).value.version == f.version
  {
  }

  lemma TailTouches(stages: seq<Stage>, s: Stage)
    requires stages != [] && !Touches(stages, s)
    ensures stages[0] != s && !Touches(stages[1..], s)
  {
    assert forall i | 0 <= i < |stages[1..]| :: stages[1..][i] == stages[i + 1];
  }

  lemma {:induction false} FingerprintStays(f: File, b: Build, stages: seq<Stage>)
    requires !Touches(stages, Record)
    ensures RunStages(f, b, stages).0.fingerprint == f.fingerprint
    decreases |stages|
  {
    if stages != [] && Apply(stages[0], f, b).Some? {
      TailTouches(stages, Record);
      OneMark(stages[0], f, b);
      FingerprintStays(Apply(stages[0], f, b).value, b, stages[1..]);
    }
  }

  lemma {:induction false} VersionStays(f: File, b: Build, stages: seq<Stage>)
    requires !Touches(stages, Stamp)
    ensures RunStages(f, b, stages).0.version == f.version
    decreases |stages|
  {
    if stages != [] && Apply(stages[0], f, b).Some? {
      TailTouches(stages, Stamp);
      OneMark(stages[0], f, b);
      VersionStays(Apply(stages[0], f, b).value, b, stages[1..]);
    }
  }

  lemma WorkLeavesTheFingerprint(b: Build, n: nat)
    requires n <= |Work(b)|
    ensures !Touches(Work(b)[..n], Record)
    ensures Plan(b)[..n] == Work(b)[..n]
  {
  }

  lemma {:induction false} RunSplits(f: File, b: Build, xs: seq<Stage>, ys: seq<Stage>)
    ensures RunStages(f, b, xs).1 ==> RunStages(f, b, xs + ys) == RunStages(RunStages(f, b, xs).0, b, ys)
    ensures !RunStages(f, b, xs).1 ==> RunStages(f, b, xs + ys) == RunStages(f, b, xs)
    decreases |xs|
  {
    if xs == [] {
      assert xs + ys == ys;
    } else {
      assert (xs + ys)[1..] == xs[1..] + ys;
      if Apply(xs[0], f, b).Some? {
        RunSplits(Apply(xs[0], f, b).value, b, xs[1..], ys);
      }
    }
  }

  /** An open that returned leaves a settled file marked as this build's; one that did not leaves the
      fingerprint as it was. */
  lemma OpenOutcome(f: File, b: Build, life: nat)
    ensures var (g, ok) := OpenShared(f, b, life);
            if ok then Settled(g, b) && IsConverged(g, b) else g.fingerprint == f.fingerprint
  {
    if f.version <= b.version {
      if life < |Plan(b)| {
        WorkLeavesTheFingerprint(b, life);
        FingerprintStays(f, b, Plan(b)[..life]);
      } else {
        PlanOutcome(f, b);
      }
    }
  }

  lemma PlanOutcome(f: File, b: Build)
    ensures var (g, ok) := RunStages(f, b, Plan(b));
            if ok then Settled(g, b) && IsConverged(g, b) else g.fingerprint == f.fingerprint
  {
    if RunStages(f, b, Plan(b)).1 {
      RunDoes(f, b, [], Plan(b));
      assert [] + Plan(b) == Plan(b);
      SettledIsMarked(RunStages(f, b, Plan(b)).0, b);
    } else {
      RunSplits(f, b, Work(b), [Record]);
      RecordNeverFails(RunStages(f, b, Work(b)).0, b);
      WorkLeavesTheFingerprint(b, |Work(b)|);
      assert Work(b)[..|Work(b)|] == Work(b);
      FingerprintStays(f, b, Work(b));
    }
  }

  lemma RecordNeverFails(f: File, b: Build)
    ensures RunStages(f, b, [Record]).1
  {
    assert RunStages(f.(fingerprint := Some(b.hash)), b, [Record][1..]).1;
  }

  lemma SettledIsMarked(f: File, b: Build)
    requires Settled(f, b)
    ensures IsConverged(f, b)
  {
    assert Plan(b)[|Work(b)|] == Record && Plan(b)[|Work(b)| - 1] == Stamp;
    assert Done(Record, f, b) && Done(Stamp, f, b);
  }

  // ----- Ingests -----

  /** An ingest undoes nothing but, perhaps, the two seeds that wait for its rows. */
  lemma TakeKeepsDone(f: File, b: Build, op: Ingest, t: Stage)
    requires Done(t, f, b) && t != Aliases && t != Prices
    ensures Done(t, Take(f, b, op), b)
  {
    if t.Variants? && op.AddPrinting? {
      VariantsStaySettled(f.variants, f.printings, b, op.id, op.variant);
    }
  }

  ghost predicate AllButClosing(f: File, b: Build) {
    forall t | Touches(Plan(b), t) && t !in CLOSING :: Done(t, f, b)
  }

  lemma TakeOneKeepsDone(f: File, b: Build, op: Ingest)
    requires AllButClosing(f, b)
    ensures var g := Take(f, b, op);
            AllButClosing(g, b) && g.version == f.version && g.fingerprint == f.fingerprint
  {
    forall t | Touches(Plan(b), t) && t !in CLOSING ensures Done(t, Take(f, b, op), b) {
      TakeKeepsDone(f, b, op, t);
    }
  }

  lemma {:induction false} TakeAllKeepsDone(f: File, b: Build, ops: seq<Ingest>)
    requires AllButClosing(f, b)
    ensures var g := TakeAll(f, b, ops);
            AllButClosing(g, b) && g.version == f.version && g.fingerprint == f.fingerprint
    decreases |ops|
  {
    if ops != [] {
      TakeOneKeepsDone(f, b, ops[0]);
      TakeAllKeepsDone(Take(f, b, ops[0]), b, ops[1..]);
    }
  }

  /** The closing reconcile settles the file again and leaves the marks alone. */
  lemma CloseSettles(f: File, b: Build)
    requires AllButClosing(f, b)
    ensures var g := Close(f, b);
            Settled(g, b) && g.version == f.version && g.fingerprint == f.fingerprint
  {
    var f1 := Apply(Aliases, f, b).value;
    var f2 := Apply(Prices, f1, b).value;
    assert CLOSING[1..] == [Prices] && [Prices][1..] == [];
    assert Close(f, b) == f2 by {
      assert RunStages(f1, b, [Prices]) == RunStages(f2, b, []);
    }
    AppliedIsDone(Aliases, f, b);
    AppliedIsDone(Prices, f1, b);
    DoneStaysDone(Prices, Aliases, f1, b);
    forall i | 0 <= i < |Plan(b)| ensures Done(Plan(b)[i], f2, b) {
      var t := Plan(b)[i];
      if t !in CLOSING {
        assert Touches(Plan(b), t);
        DoneStaysDone(Aliases, t, f, b);
        DoneStaysDone(Prices, t, f1, b);
      }
    }
  }

  lemma SettledMeansAllButClosing(f: File, b: Build)
    requires Settled(f, b)
    ensures AllButClosing(f, b)
  {
  }

  // ----- Fitting -----

  /** A build's rewrites break no key of this file. */
  predicate Fits(f: File, b: Build) {
    && SubTypeTable(f.variants, b).Some?
    && Rewrite(b.keywords).Some? && Rewrite(b.rarities).Some? && Rewrite(b.flags).Some?
  }

  /** A build that fits a file keeps fitting it whatever build's transactions run. */
  lemma FitsStays(s: Stage, f: File, c: Build, b: Build)
    requires Fits(f, b) && Apply(s, f, c).Some?
    ensures Fits(Apply(s, f, c).value, b)
  {
    assert f.variants.Keys <= Apply(s, f, c).value.variants.Keys;
  }

  lemma {:induction false} FittingRunsFinish(f: File, c: Build, b: Build, stages: seq<Stage>)
    requires Fits(f, b)
    ensures Fits(RunStages(f, c, stages).0, b)
    ensures c == b ==> RunStages(f, c, stages).1
    decreases |stages|
  {
    if stages != [] && Apply(stages[0], f, c).Some? {
      FitsStays(stages[0], f, c, b);
      FittingRunsFinish(Apply(stages[0], f, c).value, c, b, stages[1..]);
    }
  }

  lemma SettledFits(f: File, b: Build)
    requires Done(SubTypes, f, b) && Done(Search, f, b)
    ensures Fits(f, b)
  {
  }

  lemma PlanHas(b: Build, i: nat)
    requires i < 7
    ensures Touches(Plan(b), [Variants, SubTypes, Bundles, Aliases, Prices, Search, Stamp][i])
  {
    assert Plan(b)[|b.objects| + |b.columns| + i] == [Variants, SubTypes, Bundles, Aliases, Prices, Search, Stamp][i];
  }
}
