/** Runs of opens, server starts and builds, of one build and of several: over which of them a read-only
    server start is right to trust the marks. */
module CatalogRuns {
  import opened Wrappers
  import opened Seeds
  import opened Convergence
  import opened MixedBuilds

  // ----- Builds that stop before their closing reconcile -----

  function NewSets(ops: seq<Ingest>): set<string> {
    set op | op in ops && op.AddSet? :: op.code
  }

  function NewPrintings(ops: seq<Ingest>): set<string> {
    set op | op in ops && op.AddPrinting? :: op.id
  }

  function NewCodes(ops: seq<Ingest>): set<string> {
    set op | op in ops && op.AddPrinting? :: op.variant
  }

  /** Rows were added, and no seeded row was touched. */
  predicate Added(f: File, g: File, sets: set<string>, printings: set<string>) {
    && g.sets == f.sets + sets
    && g.printings.Keys == f.printings.Keys + printings
    && g.aliases == f.aliases && g.prices == f.prices
  }

  lemma TakeAdds(f: File, b: Build, op: Ingest)
    ensures Added(f, Take(f, b, op), NewSets([op]), NewPrintings([op]))
  {
    assert NewSets([op]) == if op.AddSet? then {op.code} else {};
    assert NewPrintings([op]) == if op.AddPrinting? then {op.id} else {};
  }

  lemma NewOnes(op: Ingest, ops: seq<Ingest>)
    ensures NewSets([op] + ops) == NewSets([op]) + NewSets(ops)
    ensures NewPrintings([op] + ops) == NewPrintings([op]) + NewPrintings(ops)
  {
  }

  lemma {:induction false} IngestAdds(f: File, b: Build, ops: seq<Ingest>)
    ensures Added(f, TakeAll(f, b, ops), NewSets(ops), NewPrintings(ops))
    decreases |ops|
  {
    if ops != [] {
      TakeAdds(f, b, ops[0]);
      IngestAdds(Take(f, b, ops[0]), b, ops[1..]);
      NewOnes(ops[0], ops[1..]);
      assert [ops[0]] + ops[1..] == ops;
    }
  }

  /** No row of the seed was waiting for the new targets: what the seed says with them, it said without
      them or the table had anyway. */
  ghost predicate NothingWaits<K(!new), T, V>(table: map<K, V>, few: set<T>, many: set<T>,
                                              seed: seq<Entry<K, T, V>>)
  {
    forall k | Says(many, seed, k).Some? ::
      Says(many, seed, k) == if Says(few, seed, k).Some? then Says(few, seed, k) else Lookup(table, k)
  }

  /** A table seeded against fewer targets says what the seed says against more exactly when nothing of
      the seed was waiting. */
  lemma WaitingRows<K(!new), T, V>(table: map<K, V>, few: set<T>, many: set<T>, seed: seq<Entry<K, T, V>>)
    ensures var t := Upsert(table, few, seed);
            Upsert(t, many, seed) == t <==> NothingWaits(table, few, many, seed)
  {
    var t := Upsert(table, few, seed);
    NothingToWrite(t, many, seed);
    forall k
      ensures Lookup(t, k) == if Says(few, seed, k).Some? then Says(few, seed, k) else Lookup(table, k)
    {
      UpsertMeaning(table, few, seed, k);
    }
  }

  /** Nothing of the two closing seeds waits for what this ingest brings; `aliased` says that the aliases
      were closed all the same. */
  ghost predicate NeedsNoClosing(f: File, b: Build, ops: seq<Ingest>, aliased: bool) {
    && (aliased || NothingWaits(f.aliases, f.sets, f.sets + NewSets(ops), b.aliases))
    && NothingWaits(f.prices, f.printings.Keys, f.printings.Keys + NewPrintings(ops), b.prices)
  }

  lemma LeftAliases(f: File, b: Build, ops: seq<Ingest>, aliased: bool)
    requires Done(Aliases, f, b)
    ensures Done(Aliases, Left(f, b, ops, aliased), b)
       <==> aliased || NothingWaits(f.aliases, f.sets, f.sets + NewSets(ops), b.aliases)
  {
    IngestAdds(f, b, ops);
    if aliased {
      AppliedIsDone(Aliases, TakeAll(f, b, ops), b);
    } else {
      WaitingRows(f.aliases, f.sets, f.sets + NewSets(ops), b.aliases);
    }
  }

  lemma LeftPrices(f: File, b: Build, ops: seq<Ingest>, aliased: bool)
    requires Done(Prices, f, b)
    ensures Done(Prices, Left(f, b, ops, aliased), b)
       <==> NothingWaits(f.prices, f.printings.Keys, f.printings.Keys + NewPrintings(ops), b.prices)
  {
    IngestAdds(f, b, ops);
    WaitingRows(f.prices, f.printings.Keys, f.printings.Keys + NewPrintings(ops), b.prices);
  }

  lemma LeftOthers(f: File, b: Build, ops: seq<Ingest>, aliased: bool)
    requires Settled(f, b)
    ensures var g := Left(f, b, ops, aliased);
            AllButClosing(g, b) && Marks(g) == Marks(f)
  {
    SettledMeansAllButClosing(f, b);
    TakeAllKeepsDone(f, b, ops);
    var g := TakeAll(f, b, ops);
    if aliased {
      forall t | Touches(Plan(b), t) && t !in CLOSING ensures Done(t, Apply(Aliases, g, b).value, b) {
        DoneStaysDone(Aliases, t, g, b);
      }
    }
  }

  /** A build abandoned after its ingest, or between its two closing seeds, is believed; rightly so exactly
      when nothing of the seeds still to be closed was waiting for what the ingest brought. */
  lemma UnclosedBuildsAreBelieved(f: File, b: Build, ops: seq<Ingest>, aliased: bool)
    requires Settled(f, b)
    ensures var g := Left(f, b, ops, aliased);
            && IsConverged(g, b) && Fits(g, b)
            && (Settled(g, b) <==> NeedsNoClosing(f, b, ops, aliased))
            && (OpenShared(g, b, |Plan(b)|).0 == g <==> NeedsNoClosing(f, b, ops, aliased))
  {
    var g := Left(f, b, ops, aliased);
    SettledIsMarked(f, b);
    LeftOthers(f, b, ops, aliased);
    PlanHas(b, 1);
    PlanHas(b, 5);
    SettledFits(g, b);
    AllPlansTouch(Aliases, b);
    AllPlansTouch(Prices, b);
    LeftAliases(f, b, ops, aliased);
    LeftPrices(f, b, ops, aliased);
    OnlyClosingIsLeft(g, b);
    IdleMeansSettled(g, b);
  }

  lemma OnlyClosingIsLeft(f: File, b: Build)
    requires AllButClosing(f, b)
    ensures Settled(f, b) <==> Done(Aliases, f, b) && Done(Prices, f, b)
  {
    AllPlansTouch(Aliases, b);
    AllPlansTouch(Prices, b);
    if Done(Aliases, f, b) && Done(Prices, f, b) {
      forall i | 0 <= i < |Plan(b)| ensures Done(Plan(b)[i], f, b) {
        assert Touches(Plan(b), Plan(b)[i]);
      }
    }
  }

  /** Other tables and the rows its seeds do not speak for are not an open's to change. */
  ghost predicate KeepsUnsaid(f: File, g: File, b: Build) {
    && g.sets == f.sets && g.printings == f.printings
    && (forall k :: Says(f.sets, b.aliases, k).None? ==> Lookup(g.aliases, k) == Lookup(f.aliases, k))
    && (forall k :: Says(f.printings.Keys, b.prices, k).None? ==> Lookup(g.prices, k) == Lookup(f.prices, k))
  }

  lemma StageKeepsUnsaid(s: Stage, f: File, b: Build)
    requires Apply(s, f, b).Some?
    ensures KeepsUnsaid(f, Apply(s, f, b).value, b)
  {
    if s == Aliases {
      forall k ensures Says(f.sets, b.aliases, k).None? ==>
                         Lookup(Upsert(f.aliases, f.sets, b.aliases), k) == Lookup(f.aliases, k)
      {
        UpsertMeaning(f.aliases, f.sets, b.aliases, k);
      }
    } else if s == Prices {
      forall k ensures Says(f.printings.Keys, b.prices, k).None? ==>
                         Lookup(Upsert(f.prices, f.printings.Keys, b.prices), k) == Lookup(f.prices, k)
      {
        UpsertMeaning(f.prices, f.printings.Keys, b.prices, k);
      }
    }
  }

  lemma {:induction false} RunKeepsUnsaid(f: File, b: Build, stages: seq<Stage>)
    ensures KeepsUnsaid(f, RunStages(f, b, stages).0, b)
    decreases |stages|
  {
    if stages != [] && Apply(stages[0], f, b).Some? {
      StageKeepsUnsaid(stages[0], f, b);
      RunKeepsUnsaid(Apply(stages[0], f, b).value, b, stages[1..]);
    }
  }

  /** What waits for an ingest can be told before the open. */
  lemma OpensKeepWaiting(f: File, b: Build, ops: seq<Ingest>, aliased: bool)
    ensures NeedsNoClosing(OpenShared(f, b, |Plan(b)|).0, b, ops, aliased) <==> NeedsNoClosing(f, b, ops, aliased)
  {
    RunKeepsUnsaid(f, b, Plan(b));
  }

  // ----- Runs -----

  /** Whenever a server would take its read-only path, a convergence would change nothing, wherever it
      died. */
  ghost predicate Honest(f: File, b: Build) {
    forall life: nat :: IsConverged(f, b) ==> OpenShared(f, b, life).0 == f
  }

  ghost predicate HonestAllAlong(f: File, events: seq<(Build, Event)>, b: Build)
    decreases |events|
  {
    Honest(f, b)
    && (events == [] || HonestAllAlong(Next(f, events[0].0, events[0].1).0, events[1..], b))
  }

  /** The hash covers a build's version, schema and seeds, but not the code that synthesizes the rows of
      other variants: builds with one hash may differ there and nowhere else. */
  ghost predicate Twins(b: Build, c: Build) {
    c == b.(synthesize := c.synthesize)
  }

  ghost predicate HashesTellSeeds(events: seq<(Build, Event)>, b: Build) {
    forall i | 0 <= i < |events| :: events[i].0.hash == b.hash ==> Twins(b, events[i].0)
  }

  /** How many transactions of its open an event lives for. */
  function Life(c: Build, e: Event): nat {
    match e
    case Open(life) => life
    case Serve(_, life) => life
    case _ => |Plan(c)|
  }

  function Ingested(e: Event): seq<Ingest> {
    match e
    case Derive(ops) => ops
    case Abandon(ops, _) => ops
    case _ => []
  }

  /** The variant codes of the file once an event of a build with these seeds has run to its end. */
  function CodesAfter(f: File, b: Build, e: Event): set<string> {
    f.variants.Keys + SeedCodes(b) + f.printings.Values + NewCodes(Ingested(e))
  }

  ghost predicate CodesAgree(codes: set<string>, b: Build, c: Build) {
    forall code | code in codes :: VariantRow(b, code) == VariantRow(c, code)
  }

  /** The event is a server start that takes the read-only path. */
  predicate ReadsOnly(f: File, c: Build, e: Event) {
    e.Serve? && e.readable && IsConverged(f, c)
  }

  /** An event that cannot mislead this build's servers. A read-only server start changes nothing. An open
      that goes through under this build's hash must give the file's variants the rows this build would,
      and not be abandoned while a row of the seeds waits. Any other open, where this build's marks stand,
      must take one of them away or stop having reached only what the two builds agree on. */
  ghost predicate Harmless(f: File, c: Build, e: Event, b: Build) {
    var stages := Reached(f, c, Life(c, e));
    if ReadsOnly(f, c, e) then true
    else if c.hash == b.hash && stages == Plan(c) then
      CodesAgree(CodesAfter(f, b, e), b, c) && (e.Abandon? ==> NeedsNoClosing(f, b, e.ops, e.aliased))
    else
      IsConverged(f, b) ==> !MarksStay(stages, b, c) || AgreeOn(stages, f, b, c)
  }

  ghost predicate AllHarmless(f: File, events: seq<(Build, Event)>, b: Build)
    decreases |events|
  {
    events == []
    || (var (c, e) := events[0];
        && Harmless(f, c, e, b)
        && AllHarmless(Next(f, c, e).0, events[1..], b))
  }

  /** This build's fingerprint stands for a file it has finished with, unless a newer build has stamped the
      file since. */
  ghost predicate Trusted(f: File, b: Build) {
    f.fingerprint == Some(b.hash) && f.version <= b.version ==> f.version == b.version && Settled(f, b)
  }

  lemma TrustedIsHonest(f: File, b: Build)
    requires Trusted(f, b)
    ensures Honest(f, b)
  {
    if IsConverged(f, b) {
      forall life: nat ensures OpenShared(f, b, life).0 == f {
        SettledOpensIdle(f, b, life);
      }
    }
  }

  lemma UnsettledIsDishonest(f: File, b: Build)
    requires IsConverged(f, b) && Fits(f, b) && !Settled(f, b)
    ensures !Honest(f, b)
  {
    IdleMeansSettled(f, b);
  }

  // An open that goes through under this build's hash.

  /** Twins plan the same and mean the same by every transaction but the variants'. */
  lemma TwinDone(t: Stage, f: File, b: Build, c: Build)
    requires Twins(b, c) && t != Variants
    ensures Done(t, f, b) <==> Done(t, f, c)
  {
  }

  lemma TwinPlans(b: Build, c: Build)
    requires Twins(b, c)
    ensures Plan(b) == Plan(c) && SeedCodes(b) == SeedCodes(c)
  {
  }

  /** What one twin has finished with, the other has exactly when both give its variants the same rows. */
  lemma TwinSettled(f: File, b: Build, c: Build)
    requires Twins(b, c) && Done(Variants, f, c)
    ensures Settled(f, b) <==> Settled(f, c) && CodesAgree(f.variants.Keys, b, c)
  {
    TwinPlans(b, c);
    TwinVariants(f, b, c);
    AllPlansTouch(Variants, b);
    forall i | 0 <= i < |Plan(b)| && Plan(b)[i] != Variants
      ensures Done(Plan(b)[i], f, b) <==> Done(Plan(b)[i], f, c)
    {
      TwinDone(Plan(b)[i], f, b, c);
    }
  }

  lemma TwinVariants(f: File, b: Build, c: Build)
    requires Twins(b, c) && Done(Variants, f, c)
    ensures Done(Variants, f, b) <==> CodesAgree(f.variants.Keys, b, c)
  {
    VariantsCover(f, c);
    TwinPlans(b, c);
    var table := VariantTable(f.variants, f.printings, c);
    assert table == f.variants;
    assert forall code | code in table :: table[code] == VariantRow(c, code);
    VariantsSaidTwice(f.variants, f.printings, b, f.variants.Keys, c);
  }

  lemma TwinFits(f: File, b: Build, c: Build)
    requires Twins(b, c) && Fits(f, c)
    ensures Fits(f, b)
  {
  }

  lemma CodesOfOne(s: Stage, f: File, c: Build)
    requires Apply(s, f, c).Some?
    ensures var g := Apply(s, f, c).value;
            && g.printings == f.printings
            && g.variants.Keys == f.variants.Keys + if s == Variants then SeedCodes(c) + f.printings.Values else {}
  {
  }

  lemma FirstOrLater(stages: seq<Stage>, s: Stage)
    requires stages != []
    ensures Touches(stages, s) <==> stages[0] == s || Touches(stages[1..], s)
  {
    assert stages == [stages[0]] + stages[1..];
    if Touches(stages[1..], s) {
      var i :| 0 <= i < |stages[1..]| && stages[1..][i] == s;
      assert stages[i + 1] == s;
    }
    if Touches(stages, s) && stages[0] != s {
      var i :| 0 <= i < |stages| && stages[i] == s;
      assert stages[1..][i - 1] == s;
    }
  }

  lemma {:induction false} CodesOfARun(f: File, c: Build, stages: seq<Stage>)
    requires RunStages(f, c, stages).1
    ensures var g := RunStages(f, c, stages).0;
            && g.printings == f.printings
            && g.variants.Keys
               == f.variants.Keys + if Touches(stages, Variants) then SeedCodes(c) + f.printings.Values else {}
    decreases |stages|
  {
    if stages != [] {
      CodesOfOne(stages[0], f, c);
      CodesOfARun(Apply(stages[0], f, c).value, c, stages[1..]);
      FirstOrLater(stages, Variants);
    }
  }

  lemma CodesOfOneTake(f: File, c: Build, op: Ingest)
    ensures Take(f, c, op).variants.Keys == f.variants.Keys + NewCodes([op])
  {
    assert NewCodes([op]) == if op.AddPrinting? then {op.variant} else {};
  }

  lemma {:induction false} CodesOfAnIngest(f: File, c: Build, ops: seq<Ingest>)
    ensures TakeAll(f, c, ops).variants.Keys == f.variants.Keys + NewCodes(ops)
    decreases |ops|
  {
    if ops != [] {
      CodesOfOneTake(f, c, ops[0]);
      CodesOfAnIngest(Take(f, c, ops[0]), c, ops[1..]);
      assert ops == [ops[0]] + ops[1..];
      assert NewCodes(ops) == NewCodes([ops[0]]) + NewCodes(ops[1..]);
    }
  }

  lemma ClosingKeepsVariants(f: File, c: Build)
    ensures Close(f, c).variants == f.variants
  {
    var g := Apply(Aliases, f, c).value;
    assert CLOSING[1..] == [Prices] && [Prices][1..] == [];
    assert RunStages(g, c, [Prices]) == RunStages(Apply(Prices, g, c).value, c, []);
  }

  /** What a build's own event leaves when its open went through: the build's marks, rows for all the codes,
      and a settled file unless it was abandoned while a row waited. */
  ghost predicate Finished(f: File, g: File, c: Build, e: Event) {
    && IsConverged(g, c) && Fits(g, c) && Done(Variants, g, c)
    && g.variants.Keys == CodesAfter(f, c, e)
    && (Settled(g, c) <==> (e.Abandon? ==> NeedsNoClosing(f, c, e.ops, e.aliased)))
  }

  lemma WholeOpen(f: File, c: Build, life: nat)
    requires Reached(f, c, life) == Plan(c)
    ensures var (g, ok) := OpenShared(f, c, life);
            && ok && Settled(g, c) && IsConverged(g, c)
            && g.variants.Keys == f.variants.Keys + SeedCodes(c) + f.printings.Values
  {
    assert life >= |Plan(c)|;
    OpenReaches(f, c, life);
    OpenOutcome(f, c, life);
    CodesOfARun(f, c, Plan(c));
    AllPlansTouch(Variants, c);
  }

  lemma SettledIsReady(f: File, c: Build)
    requires Settled(f, c)
    ensures Fits(f, c) && Done(Variants, f, c)
  {
    AllPlansTouch(SubTypes, c);
    AllPlansTouch(Search, c);
    AllPlansTouch(Variants, c);
    SettledFits(f, c);
  }

  lemma FinishedBuild(f: File, c: Build, ops: seq<Ingest>)
    requires Reached(f, c, |Plan(c)|) == Plan(c)
    ensures Finished(f, Next(f, c, Derive(ops)).0, c, Derive(ops))
  {
    var start := OpenShared(f, c, |Plan(c)|).0;
    WholeOpen(f, c, |Plan(c)|);
    SettledMeansAllButClosing(start, c);
    TakeAllKeepsDone(start, c, ops);
    CloseSettles(TakeAll(start, c, ops), c);
    CodesOfAnIngest(start, c, ops);
    ClosingKeepsVariants(TakeAll(start, c, ops), c);
    SettledIsReady(Close(TakeAll(start, c, ops), c), c);
  }

  lemma LeftVariants(f: File, c: Build, ops: seq<Ingest>, aliased: bool)
    requires Settled(f, c)
    ensures var g := Left(f, c, ops, aliased);
            Done(Variants, g, c) && g.variants.Keys == f.variants.Keys + NewCodes(ops)
  {
    LeftOthers(f, c, ops, aliased);
    AllPlansTouch(Variants, c);
    CodesOfAnIngest(f, c, ops);
  }

  lemma AbandonedLeaves(f: File, c: Build, ops: seq<Ingest>, aliased: bool)
    requires Reached(f, c, |Plan(c)|) == Plan(c)
    ensures Next(f, c, Abandon(ops, aliased)).0 == Left(OpenShared(f, c, |Plan(c)|).0, c, ops, aliased)
  {
    WholeOpen(f, c, |Plan(c)|);
  }

  lemma FinishedAbandoned(f: File, c: Build, ops: seq<Ingest>, aliased: bool)
    requires Reached(f, c, |Plan(c)|) == Plan(c)
    ensures Finished(f, Next(f, c, Abandon(ops, aliased)).0, c, Abandon(ops, aliased))
  {
    var start := OpenShared(f, c, |Plan(c)|).0;
    WholeOpen(f, c, |Plan(c)|);
    AbandonedLeaves(f, c, ops, aliased);
    UnclosedBuildsAreBelieved(start, c, ops, aliased);
    OpensKeepWaiting(f, c, ops, aliased);
    LeftVariants(start, c, ops, aliased);
  }

  lemma FinishedEvent(f: File, c: Build, e: Event)
    requires !ReadsOnly(f, c, e) && Reached(f, c, Life(c, e)) == Plan(c)
    ensures Finished(f, Next(f, c, e).0, c, e)
  {
    match e
    case Derive(ops) => FinishedBuild(f, c, ops);
    case Abandon(ops, aliased) => FinishedAbandoned(f, c, ops, aliased);
    case _ =>
      WholeOpen(f, c, Life(c, e));
      SettledIsReady(Next(f, c, e).0, c);
  }

  lemma FinishedTwin(f: File, c: Build, e: Event, b: Build)
    requires Twins(b, c) && !ReadsOnly(f, c, e) && Reached(f, c, Life(c, e)) == Plan(c)
    ensures var g := Next(f, c, e).0;
            if Harmless(f, c, e, b) then Trusted(g, b) else !Honest(g, b)
  {
    var g := Next(f, c, e).0;
    FinishedEvent(f, c, e);
    TwinPlans(b, c);
    TwinSettled(g, b, c);
    TwinFits(g, b, c);
    if !Settled(g, b) {
      UnsettledIsDishonest(g, b);
    }
  }

  // Every other open.

  lemma TakeKeepsMarks(f: File, c: Build, op: Ingest)
    ensures Marks(Take(f, c, op)) == Marks(f)
  {
  }

  lemma {:induction false} IngestKeepsMarks(f: File, c: Build, ops: seq<Ingest>)
    ensures Marks(TakeAll(f, c, ops)) == Marks(f)
    decreases |ops|
  {
    if ops != [] {
      TakeKeepsMarks(f, c, ops[0]);
      IngestKeepsMarks(Take(f, c, ops[0]), c, ops[1..]);
    }
  }

  lemma ClosingKeepsMarks(f: File, c: Build)
    ensures Marks(Close(f, c)) == Marks(f)
  {
    var g := Apply(Aliases, f, c).value;
    assert CLOSING[1..] == [Prices] && [Prices][1..] == [];
    assert RunStages(g, c, [Prices]) == RunStages(Apply(Prices, g, c).value, c, []);
  }

  /** An event leaves the marks its open leaves, and the file its open leaves if that did not go through. */
  lemma MarksAfterEvent(f: File, c: Build, e: Event)
    requires !ReadsOnly(f, c, e)
    ensures var (g, ok) := OpenShared(f, c, Life(c, e));
            Marks(Next(f, c, e).0) == Marks(g) && (!ok ==> Next(f, c, e).0 == g)
  {
    var (g, ok) := OpenShared(f, c, Life(c, e));
    match e
    case Derive(ops) =>
      IngestKeepsMarks(g, c, ops);
      ClosingKeepsMarks(TakeAll(g, c, ops), c);
    case Abandon(ops, aliased) =>
      IngestKeepsMarks(g, c, ops);
    case _ =>
  }

  /** Only an open that went through records a fingerprint. */
  lemma OnlyWholeOpensRecord(f: File, c: Build, life: nat)
    ensures Touches(Reached(f, c, life), Record) <==> Reached(f, c, life) == Plan(c)
  {
    var stages := Reached(f, c, life);
    PlanEnds(c);
    if f.version <= c.version && |stages| < |Plan(c)| {
      WorkLeavesTheFingerprint(c, |stages|);
    }
  }

  /** An open that did not go through under this build's hash. */
  predicate Partial(f: File, c: Build, e: Event, b: Build) {
    !ReadsOnly(f, c, e) && (c.hash == b.hash ==> c.version == b.version && Reached(f, c, Life(c, e)) != Plan(c))
  }

  /** Where this build's marks do not stand, such an open cannot set them. */
  lemma UnmarkedStaysUnmarked(f: File, c: Build, e: Event, b: Build)
    requires Trusted(f, b) && !IsConverged(f, b) && Partial(f, c, e, b)
    ensures Trusted(Next(f, c, e).0, b)
  {
    MarksAfterEvent(f, c, e);
    OpenReaches(f, c, Life(c, e));
    MarksAfter(f, c, Reached(f, c, Life(c, e)));
    OnlyWholeOpensRecord(f, c, Life(c, e));
  }

  /** Where they do stand, it misleads this build's servers exactly when it is not harmless. */
  lemma MarkedUnderAnother(f: File, c: Build, e: Event, b: Build)
    requires Settled(f, b) && Partial(f, c, e, b)
    ensures var g := Next(f, c, e).0;
            if Harmless(f, c, e, b) then Trusted(g, b) else !Honest(g, b)
  {
    SettledIsMarked(f, b);
    var life := Life(c, e);
    var g, stages := OpenShared(f, c, life).0, Reached(f, c, life);
    MarksAfterEvent(f, c, e);
    TheirOpenUndoes(f, b, c, life);
    OpenReaches(f, c, life);
    OnlyWholeOpensRecord(f, c, life);
    MarksAfter(f, c, stages);
    EarlyDeathsAreInvisible(f, b, c, life);
    if MarksStay(stages, b, c) {
      assert Next(f, c, e).0 == g;
      if !AgreeOn(stages, f, b, c) {
        UnsettledIsDishonest(g, b);
      }
    }
  }

  /** Event by event: a trusted file stays trusted, or the read-only path is wrong at once. */
  lemma HarmlessExactly(f: File, c: Build, e: Event, b: Build)
    requires Trusted(f, b) && (c.hash == b.hash ==> Twins(b, c))
    ensures var g := Next(f, c, e).0;
            if Harmless(f, c, e, b) then Trusted(g, b) else !Honest(g, b)
  {
    if ReadsOnly(f, c, e) {
      assert Next(f, c, e).0 == f;
    } else if c.hash == b.hash && Reached(f, c, Life(c, e)) == Plan(c) {
      FinishedTwin(f, c, e, b);
    } else if IsConverged(f, b) {
      MarkedUnderAnother(f, c, e, b);
    } else {
      UnmarkedStaysUnmarked(f, c, e, b);
    }
  }

  /** Of this build's own events only an abandoned build can mislead it, and that exactly when a row of its
      seeds was waiting for what the ingest brought. */
  lemma OwnEvents(f: File, b: Build, e: Event)
    ensures Harmless(f, b, e, b)
       <==> (e.Abandon? && Reached(f, b, |Plan(b)|) == Plan(b) ==> NeedsNoClosing(f, b, e.ops, e.aliased))
  {
  }

  lemma {:induction false} RunIsHonestExactly(f: File, events: seq<(Build, Event)>, b: Build)
    requires Trusted(f, b) && HashesTellSeeds(events, b)
    ensures HonestAllAlong(f, events, b) <==> AllHarmless(f, events, b)
    ensures AllHarmless(f, events, b) ==> Trusted(Run(f, events), b)
    decreases |events|
  {
    TrustedIsHonest(f, b);
    if events != [] {
      var (c, e) := events[0];
      HarmlessExactly(f, c, e, b);
      assert forall i | 0 <= i < |events[1..]| :: events[1..][i] == events[i + 1];
      if Harmless(f, c, e, b) {
        RunIsHonestExactly(Next(f, c, e).0, events[1..], b);
      }
    }
  }

  /** Over any run of opens, server starts and builds, of this build and others, each dying wherever it
      likes: this build's read-only path is right all along exactly when every event is harmless, and then
      a convergence at the end would change nothing at all, wherever it died. */
  lemma ReadOnlyServesAreHonest(f: File, events: seq<(Build, Event)>, b: Build)
    requires f.fingerprint != Some(b.hash) && HashesTellSeeds(events, b)
    ensures HonestAllAlong(f, events, b) <==> AllHarmless(f, events, b)
    ensures AllHarmless(f, events, b) && IsConverged(Run(f, events), b) ==>
              Settled(Run(f, events), b) && forall life :: OpenShared(Run(f, events), b, life).0 == Run(f, events)
  {
    RunIsHonestExactly(f, events, b);
    if AllHarmless(f, events, b) {
      TrustedIsHonest(Run(f, events), b);
    }
  }

  // ----- Runs that mislead -----

  const BLANK := File(0, {}, {}, map[], map[], map[], map[], map[], map[], map[], map[], None, {}, map[])

  function Plain(code: string): Variant {
    Variant(code, "?", 4, 0, "", None, false)
  }

  /** A build that ships one bundle, and one that ships one alias of a set. */
  function Shipping(hash: string, year: int): Build {
    Build(2, hash, [], [], Plain, [], [], [Entry("tot", (), Bundle("Trick or Trade", year, 1, ""))], [], [], [], [], [])
  }

  function Awaiting(hash: string, alias: string, code: string): Build {
    Build(2, hash, [], [], Plain, [], [], [], [Entry(alias, code, code)], [], [], [], [])
  }

  predicate Simple(b: Build) {
    && b.version == 2 && b.objects == [] && b.columns == [] && b.variants == [] && b.subTypes == []
    && b.keywords == [] && b.rarities == [] && b.flags == []
  }

  lemma SimpleOpens(f: File, b: Build, life: nat)
    requires Simple(b)
    ensures Fits(f, b) && |Plan(b)| == 8
    ensures f.version <= 2 ==> Reached(f, b, life) == Plan(b)[..if life < 8 then life else 8]
  {
    assert Rewrite<(int, string), string>([]) == Some(map[]);
    assert Rewrite<string, string>([]) == Some(map[]);
  }

  lemma FirstOpen(a: Build)
    requires Simple(a)
    ensures var f := OpenShared(BLANK, a, 8).0;
            IsConverged(f, a) && Settled(f, a)
  {
    SimpleOpens(BLANK, a, 8);
    FittingRunsFinish(BLANK, a, a, Plan(a));
    PlanOutcome(BLANK, a);
  }

  lemma SimplePlan(b: Build)
    requires Simple(b)
    ensures Plan(b) == [Variants, SubTypes, Bundles, Aliases, Prices, Search, Stamp, Record]
  {
  }

  lemma ShippingSays(hash: string, year: int)
    ensures Says(ALWAYS, Shipping(hash, year).bundles, "tot") == Some(Bundle("Trick or Trade", year, 1, ""))
  {
    assert () in ALWAYS;
  }

  lemma RunOfTwo(f: File, a: Build, b: Build, life: nat)
    ensures Run(f, [(a, Open(8)), (b, Open(life))]) == OpenShared(OpenShared(f, a, 8).0, b, life).0
  {
    var run := [(a, Open(8)), (b, Open(life))];
    var g := Next(f, a, Open(8)).0;
    assert run[1..] == [(b, Open(life))] && run[1..][1..] == [];
    assert Run(f, run) == Run(g, run[1..]);
    assert Run(g, run[1..]) == Run(Next(g, b, Open(life)).0, []);
  }

  /** Two builds whose bundle differs disagree on that stage of the plan, and on none before it. */
  lemma WhereTheyDisagree(f: File, life: nat)
    requires life < 8
    ensures var a, b := Shipping("a", 2022), Shipping("b", 2023);
            AgreeOn(Plan(b)[..life], f, a, b) <==> life < 3
  {
    var a, b := Shipping("a", 2022), Shipping("b", 2023);
    SimplePlan(b);
    if life < 3 {
      forall t | Touches(Plan(b)[..life], t) ensures Agree(t, f, a, b) {
        assert t == Variants || t == SubTypes;
      }
    } else {
      ShippingSays("a", 2022);
      ShippingSays("b", 2023);
      assert Plan(b)[..life][2] == Bundles;
      assert !Agree(Bundles, f, a, b);
    }
  }

  /** The second build's marks or its first three tables: which of the two its open got to. */
  lemma HowFarItGot(f: File, life: nat)
    requires f.version <= 2
    ensures var a, b := Shipping("a", 2022), Shipping("b", 2023);
            var stages := Reached(f, b, life);
            MarksStay(stages, a, b) && !AgreeOn(stages, f, a, b) <==> 3 <= life < 8
  {
    var a, b := Shipping("a", 2022), Shipping("b", 2023);
    SimpleOpens(f, b, life);
    SimplePlan(b);
    if life < 8 {
      WhereTheyDisagree(f, life);
      assert !Touches(Plan(b)[..life], Record);
    } else {
      assert Plan(b)[..8] == Plan(b);
      PlanEnds(b);
    }
  }

  /** A server start that leaves a file as it is, when an open would not, is one that trusted the marks. */
  lemma ReadOnlyOrWritten(g: File, a: Build)
    ensures OpenForServing(g, a, true, 8) == (g, true) && OpenShared(g, a, 8).0 != g
       <==> IsConverged(g, a) && OpenShared(g, a, 8).0 != g
  {
  }

  /** One build converges a new catalog, another dies in its own open, and the first build's next server
      start is answered from the marks: wrongly exactly when the other died after its bundles and before
      its record. */
  lemma TheTwoBuildRun(life: nat)
    ensures var a, b := Shipping("a", 2022), Shipping("b", 2023);
            var g := Run(BLANK, [(a, Open(8)), (b, Open(life))]);
            OpenForServing(g, a, true, 8) == (g, true) && OpenShared(g, a, 8).0 != g <==> 3 <= life < 8
  {
    var a, b := Shipping("a", 2022), Shipping("b", 2023);
    var f := OpenShared(BLANK, a, 8).0;
    FirstOpen(a);
    RunOfTwo(BLANK, a, b, life);
    SimpleOpens(f, a, life);
    HowFarItGot(f, life);
    AnotherBuildsDeathIsBelieved(f, a, b, life);
    ReadOnlyOrWritten(OpenShared(f, b, life).0, a);
  }

  lemma RunOfOne(f: File, b: Build, e: Event)
    ensures Run(f, [(b, e)]) == Next(f, b, e).0
  {
    assert [(b, e)][1..] == [];
    assert Run(Next(f, b, e).0, []) == Next(f, b, e).0;
  }

  /** A build of a new catalog is abandoned when it has added the set an alias was waiting for: the next
      server start of the same build is answered from the marks, and a convergence would still write the
      alias. */
  lemma TheUnclosedRun(alias: string, code: string)
    ensures var b := Awaiting("a", alias, code);
            var g := Run(BLANK, [(b, Abandon([AddSet(code)], false))]);
            OpenForServing(g, b, true, 8) == (g, true) && OpenShared(g, b, 8).0 != g
  {
    var b, ops := Awaiting("a", alias, code), [AddSet(code)];
    SimpleOpens(BLANK, b, 8);
    FirstOpen(b);
    RunOfOne(BLANK, b, Abandon(ops, false));
    var f := OpenShared(BLANK, b, 8).0;
    OpenReaches(BLANK, b, 8);
    UnclosedBuildsAreBelieved(f, b, ops, false);
    OpensKeepWaiting(BLANK, b, ops, false);
    AliasWaits(alias, code);
  }

  lemma AliasWaits(alias: string, code: string)
    ensures !NeedsNoClosing(BLANK, Awaiting("a", alias, code), [AddSet(code)], false)
  {
    var seed := Awaiting("a", alias, code).aliases;
    var many := BLANK.sets + NewSets([AddSet(code)]);
    assert code in many by {
      assert AddSet(code) in [AddSet(code)];
    }
    assert Says(many, seed, alias) == Some(code);
    assert Says({}, seed, alias) == Says({}, seed[..0], alias) == None;
  }

  /** Two binaries with one hash, one of which synthesizes other rows: a build of a new catalog by one that
      adds a printing of a variant of its own misleads the other's next server start exactly when they
      disagree on that variant. Nobody died and nothing was abandoned. */
  lemma RebuiltRuns(b: Build, c: Build, printing: string, code: string)
    requires Simple(b) && Twins(b, c)
    ensures var g := Run(BLANK, [(c, Derive([AddPrinting(printing, code)]))]);
            OpenForServing(g, b, true, 8) == (g, true) && OpenShared(g, b, 8).0 != g
            <==> b.synthesize(code) != c.synthesize(code)
  {
    var e := Derive([AddPrinting(printing, code)]);
    var g := Next(BLANK, c, e).0;
    RunOfOne(BLANK, c, e);
    SimpleOpens(BLANK, c, 8);
    SimpleOpens(g, b, 8);
    FinishedEvent(BLANK, c, e);
    TwinSettled(g, b, c);
    IdleMeansSettled(g, b);
    ReadOnlyOrWritten(g, b);
    OneNewCode(b, c, printing, code);
  }

  lemma OneNewCode(b: Build, c: Build, printing: string, code: string)
    requires Simple(b) && Twins(b, c)
    ensures var codes := CodesAfter(BLANK, c, Derive([AddPrinting(printing, code)]));
            CodesAgree(codes, b, c) <==> b.synthesize(code) == c.synthesize(code)
  {
    var op := AddPrinting(printing, code);
    assert op in [op];
    assert CodesAfter(BLANK, c, Derive([op])) == {code};
    assert Says(ALWAYS, b.variants, code).None? && Says(ALWAYS, c.variants, code).None?;
  }

  function Stamped(code: string): Variant {
    Variant(code + " Stamp", "?", 4, 0, "", None, false)
  }

  /** Such a run. */
  lemma TheRebuiltRun(printing: string, code: string)
    ensures var b, c := Shipping("a", 2022), Shipping("a", 2022).(synthesize := Stamped);
            var g := Run(BLANK, [(c, Derive([AddPrinting(printing, code)]))]);
            OpenForServing(g, b, true, 8) == (g, true) && OpenShared(g, b, 8).0 != g
  {
    var b := Shipping("a", 2022);
    RebuiltRuns(b, b.(synthesize := Stamped), printing, code);
    assert |Plain(code).caption| != |Stamped(code).caption|;
  }
}
