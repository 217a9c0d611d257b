/** Previewing and committing an import: what a commit does to the collection, and what the next
    preview says of it. */
module ImportCommit {
  import opened Wrappers
  import opened StableSort
  import opened Queries
  import opened CardText
  import opened ImportResolver
  import H = Holdings
  import HoldingsStore

  datatype CommitResult = CommitResult(batch: H.Id, added: nat, skipped: nat)

  // ----- Preview -----

  predicate IsOwned(copy: H.Copy, printing: string) {
    copy.printing == printing && copy.status == H.Owned
  }

  /** Copies of a printing with status `owned`. */
  function OwnedOf(copies: map<H.Id, H.Copy>, printing: string): set<H.Id> {
    set c | c in copies && IsOwned(copies[c], printing)
  }

  function OwnedCount(s: H.State, printing: string): nat {
    |OwnedOf(s.copies, printing)|
  }

  function Noted(s: H.State, row: ResolvedRow): ResolvedRow {
    row.(alreadyOwned := U32(OwnedCount(s, row.printing)))
  }

  function NotedAll(s: H.State, rows: seq<ResolvedRow>): seq<ResolvedRow> {
    seq(|rows|, i requires 0 <= i < |rows| => Noted(s, rows[i]))
  }

  function Annotated(s: H.State, report: Report): Report {
    report.(matched := NotedAll(s, report.matched))
  }

  function Preview(cat: Catalog, f: Folding, s: H.State, rows: seq<ParsedRow>): Report {
    Annotated(s, Resolved(cat, f, rows))
  }

  // ----- Commit -----

  function JoinTags(tags: seq<string>): string {
    if tags == [] then ""
    else if |tags| == 1 then "\"" + tags[0] + "\""
    else "\"" + tags[0] + "\"," + JoinTags(tags[1..])
  }

  function TagsJson(tags: seq<string>): string {
    "[" + JoinTags(tags) + "]"
  }

  function NewCopyOf(row: ResolvedRow, source: string, batch: H.Id): H.NewCopy {
    H.NewCopy(row.printing, Some(row.condition), Some(row.language), row.purchasePrice, row.acquiredAt, source,
              None, None, None, None, None, Some(batch))
  }

  function TagEdit(row: ResolvedRow): H.CopyEdit {
    H.CopyEdit(None, None, None, None, None, Some(TagsJson(row.tags)), None, None, None, None)
  }

  /** One matched row: an add, then, if it has tags, an update, each in a transaction of its own. */
  function AddRow(cardOf: map<string, string>, s: H.State, row: ResolvedRow, source: string, batch: H.Id)
    : (H.State, Option<H.DbError>)
  {
    var (s1, r) := H.Add(cardOf, s, NewCopyOf(row, source, batch));
    if r.Err? then (s1, Some(r.error))
    else if row.tags == [] then (s1, None)
    else
      var (s2, u) := H.Update(s1, r.value, TagEdit(row));
      (s2, if u.Err? then Some(u.error) else None)
  }

  function AddRows(cardOf: map<string, string>, s: H.State, rows: seq<ResolvedRow>, source: string, batch: H.Id)
    : (H.State, Option<H.DbError>)
    decreases |rows|
  {
    if rows == [] then (s, None)
    else
      var (next, failure) := AddRow(cardOf, s, rows[0], source, batch);
      if failure.Some? then (next, failure) else AddRows(cardOf, next, rows[1..], source, batch)
  }

  function NewBatch(source: string): H.Batch {
    H.Batch(source, None, None)
  }

  /** A commit opens a batch and adds the matched rows under it, stopping at the first that fails. */
  function CommitMatched(cardOf: map<string, string>, s: H.State, report: Report, source: string)
    : (H.State, Result<CommitResult, H.DbError>)
  {
    var (s1, r) := H.CreateBatch(s, NewBatch(source));
    if r.Err? then (s1, Err(r.error))
    else
      var (s2, failure) := AddRows(cardOf, s1, report.matched, source, r.value);
      if failure.Some? then (s2, Err(failure.value))
      else (s2, Ok(CommitResult(r.value, U32(|report.matched|), U32(|report.unmatched|))))
  }

  function Commit(cat: Catalog, f: Folding, cardOf: map<string, string>, s: H.State, rows: seq<ParsedRow>,
                  source: string): (H.State, Result<CommitResult, H.DbError>)
  {
    CommitMatched(cardOf, s, Resolved(cat, f, rows), source)
  }

  function Selected(lines: set<nat>): ResolvedRow -> bool {
    (row: ResolvedRow) => row.sourceLine in lines
  }

  function FilterReport(report: Report, lines: set<nat>): Report {
    Report(Filter(Selected(lines), report.matched), [])
  }

  function CommitSelected(cat: Catalog, f: Folding, cardOf: map<string, string>, s: H.State, rows: seq<ParsedRow>,
                          lines: set<nat>, source: string): (H.State, Result<CommitResult, H.DbError>)
  {
    CommitMatched(cardOf, s, FilterReport(Resolved(cat, f, rows), lines), source)
  }

  // ----- On the database -----

  ghost predicate Counts(counts: map<string, nat>, copies: map<H.Id, H.Copy>) {
    forall p :: (if p in counts then counts[p] else 0) == |OwnedOf(copies, p)|
  }

  function CountCopy(counts: map<string, nat>, copy: H.Copy): map<string, nat> {
    if copy.status == H.Owned
    then counts[copy.printing := (if copy.printing in counts then counts[copy.printing] else 0) + 1]
    else counts
  }

  lemma CountStep(counts: map<string, nat>, copies: map<H.Id, H.Copy>, c: H.Id, copy: H.Copy)
    requires Counts(counts, copies) && c !in copies
    ensures Counts(CountCopy(counts, copy), copies[c := copy])
  {
    forall p { OneMoreCopy(copies, c, copy, p); }
  }

  lemma OneMoreCopy(copies: map<H.Id, H.Copy>, c: H.Id, copy: H.Copy, p: string)
    requires c !in copies
    ensures |OwnedOf(copies[c := copy], p)| == |OwnedOf(copies, p)| + if IsOwned(copy, p) then 1 else 0
  {
    var before, after := OwnedOf(copies, p), OwnedOf(copies[c := copy], p);
    assert after == if IsOwned(copy, p) then before + {c} else before;
  }

  method CountOwned(copies: map<H.Id, H.Copy>) returns (counts: map<string, nat>)
    ensures Counts(counts, copies)
  {
    counts := map[];
    var left := copies.Keys;
    ghost var seen: map<H.Id, H.Copy> := map[];
    while left != {}
      invariant left <= copies.Keys && seen == copies - left && Counts(counts, seen)
      decreases |left|
    {
      var c :| c in left;
      CountStep(counts, seen, c, copies[c]);
      counts := CountCopy(counts, copies[c]);
      seen, left := seen[c := copies[c]], left - {c};
    }
    assert seen == copies;
  }

  method AnnotateOwned(db: HoldingsStore.Database, report: Report) returns (r: Report)
    ensures r == Annotated(db.View(), report)
  {
    var matched := report.matched;
    if matched == [] {
      return report;
    }
    var counts := CountOwned(db.copies);
    var i := 0;
    while i < |matched|
      invariant 0 <= i <= |matched| == |report.matched|
      invariant forall k | 0 <= k < i :: matched[k] == Noted(db.View(), report.matched[k])
      invariant forall k | i <= k < |matched| :: matched[k] == report.matched[k]
    {
      var p := matched[i].printing;
      matched := matched[i := matched[i].(alreadyOwned := U32(if p in counts then counts[p] else 0))];
      i := i + 1;
    }
    r := report.(matched := matched);
  }

  method CommitReport(db: HoldingsStore.Database, report: Report, source: string)
    returns (r: Result<CommitResult, H.DbError>)
    requires db.Valid()
    modifies db
    ensures db.Valid()
    ensures (db.View(), r) == CommitMatched(db.cardOf, old(db.View()), report, source)
  {
    var batch := db.CreateBatch(NewBatch(source));
    if batch.Err? {
      return Err(batch.error);
    }
    ghost var start := db.View();
    var added := 0;
    for i := 0 to |report.matched|
      invariant db.Valid() && added == i
      invariant AddRows(db.cardOf, start, report.matched, source, batch.value)
             == AddRows(db.cardOf, db.View(), report.matched[i..], source, batch.value)
    {
      var row := report.matched[i];
      assert report.matched[i..][1..] == report.matched[i + 1..];
      var id := db.Add(NewCopyOf(row, source, batch.value));
      if id.Err? {
        return Err(id.error);
      }
      if row.tags != [] {
        var updated := db.Update(id.value, TagEdit(row));
        if updated.Err? {
          return Err(updated.error);
        }
      }
      added := added + 1;
    }
    r := Ok(CommitResult(batch.value, U32(added), U32(|report.unmatched|)));
  }

  method PreviewImport(db: HoldingsStore.Database, cat: Catalog, f: Folding, rows: seq<ParsedRow>)
    returns (report: Report)
    ensures report == Preview(cat, f, db.View(), rows)
  {
    report := Resolve(cat, f, rows);
    report := AnnotateOwned(db, report);
  }

  /** Resolves again rather than trusting a preview. */
  method CommitImport(db: HoldingsStore.Database, cat: Catalog, f: Folding, rows: seq<ParsedRow>, source: string)
    returns (r: Result<CommitResult, H.DbError>)
    requires db.Valid()
    modifies db
    ensures db.Valid()
    ensures (db.View(), r) == Commit(cat, f, db.cardOf, old(db.View()), rows, source)
  {
    var report := Resolve(cat, f, rows);
    r := CommitReport(db, report, source);
  }

  method CommitSelection(db: HoldingsStore.Database, cat: Catalog, f: Folding, rows: seq<ParsedRow>,
                         lines: set<nat>, source: string)
    returns (r: Result<CommitResult, H.DbError>)
    requires db.Valid()
    modifies db
    ensures db.Valid()
    ensures (db.View(), r) == CommitSelected(cat, f, db.cardOf, old(db.View()), rows, lines, source)
  {
    var report := Resolve(cat, f, rows);
    r := CommitReport(db, FilterReport(report, lines), source);
  }
}
