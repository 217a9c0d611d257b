/** What a commit adds, what the next preview says, and what two partial commits add up to. */
module ImportLaws {
  import opened Wrappers
  import opened StableSort
  import opened Queries
  import opened CardText
  import opened ImportResolver
  import opened ImportCommit
  import H = Holdings

  // ----- One row -----

  /** What the database asks of a row before it takes a copy of it. */
  predicate Takes(cardOf: map<string, string>, row: ResolvedRow) {
    row.printing in cardOf && H.ParseCondition(row.condition).Some?
  }

  /** The copy a row becomes. */
  function CopyFor(row: ResolvedRow, source: string, batch: H.Id): H.Copy
  {
    H.Copy(row.printing, H.ParseCondition(row.condition).GetOr(H.NearMint), row.language, row.purchasePrice, None,
           row.acquiredAt, source, H.Owned, None, if row.tags == [] then None else Some(TagsJson(row.tags)),
           H.UNGRADED, H.LOOSE, None, Some(batch))
  }

  lemma AddMeaning(cardOf: map<string, string>, s: H.State, row: ResolvedRow, source: string, batch: H.Id)
    requires batch in s.batches
    ensures var (s1, r) := H.Add(cardOf, s, NewCopyOf(row, source, batch));
            && (r.Ok? <==> Takes(cardOf, row))
            && (r.Err? ==> s1 == s)
            && (r.Ok? ==> r.value == s.nextCopy && s1 == H.Insert(s, CopyFor(row, source, batch).(tags := None)))
  {
    assert H.ParseStatus("owned") == Some(H.Owned);
  }

  lemma TaggingMeaning(s: H.State, copy: H.Copy, row: ResolvedRow)
    requires copy.tags == None
    ensures H.Update(H.Insert(s, copy), s.nextCopy, TagEdit(row))
         == (H.Insert(s, copy.(tags := Some(TagsJson(row.tags)))), Ok(true))
  {
    var tagged := copy.(tags := Some(TagsJson(row.tags)));
    assert H.Edited(copy, TagEdit(row)) == Some(tagged);
    assert s.copies[s.nextCopy := copy][s.nextCopy := tagged] == s.copies[s.nextCopy := tagged];
  }

  /** A row either becomes one new copy or leaves the collection as it was. */
  lemma AddRowMeaning(cardOf: map<string, string>, s: H.State, row: ResolvedRow, source: string, batch: H.Id)
    requires batch in s.batches
    ensures Takes(cardOf, row) ==>
              AddRow(cardOf, s, row, source, batch) == (H.Insert(s, CopyFor(row, source, batch)), None)
    ensures !Takes(cardOf, row) ==>
              AddRow(cardOf, s, row, source, batch).0 == s && AddRow(cardOf, s, row, source, batch).1.Some?
  {
    AddMeaning(cardOf, s, row, source, batch);
    if Takes(cardOf, row) && row.tags != [] {
      TaggingMeaning(s, CopyFor(row, source, batch).(tags := None), row);
    }
  }

  // ----- All rows -----

  predicate TakesAll(cardOf: map<string, string>, rows: seq<ResolvedRow>) {
    forall i | 0 <= i < |rows| :: Takes(cardOf, rows[i])
  }

  function CopiesFor(rows: seq<ResolvedRow>, source: string, batch: H.Id): seq<H.Copy> {
    Mapped(row => CopyFor(row, source, batch), rows)
  }

  function InsertAll(s: H.State, copies: seq<H.Copy>): H.State
    decreases |copies|
  {
    if copies == [] then s else InsertAll(H.Insert(s, copies[0]), copies[1..])
  }

  /** Rows that are all taken become that many new copies, in order. */
  lemma {:induction false} AddRowsMeaning(
    cardOf: map<string, string>, s: H.State, rows: seq<ResolvedRow>, source: string, batch: H.Id)
    requires batch in s.batches && TakesAll(cardOf, rows)
    ensures AddRows(cardOf, s, rows, source, batch) == (InsertAll(s, CopiesFor(rows, source, batch)), None)
    decreases |rows|
  {
    if rows != [] {
      assert Takes(cardOf, rows[0]);
      assert forall i | 0 <= i < |rows[1..]| :: rows[1..][i] == rows[i + 1];
      AddRowMeaning(cardOf, s, rows[0], source, batch);
      var copies := CopiesFor(rows, source, batch);
      assert copies[1..] == CopiesFor(rows[1..], source, batch);
      AddRowsMeaning(cardOf, H.Insert(s, copies[0]), rows[1..], source, batch);
    }
  }

  /** An import is not all or nothing: when row k is the first that is not taken, the rows before it stay
      in the collection and the ones after it are never tried. */
  lemma {:induction false} FailureKeepsTheRowsBefore(
    cardOf: map<string, string>, s: H.State, rows: seq<ResolvedRow>, source: string, batch: H.Id, k: nat)
    requires batch in s.batches && k < |rows| && TakesAll(cardOf, rows[..k]) && !Takes(cardOf, rows[k])
    ensures AddRows(cardOf, s, rows, source, batch).0 == InsertAll(s, CopiesFor(rows[..k], source, batch))
    ensures AddRows(cardOf, s, rows, source, batch).1.Some?
    decreases |rows|
  {
    AddRowMeaning(cardOf, s, rows[0], source, batch);
    if k > 0 {
      assert rows[0] == rows[..k][0];
      assert rows[1..][..k - 1] == rows[..k][1..];
      assert forall i | 0 <= i < k - 1 :: rows[..k][1..][i] == rows[..k][i + 1];
      var copies := CopiesFor(rows[..k], source, batch);
      assert copies[1..] == CopiesFor(rows[..k][1..], source, batch);
      FailureKeepsTheRowsBefore(cardOf, H.Insert(s, copies[0]), rows[1..], source, batch, k - 1);
    }
  }

  /** A commit goes through exactly when every matched row is taken. */
  lemma CommitMeaning(cardOf: map<string, string>, s: H.State, report: Report, source: string)
    ensures var (s', r) := CommitMatched(cardOf, s, report, source);
            r.Ok? <==> TakesAll(cardOf, report.matched)
    ensures TakesAll(cardOf, report.matched) ==>
              CommitMatched(cardOf, s, report, source)
              == (InsertAll(H.CreateBatch(s, NewBatch(source)).0,
                            CopiesFor(report.matched, source, s.nextBatch)),
                  Ok(CommitResult(s.nextBatch, U32(|report.matched|), U32(|report.unmatched|))))
  {
    var (s1, r) := H.CreateBatch(s, NewBatch(source));
    assert r == Ok(s.nextBatch) && s.nextBatch in s1.batches;
    if TakesAll(cardOf, report.matched) {
      AddRowsMeaning(cardOf, s1, report.matched, source, s.nextBatch);
    } else {
      var k := FirstRefused(cardOf, report.matched);
      FailureKeepsTheRowsBefore(cardOf, s1, report.matched, source, s.nextBatch, k);
    }
  }

  lemma {:induction false} FirstRefused(cardOf: map<string, string>, rows: seq<ResolvedRow>) returns (k: nat)
    requires !TakesAll(cardOf, rows)
    ensures k < |rows| && TakesAll(cardOf, rows[..k]) && !Takes(cardOf, rows[k])
  {
    k := 0;
    while Takes(cardOf, rows[k])
      invariant k < |rows| && forall i | 0 <= i < k :: Takes(cardOf, rows[i])
      decreases |rows| - k
    {
      assert exists i | 0 <= i < |rows| :: !Takes(cardOf, rows[i]);
      k := k + 1;
    }
  }

  // ----- Preview, commit, preview -----

  predicate IdsAreFresh(s: H.State) {
    forall c | c in s.copies :: c < s.nextCopy
  }

  function CountFor(rows: seq<ResolvedRow>, printing: string): nat {
    if rows == [] then 0 else (if rows[0].printing == printing then 1 else 0) + CountFor(rows[1..], printing)
  }

  lemma {:induction false} InsertAllCounts(cardOf: map<string, string>, s: H.State, rows: seq<ResolvedRow>,
                                           source: string, batch: H.Id, printing: string)
    requires IdsAreFresh(s) && TakesAll(cardOf, rows)
    ensures var t := InsertAll(s, CopiesFor(rows, source, batch));
            OwnedCount(t, printing) == OwnedCount(s, printing) + CountFor(rows, printing)
    decreases |rows|
  {
    if rows != [] {
      assert Takes(cardOf, rows[0]);
      assert forall i | 0 <= i < |rows[1..]| :: rows[1..][i] == rows[i + 1];
      var copies := CopiesFor(rows, source, batch);
      assert copies[1..] == CopiesFor(rows[1..], source, batch);
      OneMoreCopy(s.copies, s.nextCopy, copies[0], printing);
      InsertAllCounts(cardOf, H.Insert(s, copies[0]), rows[1..], source, batch, printing);
    }
  }

  lemma CommittedCounts(cardOf: map<string, string>, s: H.State, report: Report, source: string, printing: string)
    requires IdsAreFresh(s) && CommitMatched(cardOf, s, report, source).1.Ok?
    ensures OwnedCount(CommitMatched(cardOf, s, report, source).0, printing)
         == OwnedCount(s, printing) + CountFor(report.matched, printing)
  {
    CommitMeaning(cardOf, s, report, source);
    var s1 := H.CreateBatch(s, NewBatch(source)).0;
    assert s1.copies == s.copies && s1.nextCopy == s.nextCopy;
    InsertAllCounts(cardOf, s1, report.matched, source, s.nextBatch, printing);
  }

  lemma CommittedTotals(cardOf: map<string, string>, s: H.State, report: Report, source: string)
    requires CommitMatched(cardOf, s, report, source).1.Ok?
    ensures var r := CommitMatched(cardOf, s, report, source).1.value;
            r == CommitResult(s.nextBatch, U32(|report.matched|), U32(|report.unmatched|))
  {
    CommitMeaning(cardOf, s, report, source);
  }

  lemma {:induction false} NotingKeepsPrintings(s: H.State, rows: seq<ResolvedRow>, printing: string)
    ensures CountFor(NotedAll(s, rows), printing) == CountFor(rows, printing)
  {
    if rows != [] {
      NotingKeepsPrintings(s, rows[1..], printing);
      assert NotedAll(s, rows)[1..] == NotedAll(s, rows[1..]);
    }
  }

  lemma AnnotatedTwice(report: Report, s: H.State, t: H.State, i: nat)
    requires i < |report.matched|
    ensures var before, after := Annotated(s, report), Annotated(t, report);
            && |after.matched| == |before.matched| && after.unmatched == before.unmatched
            && after.matched[i].(alreadyOwned := 0) == before.matched[i].(alreadyOwned := 0)
            && before.matched[i].alreadyOwned == U32(OwnedCount(s, before.matched[i].printing))
            && after.matched[i].alreadyOwned == U32(OwnedCount(t, before.matched[i].printing))
            && before.matched[i].printing == report.matched[i].printing
  {
  }

  /** Two previews of one report, the second after a commit of it: row i is the same row, and counts as
      many more owned copies as the report has rows with its printing. */
  predicate CountsTheCommit(s: H.State, before: Report, after: Report, i: nat) {
    && i < |before.matched| == |after.matched|
    && after.unmatched == before.unmatched
    && after.matched[i].(alreadyOwned := 0) == before.matched[i].(alreadyOwned := 0)
    && before.matched[i].alreadyOwned == U32(OwnedCount(s, before.matched[i].printing))
    && after.matched[i].alreadyOwned
       == U32(OwnedCount(s, before.matched[i].printing) + CountFor(before.matched, before.matched[i].printing))
  }

  lemma CommitShowsInAnnotations(cardOf: map<string, string>, s: H.State, report: Report, source: string, i: nat)
    requires IdsAreFresh(s) && CommitMatched(cardOf, s, report, source).1.Ok? && i < |report.matched|
    ensures CountsTheCommit(s, Annotated(s, report),
                            Annotated(CommitMatched(cardOf, s, report, source).0, report), i)
  {
    var s' := CommitMatched(cardOf, s, report, source).0;
    AnnotatedTwice(report, s, s', i);
    CommittedCounts(cardOf, s, report, source, report.matched[i].printing);
    NotingKeepsPrintings(s, report.matched, report.matched[i].printing);
  }

  /** After a commit the next preview of the same file matches the same rows, and each now counts as many
      more owned copies as there are matched rows with its printing. */
  lemma PreviewCommitPreview(cat: Catalog, f: Folding, cardOf: map<string, string>, s: H.State,
                             rows: seq<ParsedRow>, source: string, i: nat)
    requires IdsAreFresh(s) && Commit(cat, f, cardOf, s, rows, source).1.Ok?
    requires i < |Preview(cat, f, s, rows).matched|
    ensures CountsTheCommit(s, Preview(cat, f, s, rows),
                            Preview(cat, f, Commit(cat, f, cardOf, s, rows, source).0, rows), i)
  {
    CommitShowsInAnnotations(cardOf, s, Resolved(cat, f, rows), source, i);
  }

  lemma CommittedSum(cardOf: map<string, string>, s: H.State, report: Report, source: string)
    requires CommitMatched(cardOf, s, report, source).1.Ok?
    requires |report.matched| + |report.unmatched| < 0x1_0000_0000
    ensures var r := CommitMatched(cardOf, s, report, source).1.value;
            r.added == |report.matched| && r.skipped == |report.unmatched|
  {
    CommittedTotals(cardOf, s, report, source);
  }

  /** Added and skipped rows together are the parsed rows. */
  lemma EveryRowIsAccountedFor(cat: Catalog, f: Folding, cardOf: map<string, string>, s: H.State,
                               rows: seq<ParsedRow>, source: string)
    requires Commit(cat, f, cardOf, s, rows, source).1.Ok? && |rows| < 0x1_0000_0000
    ensures var r := Commit(cat, f, cardOf, s, rows, source).1.value;
            r.added + r.skipped == |rows| && r.added == |Resolved(cat, f, rows).matched|
  {
    EveryRowIsInOneList(cat, f, rows);
    CommittedSum(cardOf, s, Resolved(cat, f, rows), source);
  }

  /** A selected commit reports nothing as skipped, whatever it left out. */
  lemma SelectedCommitsSkipNothing(cat: Catalog, f: Folding, cardOf: map<string, string>, s: H.State,
                                   rows: seq<ParsedRow>, lines: set<nat>, source: string)
    requires CommitSelected(cat, f, cardOf, s, rows, lines, source).1.Ok?
    ensures var r := CommitSelected(cat, f, cardOf, s, rows, lines, source).1.value;
            r.skipped == 0 && r.added == U32(|Filter(Selected(lines), Resolved(cat, f, rows).matched)|)
  {
    CommittedTotals(cardOf, s, FilterReport(Resolved(cat, f, rows), lines), source);
  }

  // ----- Partial commits -----

  lemma {:induction false} InsertAllAdds(s: H.State, copies: seq<H.Copy>)
    ensures var t := InsertAll(s, copies);
            && t.nextCopy == s.nextCopy + |copies|
            && (forall c | s.nextCopy <= c < t.nextCopy :: c in t.copies && t.copies[c] == copies[c - s.nextCopy])
            && (forall c | c in s.copies && c < s.nextCopy :: c in t.copies && t.copies[c] == s.copies[c])
    decreases |copies|
  {
    if copies != [] {
      var s1, t := H.Insert(s, copies[0]), InsertAll(s, copies);
      InsertAllAdds(s1, copies[1..]);
      assert s.nextCopy in s1.copies && s.nextCopy < s1.nextCopy;
      forall c | s.nextCopy <= c < t.nextCopy ensures c in t.copies && t.copies[c] == copies[c - s.nextCopy] {
        if c > s.nextCopy {
          assert copies[1..][c - s1.nextCopy] == copies[c - s.nextCopy];
        }
      }
    }
  }

  /** The copies with ids from `first` on, whatever batch they came in with. */
  function Newcomers(t: H.State, first: H.Id): seq<H.Copy>
    requires first <= t.nextCopy && forall i | first <= i < t.nextCopy :: i in t.copies
  {
    seq(t.nextCopy - first, i requires 0 <= i < t.nextCopy - first => t.copies[first + i].(batch := None))
  }

  function Bare(source: string): ResolvedRow -> H.Copy {
    (row: ResolvedRow) => CopyFor(row, source, 0).(batch := None)
  }

  /** A commit that goes through adds one copy for each matched row, in order, and keeps what was there. */
  lemma CommitAdds(cardOf: map<string, string>, s: H.State, report: Report, source: string)
    requires TakesAll(cardOf, report.matched)
    ensures var (t, r) := CommitMatched(cardOf, s, report, source);
            && r.Ok?
            && t.nextCopy == s.nextCopy + |report.matched|
            && (forall i | s.nextCopy <= i < t.nextCopy :: i in t.copies)
            && Newcomers(t, s.nextCopy) == Mapped(Bare(source), report.matched)
            && (forall c | c in s.copies && c < s.nextCopy :: c in t.copies && t.copies[c] == s.copies[c])
  {
    CommitMeaning(cardOf, s, report, source);
    var s1 := H.CreateBatch(s, NewBatch(source)).0;
    var copies := CopiesFor(report.matched, source, s.nextBatch);
    InsertAllAdds(s1, copies);
    InsertedAreNewcomers(s1, copies);
    assert Mapped(Bare(source), report.matched) == Unbatched(copies);
  }

  function Unbatched(copies: seq<H.Copy>): seq<H.Copy> {
    seq(|copies|, i requires 0 <= i < |copies| => copies[i].(batch := None))
  }

  lemma InsertedAreNewcomers(s: H.State, copies: seq<H.Copy>)
    ensures var t := InsertAll(s, copies);
            && t.nextCopy == s.nextCopy + |copies|
            && (forall i | s.nextCopy <= i < t.nextCopy :: i in t.copies)
            && Newcomers(t, s.nextCopy) == Unbatched(copies)
  {
    InsertAllAdds(s, copies);
  }

  lemma SelectionIsTaken(cardOf: map<string, string>, report: Report, lines: set<nat>, more: set<nat>)
    requires TakesAll(cardOf, FilterReport(report, more).matched) && lines <= more
    ensures TakesAll(cardOf, FilterReport(report, lines).matched)
  {
    var kept, all := FilterReport(report, lines).matched, FilterReport(report, more).matched;
    forall i | 0 <= i < |kept| ensures Takes(cardOf, kept[i]) {
      assert kept[i] in report.matched && Selected(more)(kept[i]);
      assert kept[i] in all;
    }
  }

  /** Committing one selection and then another, with no line in both, adds the same copies as committing
      the two together, up to which batch they belong to. */
  lemma DisjointSelectionsAddUp(cardOf: map<string, string>, s: H.State, report: Report, source: string,
                                a: set<nat>, b: set<nat>)
    requires TakesAll(cardOf, FilterReport(report, a + b).matched) && a !! b
    ensures var (s1, r1) := CommitMatched(cardOf, s, FilterReport(report, a), source);
            var (s2, r2) := CommitMatched(cardOf, s1, FilterReport(report, b), source);
            var (u, r) := CommitMatched(cardOf, s, FilterReport(report, a + b), source);
            && r1.Ok? && r2.Ok? && r.Ok?
            && s2.nextCopy == u.nextCopy >= s.nextCopy
            && (forall i | s.nextCopy <= i < u.nextCopy :: i in u.copies && i in s2.copies)
            && multiset(Newcomers(s2, s.nextCopy)) == multiset(Newcomers(u, s.nextCopy))
  {
    var ra, rb, rab := FilterReport(report, a), FilterReport(report, b), FilterReport(report, a + b);
    SelectionIsTaken(cardOf, report, a, a + b);
    SelectionIsTaken(cardOf, report, b, a + b);
    var s1 := CommitMatched(cardOf, s, ra, source).0;
    var s2 := CommitMatched(cardOf, s1, rb, source).0;
    var u := CommitMatched(cardOf, s, rab, source).0;
    CommitAdds(cardOf, s, ra, source);
    CommitAdds(cardOf, s1, rb, source);
    CommitAdds(cardOf, s, rab, source);
    DisjointPicks(Selected(a), Selected(b), Selected(a + b), Bare(source), report.matched);
    TwoBatches(s, s1, s2, Mapped(Bare(source), ra.matched), Mapped(Bare(source), rb.matched));
    SameSize(Mapped(Bare(source), ra.matched), Mapped(Bare(source), rb.matched), Mapped(Bare(source), rab.matched));
  }

  lemma SameSize<T>(a: seq<T>, b: seq<T>, c: seq<T>)
    requires multiset(a) + multiset(b) == multiset(c)
    ensures |a| + |b| == |c|
  {
    assert |multiset(a) + multiset(b)| == |a| + |b| && |multiset(c)| == |c|;
  }

  lemma TwoBatches(s: H.State, s1: H.State, s2: H.State, first: seq<H.Copy>, second: seq<H.Copy>)
    requires s.nextCopy <= s1.nextCopy <= s2.nextCopy
    requires forall i | s.nextCopy <= i < s1.nextCopy :: i in s1.copies
    requires forall i | s1.nextCopy <= i < s2.nextCopy :: i in s2.copies
    requires forall c | c in s1.copies && c < s1.nextCopy :: c in s2.copies && s2.copies[c] == s1.copies[c]
    requires Newcomers(s1, s.nextCopy) == first && Newcomers(s2, s1.nextCopy) == second
    ensures forall i | s.nextCopy <= i < s2.nextCopy :: i in s2.copies
    ensures multiset(Newcomers(s2, s.nextCopy)) == multiset(first) + multiset(second)
  {
    Joined(Newcomers(s2, s.nextCopy), first, second);
  }

  lemma Joined<T>(all: seq<T>, first: seq<T>, second: seq<T>)
    requires |all| == |first| + |second|
    requires forall i | 0 <= i < |first| :: all[i] == first[i]
    requires forall i | |first| <= i < |all| :: all[i] == second[i - |first|]
    ensures multiset(all) == multiset(first) + multiset(second)
  {
    assert all == first + second;
  }

  /** A catalog's own printings can all be added, so resolving is the only thing a commit can stumble on. */
  lemma MatchedRowsAreTaken(cat: Catalog, f: Folding, cardOf: map<string, string>, rows: seq<ParsedRow>)
    requires forall i | 0 <= i < |cat.printings| :: cat.printings[i].id in cardOf
    requires forall i | 0 <= i < |rows| :: H.ParseCondition(rows[i].condition).Some?
    ensures TakesAll(cardOf, Resolved(cat, f, rows).matched)
  {
    var matched, good := Resolved(cat, f, rows).matched, Matching(cat, f, rows);
    EveryRowIsInOneList(cat, f, rows);
    forall i | 0 <= i < |matched| ensures Takes(cardOf, matched[i]) {
      assert good[i] in rows;
      MatchedRowsNamePrintings(cat, f, good[i]);
      AcceptedCondition(cat, f, good[i]);
    }
  }

  lemma AcceptedCondition(cat: Catalog, f: Folding, row: ParsedRow)
    requires ResolveRow(cat, f, row).Ok?
    ensures ResolveRow(cat, f, row).value.condition == row.condition
  {
  }

  // ----- Column by column -----

  /** What a preview shows of a row: the row as resolved, and the copies of its printing that are owned. */
  lemma PreviewMeaning(cat: Catalog, f: Folding, s: H.State, rows: seq<ParsedRow>, i: nat)
    requires i < |Resolved(cat, f, rows).matched|
    ensures var p, r := Preview(cat, f, s, rows), Resolved(cat, f, rows);
            && |p.matched| == |r.matched| && p.unmatched == r.unmatched
            && p.matched[i].(alreadyOwned := r.matched[i].alreadyOwned) == r.matched[i]
            && p.matched[i].alreadyOwned
               == |set c | c in s.copies && s.copies[c].printing == r.matched[i].printing
                           && s.copies[c].status == H.Owned| % 0x1_0000_0000
  {
    var printing := Resolved(cat, f, rows).matched[i].printing;
    assert OwnedOf(s.copies, printing)
        == set c | c in s.copies && s.copies[c].printing == printing && s.copies[c].status == H.Owned;
  }

  /** The copy a matched row becomes has the row's columns, is owned, and sits nowhere. */
  predicate CopySays(copy: H.Copy, row: ResolvedRow, source: string, batch: H.Id) {
    && copy.printing == row.printing && H.ParseCondition(row.condition) == Some(copy.condition)
    && copy.language == row.language && copy.purchasePrice == row.purchasePrice && copy.salePrice == None
    && copy.acquiredAt == row.acquiredAt && copy.source == source && copy.status == H.Owned && copy.notes == None
    && copy.tags == (if row.tags == [] then None else Some(TagsJson(row.tags)))
    && copy.grading == H.Grading(false, None, None, None)
    && copy.place == H.Place(None, None) && copy.order == None && copy.batch == Some(batch)
  }

  lemma {:induction false} InsertAllLogs(s: H.State, copies: seq<H.Copy>)
    ensures var t := InsertAll(s, copies);
            && t.batches == s.batches && t.nextCopy == s.nextCopy + |copies|
            && (forall c | s.nextCopy <= c < t.nextCopy ::
                  && c in t.moves && t.moves[c] == []
                  && c in t.statuses
                  && t.statuses[c] == [H.StatusChange(None, copies[c - s.nextCopy].status, Some("added"))])
            && (forall c | c in s.moves && c < s.nextCopy :: c in t.moves && t.moves[c] == s.moves[c])
            && (forall c | c in s.statuses && c < s.nextCopy :: c in t.statuses && t.statuses[c] == s.statuses[c])
    decreases |copies|
  {
    if copies != [] {
      var s1, t := H.Insert(s, copies[0]), InsertAll(s, copies);
      InsertAllLogs(s1, copies[1..]);
      FirstOfTheInserted(s, copies[0]);
      forall c | s.nextCopy <= c < t.nextCopy
        ensures c in t.moves && t.moves[c] == [] && c in t.statuses
        ensures t.statuses[c] == [H.StatusChange(None, copies[c - s.nextCopy].status, Some("added"))]
      {
        if c > s.nextCopy {
          assert copies[1..][c - s1.nextCopy] == copies[c - s.nextCopy];
        }
      }
    }
  }

  lemma FirstOfTheInserted(s: H.State, copy: H.Copy)
    ensures var t := H.Insert(s, copy);
            && t.nextCopy == s.nextCopy + 1 && s.nextCopy in t.moves && t.moves[s.nextCopy] == []
            && s.nextCopy in t.statuses
            && t.statuses[s.nextCopy] == [H.StatusChange(None, copy.status, Some("added"))]
  {
  }

  /** Row i of a commit that goes through is copy number i of the batch: its columns are the row's, its
      histories are those of a copy just added, and the batch is of the import's kind. */
  lemma ImportedCopies(cardOf: map<string, string>, s: H.State, report: Report, source: string, i: nat)
    requires CommitMatched(cardOf, s, report, source).1.Ok? && i < |report.matched|
    ensures var (t, r) := CommitMatched(cardOf, s, report, source);
            && s.nextCopy + i in t.copies && CopySays(t.copies[s.nextCopy + i], report.matched[i], source, s.nextBatch)
            && s.nextCopy + i in t.moves && t.moves[s.nextCopy + i] == []
            && s.nextCopy + i in t.statuses
            && t.statuses[s.nextCopy + i] == [H.StatusChange(None, H.Owned, Some("added"))]
            && t.batches == s.batches[s.nextBatch := H.Batch(source, None, None)]
            && r.value.batch == s.nextBatch
            && r.value.added == |report.matched| % 0x1_0000_0000
            && r.value.skipped == |report.unmatched| % 0x1_0000_0000
  {
    CommitMeaning(cardOf, s, report, source);
    var s1 := H.CreateBatch(s, NewBatch(source)).0;
    var copies := CopiesFor(report.matched, source, s.nextBatch);
    InsertAllAdds(s1, copies);
    InsertAllLogs(s1, copies);
    assert copies[i] == CopyFor(report.matched[i], source, s.nextBatch);
    assert Takes(cardOf, report.matched[i]);
  }

  /** The tags of a copy are a JSON array of the row's tags, each in quotes. */
  lemma {:induction false} TagsAreListed(tags: seq<string>, tag: string)
    ensures TagsJson([tag]) == "[" + "\"" + tag + "\"" + "]"
    ensures tags != [] ==> JoinTags(tags + [tag]) == JoinTags(tags) + ",\"" + tag + "\""
  {
    assert JoinTags([tag]) == "\"" + tag + "\"";
    if |tags| == 1 {
      assert (tags + [tag])[1..] == [tag];
      JoinsUp("\"" + tags[0] + "\"", tag);
    } else if tags != [] {
      assert (tags + [tag])[1..] == tags[1..] + [tag];
      TagsAreListed(tags[1..], tag);
    }
  }

  lemma JoinsUp(front: string, tag: string)
    ensures front + "," + ("\"" + tag + "\"") == front + ",\"" + tag + "\""
  {
    assert "," + "\"" == ",\"";
  }

  /** A selected commit is a commit of the matched rows whose line is selected, in their order, with nothing
      to skip. */
  lemma SelectionMeaning(cat: Catalog, f: Folding, cardOf: map<string, string>, s: H.State, rows: seq<ParsedRow>,
                         lines: set<nat>, source: string)
    ensures CommitSelected(cat, f, cardOf, s, rows, lines, source)
         == CommitMatched(cardOf, s, Report(Filter(OnLines(lines), Resolved(cat, f, rows).matched), []), source)
  {
    SameRowsKept(Selected(lines), OnLines(lines), Resolved(cat, f, rows).matched);
  }

  function OnLines(lines: set<nat>): ResolvedRow -> bool {
    (row: ResolvedRow) => row.sourceLine in lines
  }

  lemma {:induction false} SameRowsKept(p: ResolvedRow -> bool, q: ResolvedRow -> bool, s: seq<ResolvedRow>)
    requires forall x | x in s :: p(x) == q(x)
    ensures Filter(p, s) == Filter(q, s)
  {
    if s != [] {
      SameRowsKept(p, q, s[1..]);
    }
  }
}
