# PokeDumpster in Dafny

A model of the parts of PokeDumpster, a Pokémon card collection tracker, that carry state, ordering or
encoding, with proofs. `dafny verify dfyconfig.toml` checks all of it.

**Holdings** (`Holdings`, `HoldingsInvariant`, `HoldingsAudit`, `HoldingsCrashes`, `HoldingsMeaning`, `LogTable`,
`HoldingsStore`). Copies sit in a binder, a deck or nowhere. `Database` is the tenant's tables with one method for
each repository function, updated in place; each method is proved to do to the tables what the function of the same
name in `Holdings` does to their value, refusals included, and keeps them the outcome of a run. `HoldingsMeaning` says
of each operation, column by column, what it writes and when it is refused. `HoldingsInvariant` proves what every run
keeps. `HoldingsAudit` tracks, from the operations alone, where each copy was asked to be put, and proves that the
movement log records exactly that. The release of a deck group leaves the binder columns of its log entry empty; that
this is truthful depends on a copy never being in a binder and a deck at once, and on nothing else. A deck deletion is
three statements outside a transaction. `HoldingsCrashes` says, for each of the two places it can stop between them,
exactly which copies' logs no longer lead to where the copy is, shows each by a run, and proves over every run with
such deaths that only the decks whose deletion is unfinished are affected and that repeating the deletion makes the
log whole again.

**Names, lists and pages** (`Orders`, `Natural`, `StableSort`, `NameLists`, `BinderPages`, `BinderViews`). The natural
order of names, the lists sorted by it, and the set binder's sort, filter and page pipeline; `BinderViews` says what
its pages show in terms of the cards, the rows and the query.

**Imports** (`CardText`, `Queries`, `ImportResolver`, `ImportMeaning`, `ImportOrder`, `ImportCommit`, `ImportLaws`).
Resolving file rows against the read-only catalog, previewing, and committing into the `Database` above. Three lookups
take the first row that passes, and no key makes it the only one: the set by ptcgo code or name, the card by set and
number, and the printing by card and variant. `ImportOrder` says of each exactly when its answer follows from the
catalog and not from the order of a table, and of a whole row exactly when it is guessed at; elsewhere the resolver
does not guess (`TheResolverNeverGuesses`).

**The catalog** (`Seeds`, `Convergence`, `CatalogContents`, `MixedBuilds`, `CatalogRuns`, `Releases`, `CatalogStore`,
`Fingerprint`). A file record changed by small transactions, with death allowed between any two; `CatalogContents`
says what each table holds after them. A server starts read-only when two marks in the file are its build's. Three
things make that wrong: another build whose open dies or fails after something the two disagree on, while both marks
still stand; a build that is abandoned after its ingest while a row of its seeds waits for what the ingest brought;
and a build with the same hash but other code for synthesizing variant rows, which the hash does not cover.
`ReadOnlyServesAreHonest` proves that over any run these are the only three; each is shown by a run from a new file
(`TheTwoBuildRun`, `TheUnclosedRun`, `TheRebuiltRun`). `Fingerprint` proves that the bytes fed to the hash determine
what went into them, and `Releases` that builds with one hash therefore differ in their code at most.

**Prices and treatments** (`LatestPrices`, `VariantNames`). The materialized newest prices against a scan of the
history; the parenthetical scanner against a unique decomposition of the name.

**The userscript** (`BracketScanner`, `BracketValues`, `Reconcile`, `Csv`). The bracket scanner, also against texts
that are written from values, the reconciliation of candidates and the CSV printer, whose output is read back by a
reader written for section 2 of RFC 4180.

Taken as parameters, so the results hold for any: `char::to_lowercase` and `str::to_lowercase`, `localeCompare`, the
folding of card names, `JSON.parse`, the ingest's choice of rows, and the order in which a server starts, opens and builds.

## Model

| member | source | states |
|---|---|---|
| HoldingsStore.Database.constructor | crates/pkdump-db/src/schema_user.sql:64-197 | a new collection has no rows, and its log tables hold only rows of its own copies |
| HoldingsStore.Database.Add | crates/pkdump-db/src/collection.rs:117-163 | an add inserts the row with the defaults of the absent fields under an id no copy has and opens its status history, or is refused for an unknown printing, a binder and a deck at once, a value off a CHECK list or a dead reference, changing nothing |
| HoldingsStore.Database.KeepsInv | crates/pkdump-db/src/schema_user.sql:64-197 | between operations the tables keep binder/deck exclusivity, live references, whole status histories, unique group names and fresh ids |
| HoldingsStore.Database.KeepsTheTrail | crates/pkdump-db/src/schema_user.sql:186-197 | between operations the rows of the movement log for a copy are a chain that ends where the copy is |
| HoldingsStore.Database.Update | crates/pkdump-db/src/collection.rs:388-418 | only the given fields change, the sale price and the grading columns among them; a condition off its list refuses the whole edit; an absent copy is reported as unchanged |
| HoldingsStore.Database.SetStatus | crates/pkdump-db/src/collection.rs:420-447 | the status and its log entry change together, from the old status to the new one |
| HoldingsStore.Database.MoveTo | crates/pkdump-db/src/collection.rs:449-484 | a move puts the copy into the binder and the deck it names and appends the entry from where it was to there; two containers, an absent copy or a dead container are refused with nothing changed |
| HoldingsStore.Database.Delete | crates/pkdump-db/src/collection.rs:488-491 | a deleted copy takes exactly its own log rows with it |
| HoldingsStore.Database.DeleteLatest | crates/pkdump-db/src/collection.rs:494-509 | the copy deleted is the one of that printing with the greatest id, or none |
| HoldingsStore.Database.ChangePrinting | crates/pkdump-db/src/collection.rs:511-533 | a copy changes printing only within one card, and nothing else on it changes |
| HoldingsStore.Database.CreateDeck | crates/pkdump-db/src/decks.rs:85-106 | a deck is created with its default state under an id no deck has, or refused for a state off the list or a dead group |
| HoldingsStore.Database.UpdateDeck | crates/pkdump-db/src/decks.rs:127-155 | absent fields stay, and the group is not touched |
| HoldingsStore.Database.DeleteDeck | crates/pkdump-db/src/decks.rs:158-169 | deleting a deck blanks it in both columns of the log and, through its foreign key, on the rows, and reports whether it existed |
| HoldingsStore.Database.SetGroup | crates/pkdump-db/src/decks.rs:172-184 | a deck joins a live group or none; a dead group is refused before the deck is looked for |
| HoldingsStore.Database.CheckName | crates/pkdump-db/src/deck_groups.rs:75-90 | a name is invalid exactly when trimming leaves nothing, and in conflict exactly when, not being blank, another group has it |
| HoldingsInvariant.AcceptedNamesStayUnique | crates/pkdump-db/src/deck_groups.rs:75-90 | a name passes exactly when it is not blank and the names stay unique with it in the table |
| HoldingsStore.Database.CreateGroup | crates/pkdump-db/src/deck_groups.rs:93-102 | a group is created with a checked name under an id no group has |
| HoldingsStore.Database.UpdateGroup | crates/pkdump-db/src/deck_groups.rs:133-152 | a rename is checked against every other group, and an absent group is reported as unchanged |
| HoldingsStore.Database.LogRelease | crates/pkdump-db/src/deck_groups.rs:163-171 | one log row for each released copy, from its deck and no binder to nowhere |
| HoldingsStore.Database.ReleaseAll | crates/pkdump-db/src/deck_groups.rs:158-178 | every copy in a deck of the group is logged and then loses its deck; the answer is how many |
| HoldingsStore.Database.DeleteDecks | crates/pkdump-db/src/deck_groups.rs:185-194 | deleting decks one after another forgets all of them in log and rows, in any order |
| HoldingsStore.Database.DeleteGroup | crates/pkdump-db/src/deck_groups.rs:181-196 | with decks: the copies are released, the decks go, then the group; alone: its decks belong to none |
| HoldingsStore.Database.DropGroup | crates/pkdump-db/src/schema_user.sql:98-100 | removing a group row leaves its decks in no group |
| HoldingsStore.Database.CreateBinder | crates/pkdump-db/src/binders.rs:72-90 | a binder gets an id no binder has |
| HoldingsStore.Database.DeleteBinder | crates/pkdump-db/src/binders.rs:138-141 | a binder the log or a batch still names cannot be deleted; another one takes its column off the rows that name it |
| HoldingsStore.Database.CreateBatch | crates/pkdump-db/src/batches.rs:66-80 | a batch gets an id no batch has and refers to a live order and binder or to none |
| HoldingsStore.LogsAfterBlanking | crates/pkdump-db/src/decks.rs:159-167 | the two UPDATE statements of a deck deletion blank that deck, and no other column, in the log of every copy |
| HoldingsStore.PinnedByTheLog | crates/pkdump-db/src/schema_user.sql:186-195 | a binder is named by the log table exactly when some copy's own log names it |
| HoldingsInvariant.StepKeepsInv | crates/pkdump-db/src/collection.rs:117-163 | each of eighteen operations, succeeding or refused, keeps binder/deck exclusivity, every reference of rows, logs, decks and batches live, status histories whole, group names unique and ids fresh |
| HoldingsInvariant.RunKeepsInv | crates/pkdump-db/src/schema_user.sql:143-171 | the same over every run of operations |
| HoldingsInvariant.ForgettingDecksKeepsInv | crates/pkdump-db/src/decks.rs:158-169 | blanking decks in log and rows alike leaves no dangling reference |
| HoldingsInvariant.ReleaseKeepsInv | crates/pkdump-db/src/deck_groups.rs:158-178 | a release keeps the invariant |
| HoldingsInvariant.DeleteBinderKeepsInv | crates/pkdump-db/src/binders.rs:138-141 | deleting a binder that nothing pins leaves no reference to it |
| HoldingsAudit.LogIsTheTrail | crates/pkdump-db/src/collection.rs:449-484 | from a new collection, over every run, each copy's log is the record of the places the operations were asked to put it in: a chain, entry after entry, ending where the copy is |
| HoldingsAudit.RunAgrees | crates/pkdump-db/src/deck_groups.rs:158-196 | invariant and log stay in step with a trail tracked from the operations alone over every run, group releases, group deletes, deck deletes and binder deletes included |
| HoldingsAudit.ReleaseIsHonest | crates/pkdump-db/src/deck_groups.rs:163-171 | the release entry with its empty binder column is a true record exactly when the row was not in a binder as well |
| HoldingsAudit.ForgettingBothKeepsRecords | crates/pkdump-db/src/decks.rs:150-169 | forgetting decks in the log and on the row alike keeps the log the record of the trail |
| HoldingsAudit.ForgettingOnlyInTheLog | crates/pkdump-db/src/decks.rs:158-168 | a deck deletion that stops between blanking the log and deleting the row breaks the chain of exactly the logged copies still in that deck |
| HoldingsCrashes.DeathAfterOneUpdate | crates/pkdump-db/src/decks.rs:158-162 | one that stops after its first UPDATE breaks the chain of exactly the copies logged leaving the deck by other than their first entry |
| HoldingsCrashes.DeathAfterTwoUpdates | crates/pkdump-db/src/decks.rs:158-168 | one that stops after its second breaks the chain of exactly the logged copies still in the deck |
| HoldingsCrashes.BrokenLogsAreReached | crates/pkdump-db/src/decks.rs:158-168 | a run from a new collection reaches each broken log, and the other stop leaves that log whole |
| HoldingsCrashes.DeathsFade | crates/pkdump-db/src/decks.rs:158-169 | a run in which deck deletions stop part way differs from the same run without them only in the log columns of decks whose deletion is unfinished |
| HoldingsCrashes.TheLogHeals | crates/pkdump-db/src/decks.rs:158-169 | from a new collection, over every such run, each log is a chain once the unfinished decks are left out of it, and a whole chain again when no deletion is unfinished |
| HoldingsCrashes.RetryFinishes | crates/pkdump-db/src/decks.rs:158-169 | a deletion repeated after it stopped is the deletion that did not stop |
| HoldingsCrashes.GroupDeletionIsARun | crates/pkdump-db/src/deck_groups.rs:181-196 | a group deletion with its decks is a release, the deck deletions in any order and the removal of the group, one after another |
| HoldingsMeaning.MovePutsTheCopyThere | crates/pkdump-db/src/collection.rs:471-481 | a move that is not refused sets the two container columns from its arguments, logs exactly that, and changes no other column, copy, log or table |
| HoldingsMeaning.AddWrites | crates/pkdump-db/src/collection.rs:117-163 | each column of a new row is the request's, or the default of an absent field |
| HoldingsMeaning.UpdateMeaning | crates/pkdump-db/src/collection.rs:388-418 | a given field ends with the given value, an absent one with the old |
| HoldingsMeaning.ChangePrintingMeaning | crates/pkdump-db/src/collection.rs:511-545 | a change of printing goes through exactly when the copy's printing and the new one are known and of one card |
| HoldingsMeaning.DeleteLatestMeaning | crates/pkdump-db/src/collection.rs:494-509 | of the copies of a printing the one with the greatest id goes |
| HoldingsMeaning.DeleteDeckMeaning | crates/pkdump-db/src/decks.rs:158-169 | a deck deletion takes the deck off every row and log entry and touches nothing else |
| HoldingsMeaning.ReleaseMeaning | crates/pkdump-db/src/deck_groups.rs:158-178 | exactly the copies in the group's decks leave them, each with its log entry, and the answer is how many |
| HoldingsMeaning.DeleteBinderMeaning | crates/pkdump-db/src/binders.rs:138-141 | a binder that some log entry or batch names stays; another one is taken off the rows |
| HoldingsMeaning.ConditionsRoundTrip | crates/pkdump-db/src/schema_user.sql:143-171 | a text of the CHECK list stands for one condition, and no other text for any |
| HoldingsAudit.AbsentDeckDeletionAgrees | crates/pkdump-db/src/decks.rs:158-169 | deleting a deck that does not exist blanks nothing |
| HoldingsAudit.ReleaseTotals | crates/pkdump-db/src/deck_groups.rs:9-12 | a release answers with the group's card count, which is the sum of its decks' counts; afterwards those are zero and every other deck counts what it did |
| HoldingsAudit.CountsAddUp | crates/pkdump-db/src/decks.rs:8-10 | the copies in a set of decks number as many as the decks' counts together: no copy is counted twice |
| HoldingsAudit.ContainerOpsKeepCopies | crates/pkdump-db/src/deck_groups.rs:158-196 | moves and deck, group, binder and batch operations never add or delete a copy and change nothing on one but its place |
| HoldingsAudit.GroupDeletion | crates/pkdump-db/src/deck_groups.rs:181-196 | what a group delete does to groups, decks and every copy, in both modes |
| Natural.Chunks | crates/pkdump-core/src/natural.rs:11-24 | the loop splits a name into its chunks, growing the last one in place |
| Natural.ChunksAreRuns | crates/pkdump-core/src/natural.rs:11-24 | the chunks are maximal runs, digits and words alternating, and concatenate to the case-folded name |
| Natural.NaturalCmp | crates/pkdump-core/src/natural.rs:27-44 | it answers Less exactly when the first name comes first: at the first run where they differ it ends, or has the smaller number, the earlier text, or a number against a text; Greater the other way round |
| Natural.NaturalMeaning | crates/pkdump-core/src/natural.rs:27-44 | the same of the comparison of the two chunk lists, and names tie exactly when neither comes first |
| Natural.WordsCompareAsText | crates/pkdump-core/src/natural.rs:35 | names without digits compare as their case-folded texts: a proper prefix, or the smaller character at the first difference, comes first |
| Natural.DigitsComeFirst | crates/pkdump-core/src/natural.rs:36-37 | at the beginning of a name, or behind a run of other characters, a digit sorts before anything else |
| Natural.ExtensionsComeLater | crates/pkdump-core/src/natural.rs:27-44 | a name sorts before its own extension by further runs |
| Orders.Compare | crates/pkdump-core/src/natural.rs:29-44 | walking two lists side by side with early return is lexicographic comparison, for any element order |
| Natural.NaturalIsPreordered | crates/pkdump-core/src/natural.rs:27-44 | the order is reflexive, swap-symmetric and transitive |
| Natural.NaturalTies | crates/pkdump-core/src/natural.rs:27-44 | two names tie exactly when their case-folded, zero-stripped chunk lists are equal |
| Natural.DigitsCompareAsNumbers | crates/pkdump-core/src/natural.rs:31-38 | digit runs of any length compare as the numbers they denote |
| Natural.NumberedNames | crates/pkdump-core/src/natural.rs:1-8 | names that agree up to a final number are ordered by that number |
| NameLists.List | crates/pkdump-db/src/decks.rs:117-124 | every row of the table once, each name before the next in that sense, rows whose names tie by id |
| NameLists.ListDecks | crates/pkdump-db/src/decks.rs:117-124 | the same of the decks of a collection |
| NameLists.ListGroups | crates/pkdump-db/src/deck_groups.rs:113-121 | and of its groups |
| NameLists.ListedDecksAreTheGroups | crates/pkdump-db/src/deck_groups.rs:123-130 | the decks listed for a group are the decks its operations act on, each once |
| NameLists.ListIsTheArrangement | crates/pkdump-db/src/decks.rs:117-124 | the stable natural-name sort of the rows in id order is the only arrangement of the table ordered by natural name and then id |
| NameLists.DecksOf | crates/pkdump-db/src/deck_groups.rs:123-130 | the decks of a group, each once, in the order of their names and then ids, filtered out of the sorted list and sorted again |
| NameLists.SecondSortMovesNothing | crates/pkdump-db/src/deck_groups.rs:123-130 | that second sort moves nothing |
| NameLists.DecksOfIsTheArrangement | crates/pkdump-db/src/deck_groups.rs:113-130 | the decks of a group are exactly the subsequence of the deck list in that group, ordered by natural name and id |
| StableSort.StableSortIsUnique | crates/pkdump-db/src/decks.rs:121-122 | a list is the stable sort of another exactly when it is sorted and keeps every class of ties in order |
| StableSort.FilterCommutesWithSort | crates/pkdump-db/src/binder.rs:417-437 | filtering a stably sorted list is stably sorting the filtered list |
| BinderPages.GroupPrintings | crates/pkdump-db/src/binder.rs:320-365 | the map gives every card exactly its own printing rows, in order |
| BinderPages.BuildVisible | crates/pkdump-db/src/binder.rs:369-397 | the visible slots, card by card |
| BinderPages.VisibleSlots | crates/pkdump-db/src/binder.rs:369-397 | one slot for each card of an included section, in card order, each with its own printings |
| BinderPages.GetBinderPage | crates/pkdump-db/src/binder.rs:275-476 | the pipeline in its order: progress from the unfiltered slots, then sort in place, retain, clamp and cut; an unknown set has no page |
| BinderViews.SlotsShowTheCards | crates/pkdump-db/src/binder.rs:369-397 | one slot for each card whose box is ticked, in card order, with that card's fields, section, own printing rows and price |
| BinderViews.ShownMeaning | crates/pkdump-db/src/binder.rs:434-447 | a slot is shown exactly when its name contains the trimmed search text, letter case aside, and its printings are what the tab asks for |
| BinderViews.SortedByPrice | crates/pkdump-db/src/binder.rs:427-428 | over all pages prices never rise under "price" and never fall under "price_asc", a missing one counting as nothing; ties stay in card order |
| BinderViews.SortedByName | crates/pkdump-db/src/binder.rs:417-426 | over all pages the lower-cased names are in text order, or in the reverse of it; ties stay in card order |
| BinderViews.SortedByRarity | crates/pkdump-db/src/binder.rs:429-430 | over all pages ranks never rise, or never fall; ties stay in card order |
| BinderViews.SortedByNumber | crates/pkdump-db/src/binder.rs:415-431 | "number_desc" is the passing slots from the last to the first, an unknown sort leaves card order |
| BinderViews.RankIsTheTier | crates/pkdump-db/src/binder.rs:228-249 | a known rarity ranks by its tier, whatever its letter case |
| BinderViews.PageAnswered | crates/pkdump-db/src/binder.rs:450-453 | a page is as long as asked for, between 1 and 60, and one past either end is answered with that end |
| BinderViews.PagesNeeded | crates/pkdump-db/src/binder.rs:451-452 | there are as few pages as hold the view, and at least one |
| BinderViews.PageShare | crates/pkdump-db/src/binder.rs:454-459 | a page's slots are its share of the view |
| BinderViews.PageTotals | crates/pkdump-db/src/binder.rs:399-411 | the four totals count the base slots, those with an owned printing, all printings, and the owned ones |
| BinderPages.PagesAreTheView | crates/pkdump-db/src/binder.rs:446-459 | pages 1 to total_pages one after another are the sorted, filtered view, no slot lost or repeated |
| BinderPages.AskingForEveryPage | crates/pkdump-db/src/binder.rs:446-459 | so are the slots of the answers to pages 1 to total_pages |
| BinderPages.PagesAreNonempty | crates/pkdump-db/src/binder.rs:446-459 | no page is empty unless the view is |
| BinderPages.PageAnswers | crates/pkdump-db/src/binder.rs:450-459 | an existing page is answered as asked, with totals that do not depend on the page |
| BinderPages.FilteringCommutes | crates/pkdump-db/src/binder.rs:415-444 | for every sort mode, filtering after the sort equals sorting the filtered slots |
| BinderPages.TabsSplitTheView | crates/pkdump-db/src/binder.rs:431-444 | under one search, "have" and "need" split "all" |
| BinderPages.ProgressIsHonest | crates/pkdump-db/src/binder.rs:399-411 | owned never exceeds total, for the base set and the master set, and equals it exactly when every base slot has an owned printing, or every printing of every slot is owned |
| BinderPages.ProgressIgnoresTheView | crates/pkdump-db/src/binder.rs:399-411 | two queries that include the same sections get the same totals, whatever they search, sort, filter or page through |
| BinderPages.DisplayPriceIsTheBest | crates/pkdump-db/src/binder.rs:255-268 | a slot shows the greatest price of an owned printing if there is one, else the least market price |
| BinderViews.TilePriceMeaning | crates/pkdump-db/src/binder.rs:255-268 | that price is one of those, and there is none exactly when there is neither |
| Csv.ToCsvRoundTrip | scripts/pkmngg_export.user.js:869-883 | reading the output back by section 2 of RFC 4180 (a lone LF also ends a line) gives the header and exactly the rows' cells, whatever they hold |
| Csv.ToCsvTellsRowsApart | scripts/pkmngg_export.user.js:874-883 | two lists of rows print the same text exactly when their cells agree |
| Csv.RoundTrip | scripts/pkmngg_export.user.js:874-878 | any records with at least one field read back exactly, commas, quotes, CR and LF included |
| Csv.RowsAddLines | scripts/pkmngg_export.user.js:880-883 | the text is the line of the column names and a line for each row, cells joined by commas, each line ended by a line feed |
| BracketScanner.FindCloser | scripts/pkmngg_export.user.js:362-371 | the inner loop stops at the first place the opener's own depth returns to zero outside strings and escapes, or reaches the end exactly when there is none |
| BracketScanner.ExtractJsonBlobs | scripts/pkmngg_export.user.js:357-385 | the slices taken are disjoint, left to right, each from an opener to its closer, and every closable opener outside an earlier slice is taken; the blobs are those longer than 32 characters that parse |
| BracketScanner.ExtractionIsUnique | scripts/pkmngg_export.user.js:357-385 | so what is extracted from a text is determined |
| BracketScanner.ScanIsUnique | scripts/pkmngg_export.user.js:357-385 | no other list of slices has those properties |
| BracketScanner.ClosesOnce | scripts/pkmngg_export.user.js:362-371 | an opener has at most one closer |
| BracketScanner.SliceEnds | scripts/pkmngg_export.user.js:366-371 | a taken slice ends with its opener's own closing bracket, outside strings and unescaped |
| BracketValues.WrittenValuesClose | scripts/pkmngg_export.user.js:362-371 | a value of nested brackets, quoted strings and escapes closes exactly where it ends, wherever it stands |
| BracketValues.WrittenValuesAreExtracted | scripts/pkmngg_export.user.js:357-385 | from values with other text between them exactly those longer than 32 characters that parse are extracted, in order, whatever their strings hold |
| Reconcile.Tally | scripts/pkmngg_export.user.js:607-628 | the loop keeps, for each id, a seen row with its largest quantity and, for each card and response, the sum of the id-less quantities |
| Reconcile.Reconcile | scripts/pkmngg_export.user.js:607-650 | one row for each id, the first seen with its largest quantity, and one for each card, the last seen with the card's quantity, in the order first seen; then sorted by the text order of their sets, then number, then variant, ties left as they stood |
| Reconcile.CardQuantityMeaning | scripts/pkmngg_export.user.js:623-638 | a card's quantity is the largest, over the responses, of the sum of its id-less quantities there |
| Reconcile.IdlessMeaning | scripts/pkmngg_export.user.js:622 | the count is of the candidates with no id or an empty one |
| Reconcile.RowOrderIsPreordered | scripts/pkmngg_export.user.js:639-642 | the display order is a total preorder whenever the host's collations are |
| Reconcile.MaxValue | scripts/pkmngg_export.user.js:633 | the largest of the per-response totals |
| Reconcile.QuantitiesIgnoreOrder | scripts/pkmngg_export.user.js:596-606 | every quantity depends only on the multiset of candidates |
| Reconcile.RepeatedIdAddsNothing | scripts/pkmngg_export.user.js:613-620 | an entry seen again with no larger quantity changes no quantity |
| Reconcile.CardQuantityIsBounded | scripts/pkmngg_export.user.js:600-606 | a card's quantity is at least each of its candidates and at most their sum |
| Reconcile.OneUrlKeepsItsSum | scripts/pkmngg_export.user.js:601-603 | id-less entries that all came from one response keep their sum |
| Reconcile.TwoUrlsTakeTheLarger | scripts/pkmngg_export.user.js:603-606 | two responses that list the same card count once, the larger total winning |
| Reconcile.MergedExactlyWithABar | scripts/pkmngg_export.user.js:593-595 | no different row has a row's card key exactly when none of its six fields holds a bar |
| Reconcile.KeysTellCardsApart | scripts/pkmngg_export.user.js:593-595 | two rows with a bar in their notes at most have one key exactly when they are equal in all six fields |
| Reconcile.ABarMergesCards | scripts/pkmngg_export.user.js:593-595 | for instance: two different cards whose fields differ in where a bar stands share a key |
| Fingerprint.Decimal | crates/pkdump-db/src/convergence.rs:160-166 | a length is printed as a nonempty run of digits that denotes it |
| Fingerprint.Stream | crates/pkdump-db/src/convergence.rs:146-171 | the updates of the hash, one after another, are the length-prefixed stream |
| Fingerprint.StreamsAreUnique | crates/pkdump-db/src/convergence.rs:140-171 | two builds feed the hash the same bytes exactly when version, columns and inputs agree, whatever bytes the inputs hold |
| Fingerprint.WriteTellsRecordsApart | crates/pkdump-db/src/convergence.rs:142-145 | length-prefixed records can be read back one way only |
| Fingerprint.PlainNamesAreHeaderFree | crates/pkdump-db/src/convergence.rs:85-112 | a name without a colon cannot be mistaken for a shorter name with a length |
| Fingerprint.InputsAddToTheStream | crates/pkdump-db/src/convergence.rs:166-169 | each input adds its line and its bytes to the stream |
| Fingerprint.ColumnsAddToTheStream | crates/pkdump-db/src/convergence.rs:162-165 | and so does each added column |
| Fingerprint.DottedTablesCollide | crates/pkdump-db/src/convergence.rs:162-165 | with a dot in a table name two different column lists give one stream |
| Fingerprint.HeaderLikePathsCollide | crates/pkdump-db/src/convergence.rs:166-169 | with a path that looks like a header two different inputs give one stream |
| Seeds.Reconcile | crates/pkdump-db/src/catalog_prices.rs:52-69 | the loop of an upserting reconcile: afterwards each key says what its last row with a live target says, the others what they said, and the rows written are counted |
| Seeds.WrittenMeaning | crates/pkdump-db/src/catalog_prices.rs:55-69 | the count is of the seed rows whose target is there |
| Seeds.SaysMeaning | crates/pkdump-db/src/catalog_prices.rs:45-69 | what a seed says of a key is its last row for it whose target is there |
| Seeds.UpsertMeaning | crates/pkdump-db/src/catalog_prices.rs:45-69 | after it a key holds the seed's last live row for it, or else what it held |
| Seeds.SeedingIsConfluent | crates/pkdump-db/src/connection.rs:209-244 | however an ingest that only adds targets is split, wherever reconciles run and whatever is done by hand to seeded rows, a final reconcile gives the table of one reconcile at the end |
| Seeds.ReseedIsIdempotent | crates/pkdump-db/src/catalog_prices.rs:118-135 | a further reconcile changes nothing |
| Seeds.EditsAreOvertaken | crates/pkdump-db/src/catalog_prices.rs:137-158 | two tables come out the same exactly when they differ only in keys the seed speaks for |
| Seeds.KeysStayLive | crates/pkdump-db/src/catalog_prices.rs:47-51 | a reconcile never leaves an override whose printing is absent |
| Seeds.WriteAgain | crates/pkdump-db/src/search_meta.rs:84-131 | the inserts after a clear go through exactly when no key repeats, and then the table holds the rows and nothing else |
| Seeds.RewriteMeaning | crates/pkdump-db/src/sub_type_map.rs:99-119 | a rewrite succeeds exactly when no key repeats, and then the table is the seed and nothing else |
| Convergence.RunDoes | crates/pkdump-db/src/connection.rs:124-158 | a convergence that went through left every one of its transactions with nothing to do |
| Convergence.DoneStaysDone | crates/pkdump-db/src/connection.rs:124-158 | no transaction of a convergence undoes another |
| Convergence.AppliedIsDone | crates/pkdump-db/src/connection.rs:127-128 | each transaction is idempotent |
| Convergence.SettledOpensIdle | crates/pkdump-db/src/convergence.rs:40-46 | an open of a settled file changes nothing |
| Convergence.OpenOutcome | crates/pkdump-db/src/connection.rs:98-158 | an open that returned left the file settled and marked; one that did not left the fingerprint as it was |
| CatalogContents.OpenContents | crates/pkdump-db/src/connection.rs:98-158 | after an open that returned the four rewritten tables hold exactly their own seed's rows, bundles, aliases and prices what their own seed says under their own targets and else what they held, the variants the seed's or a synthesized row for exactly the seed's, the file's and the printings' codes; objects, columns and the two marks are the build's, sets and printings untouched |
| CatalogContents.OpenReturns | crates/pkdump-db/src/connection.rs:98-158 | an open returns exactly when the file is not newer, it lives through every transaction, no key of a rewritten table repeats and every sub-type names a variant there will be |
| CatalogContents.ServingMeaning | crates/pkdump-db/src/connection.rs:186-199 | a server leaves a readable file with both marks alone and opens any other |
| CatalogContents.TakeMeaning | crates/pkdump-db/src/variants.rs:97-111 | an ingested set or printing is added, and a new variant code gets a synthesized row |
| CatalogContents.BuildContents | crates/pkdump-db/src/connection.rs:202-244 | after a whole build aliases and prices are as one seeding under all sets and printings leaves them, those of the ingest included |
| Convergence.CloseSettles | crates/pkdump-db/src/connection.rs:202-244 | after an ingest the two closing seeds settle the file again |
| Convergence.TakeKeepsDone | crates/pkdump-db/src/variants.rs:94-111 | an ingest undoes no seed but the two that wait for its rows |
| MixedBuilds.OneTable | crates/pkdump-db/src/connection.rs:124-158 | where one build has finished with a table, another build's transaction leaves it finished exactly when their seeds agree there |
| MixedBuilds.TheirWorkUndoes | crates/pkdump-db/src/connection.rs:124-158 | after any of another build's transactions a settled file is still settled exactly when the two agree on each of them |
| MixedBuilds.OpenReaches | crates/pkdump-db/src/connection.rs:98-158 | which transactions an open gets done, told from the file and the seeds: up to its death or its first rewrite that breaks a key |
| MixedBuilds.EarlyDeathsAreInvisible | crates/pkdump-db/src/connection.rs:144-157 | this build's marks outlive another's open exactly when that stopped before its stamp, or stamped the same version and stopped before its record |
| MixedBuilds.TheNextOpenIsIdle | crates/pkdump-db/src/connection.rs:124-158 | after it this build's next open would change nothing exactly when the two agree on every transaction it reached, or it stamped a newer version |
| MixedBuilds.AnotherBuildsDeathIsBelieved | crates/pkdump-db/src/connection.rs:144-199 | this build's servers skip a convergence that would change the file exactly when both marks outlived the other open and it reached something the two disagree on |
| CatalogRuns.ReadOnlyServesAreHonest | crates/pkdump-db/src/connection.rs:98-199 | over any run of opens, server starts and builds, of this build and others, each stopping anywhere, of which those with its hash may differ from it in the code that synthesizes variants: whenever a server would take the read-only path a convergence would change nothing, wherever it died, exactly when every event of the run is harmless |
| CatalogRuns.RunIsHonestExactly | crates/pkdump-db/src/convergence.rs:176-215 | the same from any file whose fingerprint can be trusted, which it can again after every harmless run |
| CatalogRuns.HarmlessExactly | crates/pkdump-db/src/convergence.rs:176-215 | event by event: a harmless one leaves a trusted file trusted, and one that is not makes the read-only path wrong at once |
| CatalogRuns.OwnEvents | crates/pkdump-db/src/connection.rs:98-244 | of a build's own events only an abandoned build is harmful, and that exactly when a row of its seeds was waiting for what the ingest brought |
| CatalogRuns.TwinSettled | crates/pkdump-db/src/variants.rs:58-95 | of two builds with one hash, what one has finished with the other has too exactly when both give the file's variants the same rows |
| CatalogRuns.RebuiltRuns | crates/pkdump-db/src/convergence.rs:140-171 | two builds with one hash and different synthesizing code: a build of a new catalog by one misleads the other's next server exactly when they disagree on the variant it brought, with no death and nothing abandoned |
| CatalogRuns.TheRebuiltRun | crates/pkdump-db/src/variants.rs:157-189 | such a run |
| Releases.OneHashOneSource | crates/pkdump-db/src/convergence.rs:140-171 | builds have one hash exactly when they are built from one source, and then they differ in their code at most |
| Releases.ReleasedServesAreHonest | crates/pkdump-db/src/convergence.rs:140-215 | so the theorem on runs holds of builds whose hash is taken of their own stream, whatever code each was compiled with |
| CatalogRuns.TheTwoBuildRun | crates/pkdump-db/src/connection.rs:186-199 | from a new file one build converges and another of the same version dies in its open: the first build's next server is misled exactly when that was after the bundles and before the record |
| CatalogRuns.UnclosedBuildsAreBelieved | crates/pkdump-cli/src/setup.rs:184-198 | a build abandoned after its ingest, or between its closing seeds, keeps the marks, and a convergence would change nothing exactly when no row still to be closed was waiting for what the ingest brought |
| CatalogRuns.OpensKeepWaiting | crates/pkdump-db/src/connection.rs:209-225 | what waits for an ingest is the same before and after the open that precedes it |
| CatalogRuns.TheUnclosedRun | crates/pkdump-db/src/connection.rs:209-225 | such a run, from a new file: the ingest adds the set an alias was waiting for |
| CatalogStore.Catalog.ReconcileVariants | crates/pkdump-db/src/variants.rs:58-95 | seed rows as the seed has them, a synthesized row for every other code in the table or on a printing; it counts the seed rows and those codes |
| CatalogStore.Catalog.ReconcileSubTypes | crates/pkdump-db/src/sub_type_map.rs:99-119 | the map is cleared and holds exactly the seed's pairs, or is left as it was when a pair repeats or a variant is unknown |
| CatalogStore.Catalog.ReconcileBundles | crates/pkdump-db/src/bundles.rs:49-66 | bundles are upserted by slug and counted |
| CatalogStore.Catalog.ReconcileAliases | crates/pkdump-db/src/set_aliases.rs:33-49 | aliases whose set exists are upserted and counted |
| CatalogStore.Catalog.ReconcilePrices | crates/pkdump-db/src/catalog_prices.rs:52-79 | overrides whose printing exists are upserted and counted, and those printings and the ones that had an override have one |
| CatalogStore.Catalog.ReconcileIngestDependentSeeds | crates/pkdump-db/src/connection.rs:239-244 | aliases and then prices, with both counts |
| CatalogStore.Catalog.ReconcileSearch | crates/pkdump-db/src/search_meta.rs:84-131 | each of the three search tables holds exactly its own seed's rows, or all are left as they were |
| CatalogStore.Catalog.ApplySchema | crates/pkdump-db/src/connection.rs:125 | missing schema objects are created |
| CatalogStore.Catalog.AddMissingColumns | crates/pkdump-db/src/connection.rs:368-388 | missing columns are added |
| CatalogStore.Catalog.Converge | crates/pkdump-db/src/connection.rs:124-158 | the methods in order are exactly the planned run of transactions, stopping at the first that fails; one that goes through leaves every table as its own seed has it |
| CatalogStore.Catalog.OpenShared | crates/pkdump-db/src/connection.rs:98-115 | a newer file is refused before anything is written; any other is converged, and when that goes through every table is as its own seed has it |
| CatalogStore.Catalog.OpenForServing | crates/pkdump-db/src/connection.rs:186-199 | a readable file with both marks is left alone, any other is opened read-write |
| CardText.StripTrailingDescriptors | crates/pkdump-db/src/import.rs:196-211 | the loop strips trailing groups until the name ends in none |
| CardText.DescriptorsAreDropped | crates/pkdump-db/src/import.rs:188-195 | a bracketed descriptor added to the end of a name is gone again |
| CardText.NumbersNormalizeByValue | crates/pkdump-core/src/import/mod.rs:130-149 | two runs of digits normalize alike exactly when they denote one number |
| CardText.NormalizeIsIdempotent | crates/pkdump-core/src/import/mod.rs:130-149 | normalizing a normalized number changes nothing |
| ImportResolver.Resolve | crates/pkdump-db/src/import.rs:338-480 | the loop with its set cache answers as resolving each row afresh would |
| ImportResolver.ResolveAppends | crates/pkdump-db/src/import.rs:338-480 | resolving two files one after the other concatenates both lists of the report |
| ImportResolver.EveryRowIsInOneList | crates/pkdump-db/src/import.rs:338-480 | every row is in exactly one list, in file order, and none is lost |
| ImportResolver.TheResolverNeverGuesses | crates/pkdump-db/src/import.rs:196-447 | a card is settled on exactly when it has the exact number, or is the only one of its set with the number core, or the only one of those with the name, or, none sharing the core, the only one in the catalog with number and name |
| ImportOrder.SetLookupFollowsTableOrder | crates/pkdump-db/src/import.rs:142-186 | a hint resolves alike in every order of the sets exactly when the sets that pass the deciding lookup have one code between them |
| ImportOrder.CardLookupFollowsTableOrder | crates/pkdump-db/src/import.rs:371-447 | the card found is the same in every order of the cards exactly when the set has at most one card with the number |
| ImportOrder.PrintingLookupFollowsTableOrder | crates/pkdump-db/src/import.rs:449-455 | the printing found is the same in every order of the printings exactly when the card has at most one live printing of the variant, in whatever language |
| ImportOrder.AnswersOverAllOrders | crates/pkdump-db/src/import.rs:338-480 | the matches a row gets over all orders of the three tables are exactly those the three lookups may add up to |
| ImportOrder.GuessesExactlyWhenChoicesDiffer | crates/pkdump-db/src/import.rs:338-480 | so a row is guessed at exactly when two choices of set, card and printing add up to different matches |
| ImportOrder.ClearRowsAreNotGuessed | crates/pkdump-db/src/import.rs:338-480 | in particular not when set, card and printing are each the only one |
| ImportOrder.SharedPtcgoCodesAreGuessed | crates/pkdump-db/src/schema_shared.sql:48-84 | two sets on one ptcgo code: a row that names the second set's card is matched to the card and printing of whichever set comes first |
| ImportOrder.SharedVariantsAreGuessed | crates/pkdump-db/src/schema_shared.sql:144-154 | two languages of one variant: whatever language the row names, it is matched to the printing that comes first |
| ImportOrder.SharedNumbersMayBeHarmless | crates/pkdump-db/src/import.rs:449-463 | several candidates need not mean a guess: without a printing of the variant the row is unmatched in every order |
| ImportResolver.ExactLookupFollowsTableOrder | crates/pkdump-db/src/import.rs:371-377 | the exact lookup's answer survives every order of the table exactly when no other card of the set has the number |
| ImportResolver.SharedNumbersAreGuessed | crates/pkdump-db/src/schema_shared.sql:110-113 | with two cards of one set on one number, a row that names the second is matched to the card and printing of whichever the table has first |
| ImportResolver.ScopedMeaning | crates/pkdump-db/src/import.rs:281-334 | the search within a set answers exactly the only card with the core, or the only one of those with the name, and nothing exactly when no card shares the core |
| ImportResolver.ResolvedSetsExist | crates/pkdump-db/src/import.rs:142-186 | a hint resolves only to a set the catalog has |
| ImportResolver.SetLookupsInOrder | crates/pkdump-db/src/import.rs:142-186 | a set code beats a ptcgo code, that a set name, and aliases are asked only when no set answers |
| ImportResolver.SetHintsIgnoreCase | crates/pkdump-db/src/import.rs:142-186 | letter case in a hint or set name makes no difference |
| ImportResolver.MatchedRowsNamePrintings | crates/pkdump-db/src/import.rs:449-463 | a matched row names a printing of the card found, of its variant and not deprecated |
| ImportMeaning.MatchedRowsFit | crates/pkdump-db/src/import.rs:371-476 | a matched row names a live printing, of its variant, of a card with its number in its set, or that number but for prefix and zeros, or its number and name; and carries its own condition, language, price, date and tags |
| ImportMeaning.PlainRowsAreMatched | crates/pkdump-db/src/import.rs:371-476 | a row whose hint is a set code with one card on its number and one live printing of its variant is matched to that |
| ImportMeaning.PrefixedNumbersShareACore | crates/pkdump-db/src/import.rs:240-255 | a number with its set's code in front, with or without white space, has the core of the number without |
| ImportMeaning.DescriptorsAreNotWanted | crates/pkdump-db/src/import.rs:188-211 | a trailing descriptor makes no difference to the name looked for |
| ImportMeaning.DescribedRowsFindTheSameCard | crates/pkdump-db/src/import.rs:221-334 | nor to the card found |
| ImportMeaning.ResolvedSetsAreNamed | crates/pkdump-db/src/import.rs:142-186 | a hint resolves to a set that it or the row's set name names, or, none being named, to what an alias says |
| ImportMeaning.RefusedRows | crates/pkdump-db/src/import.rs:371-463 | a refused row is told the truth: what was looked for and which candidates there were |
| ImportCommit.CountOwned | crates/pkdump-db/src/import.rs:490-500 | copies with status owned, counted by printing |
| ImportCommit.AnnotateOwned | crates/pkdump-db/src/import.rs:486-504 | each matched row gets the count of owned copies of its printing |
| ImportCommit.CommitReport | crates/pkdump-db/src/import.rs:637-686 | a batch, then an add and perhaps a tag edit for each matched row, stopping at the first failure |
| ImportCommit.PreviewImport | crates/pkdump-db/src/import.rs:567-572 | a preview resolves and annotates and writes nothing |
| ImportCommit.CommitImport | crates/pkdump-db/src/import.rs:576-591 | a commit resolves again and adds every matched row |
| ImportCommit.CommitSelection | crates/pkdump-db/src/import.rs:600-635 | a selected commit adds the matched rows of the selected lines |
| ImportLaws.PreviewCommitPreview | crates/pkdump-db/src/import.rs:486-591 | after a commit the next preview matches the same rows, each counting as many more owned copies as there are matched rows with its printing |
| ImportLaws.PreviewMeaning | crates/pkdump-db/src/import.rs:486-504 | a preview shows each row as resolved, with how many copies of its printing have status owned |
| ImportLaws.ImportedCopies | crates/pkdump-db/src/import.rs:637-686 | row i of a commit is copy i of the batch, column by column the row's, owned and nowhere, its histories those of a copy just added |
| ImportLaws.SelectionMeaning | crates/pkdump-db/src/import.rs:532-543 | a selected commit is a commit of the matched rows on the selected lines, in order |
| ImportLaws.EveryRowIsAccountedFor | crates/pkdump-db/src/import.rs:637-686 | added and skipped together are the parsed rows |
| ImportLaws.SelectedCommitsSkipNothing | crates/pkdump-db/src/import.rs:532-543 | a selected commit reports nothing as skipped |
| ImportLaws.DisjointSelectionsAddUp | crates/pkdump-db/src/import.rs:532-635 | committing two selections that share no line adds the same copies as committing both at once, up to their batch |
| ImportLaws.CommitMeaning | crates/pkdump-db/src/import.rs:637-686 | a commit goes through exactly when the database takes every matched row |
| ImportLaws.CommitAdds | crates/pkdump-db/src/import.rs:651-680 | it adds one copy for each matched row, in order, with that row's fields, and keeps every earlier copy |
| ImportLaws.FailureKeepsTheRowsBefore | crates/pkdump-db/src/import.rs:651-680 | a row that is refused leaves the rows before it in the collection and those after it untried |
| ImportLaws.MatchedRowsAreTaken | crates/pkdump-db/src/import.rs:449-476 | the catalog's own printings with a mapped condition are always taken |
| VariantNames.VariantFromProductName | crates/pkdump-core/src/variant.rs:78-91 | the loop answers with the first treatment named by a parenthetical, left to right |
| VariantNames.PiecesAssemble | crates/pkdump-core/src/variant.rs:80-89 | every text is its parentheticals and the opener-free text between them |
| VariantNames.AssembledPieces | crates/pkdump-core/src/variant.rs:80-89 | and that decomposition is the only one |
| VariantNames.FirstTreatmentMeaning | crates/pkdump-core/src/variant.rs:66-78 | the answer is the treatment of the first parenthetical that names one, if any does |
| VariantNames.OutsideTextDoesNotMatter | crates/pkdump-core/src/variant.rs:66-91 | text outside the parentheticals can be replaced by any text without an opener |
| VariantNames.UnknownTagsAreSkipped | crates/pkdump-core/src/variant.rs:67-70 | a parenthetical that names no treatment can stand anywhere |
| VariantNames.RulesInOrder | crates/pkdump-core/src/variant.rs:93-166 | the first rule that fires decides, and there is no treatment exactly when none does |
| VariantNames.TreatmentsByPhrase | crates/pkdump-core/src/variant.rs:93-166 | a text gets the treatment of the first phrase of the list that it contains, phrase by phrase |
| VariantNames.CosmosComesLast | crates/pkdump-core/src/variant.rs:114-123 | "reverse cosmos" and "pixel" never fall through to the plain cosmos rule |
| LatestPrices.PriceTables.Refresh | crates/pkdump-db/src/latest_prices.rs:29-50 | the table is emptied and refilled with exactly the observations after whose date, as text, their key was not observed again, whatever it held before |
| LatestPrices.OlderMeaning | crates/pkdump-db/src/latest_prices.rs:38-45 | one date is older exactly when it is a proper prefix, or has the smaller character at the first difference |
| LatestPrices.DatesCompareByCalendar | crates/pkdump-db/src/latest_prices.rs:38-45 | ISO dates compare so exactly as they follow in the calendar |
| LatestPrices.NewestDates | crates/pkdump-db/src/latest_prices.rs:38-40 | for every key that was observed, a date it was observed on and not observed after |
| LatestPrices.LookupIsTheScan | crates/pkdump-db/src/latest_prices.rs:3-9 | looking a key up gives what a scan of the whole history gives: an observation after whose date the key was not observed |
| LatestPrices.OneRowPerKey | crates/pkdump-db/src/latest_prices.rs:24-28 | one row for each key of the history |
| LatestPrices.AppendedPricesReplaceTheirKeys | crates/pkdump-db/src/latest_prices.rs:29-50 | refreshing after an append of newer observations replaces the rows of those keys and leaves the others |

## Left out

- SQLite itself: a table is a map or a sequence, a transaction one step, and a query without an ORDER BY walks
  its table in the order of the sequence.
- Timestamps and the clock: log rows carry no date, and an absent `acquired_at` stays absent.
- HoldingsStore.Database.DeleteDeck: the method runs the two UPDATEs and the DELETE to their end; a death between them
  is an event of the runs in `HoldingsCrashes`, not of the class.
- HoldingsStore.Database.DeleteGroup: the code releases, deletes the decks and deletes the group one after another; a
  death between those is the shorter run of a release and some deck deletions (`GroupDeletionIsARun`).
- HoldingsStore.Database.DeleteDecks: each deck deletion runs to its end, as in `DeleteDeck`.
- HoldingsStore.Database.UpdateDeck: descriptions, formats, owners, colours, locations and notes of decks, groups and
  binders are not modelled; they are stored and never consulted.
- HoldingsStore.Database.CreateDeck: the same columns are not modelled.
- HoldingsStore.Database.CreateBinder: a binder is an id, and its fields are not modelled.
- HoldingsStore.Database.CreateBatch: its name and notes are not modelled.
- Orders: creating one inserts its copies, already `ordered`, and the entries that open their status histories, with
  SQL of its own; neither a container nor the movement log is involved. Sealed products have tables of their own.
- The ownership outbox and its triggers, tenancy, the registry, key custody and backups.
- Prices are integers, so rounding, NaN and `total_cmp` on floats are not modelled.
- BinderPages.GetBinderPage: image links, symbols and external sets on a slot are not modelled, nor is the bundle
  binder, which repeats the same paging.
- ImportResolver.Resolve: the sentences of the refusals are replaced by a datatype that carries the same facts.
- ImportCommit.CommitSelection: parking unmatched rows for later is not modelled.
- ImportCommit.PreviewImport: the rows come parsed; the CSV parsers and the combined Collectr path are left out.
- ImportCommit.CommitImport: the rows come parsed here as well.
- Seeds.Reconcile: an alias is keyed by its case-folded label, and the spelling first stored is not modelled.
- CatalogStore.Catalog.ApplySchema: schema objects are names; creating a table also creating its columns, and the
  schema text itself, are not modelled.
- CatalogRuns.ReadOnlyServesAreHonest: opens run one at a time, without lock waits, and an ingest only adds sets and
  printings.
- Releases.OneHashOneSource: the code that reads the embedded files is one function for all builds; a release that
  reads the same bytes differently is not modelled.
- SHA-256: reasoning stops at the bytes before hashing.
- The userscript's interceptors, pagination walks, field guessing and panel.
- VariantNames.VariantFromProductName: the other product-name parsers beside it, for stamps and card names, are not
  modelled.
