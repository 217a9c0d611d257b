/** The movement log tells the truth: after any run of operations, each copy's log rows are the
    steps of the trail of places it has been put in, and the trail ends where the copy is.

    The trail is kept here from the operations alone, without looking at the log or at where the rows
    say a copy is: a copy's trail begins with the containers its add named, grows by the place a move asked
    for, or by no place when its group is released, and a container that is deleted is forgotten all along
    it. */
module HoldingsAudit {
  import opened Wrappers
  import opened Holdings
  import opened HoldingsInvariant

  type Trail = seq<Place>

  /** The operation puts copy `c` somewhere, as opposed to taking a container away from it. */
  predicate Puts(s: State, op: Op, c: Id) {
    match op
    case OpMoveTo(id, binder, deck, _) =>
      && id == c
      && (binder.None? || deck.None?)
      && (binder.Some? ==> binder.value in s.binders)
      && (deck.Some? ==> deck.value in s.decks)
    case OpReleaseAll(id) => id in s.groups && c in CopiesIn(s, DecksOf(s, id))
    case OpDeleteGroup(id, mode) => id in s.groups && mode.Decks? && c in CopiesIn(s, DecksOf(s, id))
    case _ => false
  }

  function ForgetAlong(trail: Trail, binders: set<Id>, decks: set<Id>): (r: Trail)
    ensures |r| == |trail|
    ensures forall i | 0 <= i < |trail| :: r[i] == trail[i].Forget(binders, decks)
  {
    seq(|trail|, i requires 0 <= i < |trail| => trail[i].Forget(binders, decks))
  }

  /** Where an operation that puts a copy somewhere was asked to put it. */
  function PlaceAsked(op: Op): Place {
    match op
    case OpAdd(copy) => Place(copy.binder, copy.deck)
    case OpMoveTo(_, binder, deck, _) => Place(binder, deck)
    case _ => Place(None, None)
  }

  /** A copy's trail with the place an operation put it in, if it put it anywhere. */
  function Grown(s: State, op: Op, trails: map<Id, Trail>, c: Id): Trail {
    if c !in s.copies || c !in trails then [PlaceAsked(op)]
    else if Puts(s, op, c) then trails[c] + [PlaceAsked(op)]
    else trails[c]
  }

  /** The trails after an operation that turned `s` into `t`. */
  function Track(s: State, op: Op, t: State, trails: map<Id, Trail>): map<Id, Trail> {
    map c | c in t.copies ::
      ForgetAlong(Grown(s, op, trails, c), s.binders - t.binders, s.decks.Keys - t.decks.Keys)
  }

  ghost function Trails(cardOf: map<string, string>, s: State, trails: map<Id, Trail>, ops: seq<Op>)
    : map<Id, Trail>
    decreases |ops|
  {
    if ops == [] then trails
    else
      var t := Step(cardOf, s, ops[0]);
      Trails(cardOf, t, Track(s, ops[0], t, trails), ops[1..])
  }

  /** The log rows are exactly the steps of the trail, and the trail ends at `place`. */
  predicate Records(log: seq<Move>, trail: Trail, place: Place) {
    && |trail| == |log| + 1
    && trail[|log|] == place
    && forall i | 0 <= i < |log| :: log[i].from == trail[i] && log[i].to == trail[i + 1]
  }

  /** What an auditor reads off the log alone: each entry starts where the one before it ended, and
      the last one ends where the copy is. */
  predicate Chain(log: seq<Move>, place: Place) {
    && (forall i | 0 < i < |log| :: log[i].from == log[i - 1].to)
    && (log != [] ==> log[|log| - 1].to == place)
  }

  predicate Agree(s: State, trails: map<Id, Trail>) {
    && trails.Keys == s.copies.Keys
    && forall c | c in s.copies && c in s.moves && c in trails ::
         Records(s.moves[c], trails[c], s.copies[c].place)
  }

  lemma NothingForgotten(trail: Trail)
    ensures ForgetAlong(trail, {}, {}) == trail
  {
    forall p: Place ensures p.Forget({}, {}) == p {}
  }

  /** Forgetting decks in the log and on the rows alike keeps them in step. */
  lemma ForgettingBothKeepsRecords(log: seq<Move>, trail: Trail, place: Place, decks: set<Id>)
    requires Records(log, trail, place)
    ensures Records(ForgetInLog(log, decks), ForgetAlong(trail, {}, decks), place.Forget({}, decks))
  {}

  /** The statements of a deck deletion run one by one. If it stops after blanking the log, before the
      row's own column is cleared, the log of a copy no longer ends where the copy is exactly when the
      copy is in that deck and was ever logged. */
  lemma ForgettingOnlyInTheLog(log: seq<Move>, place: Place, deck: Id)
    requires Chain(log, place)
    ensures Chain(ForgetInLog(log, {deck}), place) <==> place.deck != Some(deck) || log == []
  {
    var blanked := ForgetInLog(log, {deck});
    if log != [] {
      assert blanked[|log| - 1].to == place.Forget({}, {deck});
    }
  }

  /** A binder the log does not name can only be where a copy was first put. */
  lemma ForgettingAnUnnamedBinder(log: seq<Move>, trail: Trail, place: Place, binder: Id)
    requires Records(log, trail, place)
    requires !NamesBinder(log, binder)
    ensures Records(log, ForgetAlong(trail, {binder}, {}), place.Forget({binder}, {}))
  {
    var after := ForgetAlong(trail, {binder}, {});
    forall i | 0 <= i < |log| ensures log[i].from == after[i] && log[i].to == after[i + 1] {
      assert log[i].from.binder != Some(binder) && log[i].to.binder != Some(binder);
    }
  }

  /** The release entry leaves the binder column empty, which is the truth exactly when the row's
      own is: exclusivity is what makes the log of a release honest. */
  lemma ReleaseIsHonest(log: seq<Move>, trail: Trail, row: Copy)
    requires Records(log, trail, row.place) && row.place.deck.Some?
    ensures Records(log + [ReleaseEntry(row)], trail + [row.place.(deck := None)], row.place.(deck := None))
       <==> row.place.Exclusive()
  {
    var longer := log + [ReleaseEntry(row)];
    var after := trail + [row.place.(deck := None)];
    assert longer[|log|] == ReleaseEntry(row) && after[|log|] == row.place;
    assert forall i | 0 <= i < |log| :: longer[i] == log[i];
  }

  // ----- Each operation, first for those that take no container away -----

  lemma AgreesWhenNothingDies(s: State, op: Op, t: State, trails: map<Id, Trail>)
    requires s.binders <= t.binders && s.decks.Keys <= t.decks.Keys
    requires t.moves.Keys == t.copies.Keys
    requires forall c | c in t.copies ::
               Records(t.moves[c], Grown(s, op, trails, c), t.copies[c].place)
    ensures Agree(t, Track(s, op, t, trails))
  {
    assert s.binders - t.binders == {} && s.decks.Keys - t.decks.Keys == {};
    forall c | c in t.copies
      ensures Records(t.moves[c], Track(s, op, t, trails)[c], t.copies[c].place)
    {
      NothingForgotten(Grown(s, op, trails, c));
    }
  }

  /** No copy is put anywhere and no container is taken away. */
  predicate Quiet(s: State, t: State) {
    && t.copies.Keys <= s.copies.Keys && t.moves.Keys == t.copies.Keys
    && s.binders <= t.binders && s.decks.Keys <= t.decks.Keys
    && forall c | c in t.copies && c in s.copies && c in t.moves && c in s.moves ::
         t.copies[c].place == s.copies[c].place && t.moves[c] == s.moves[c]
  }

  lemma QuietStepAgrees(s: State, op: Op, t: State, trails: map<Id, Trail>)
    requires s.moves.Keys == s.copies.Keys && Agree(s, trails) && Quiet(s, t)
    requires forall c | c in t.copies :: !Puts(s, op, c)
    ensures Agree(t, Track(s, op, t, trails))
  {
    AgreesWhenNothingDies(s, op, t, trails);
  }

  lemma PuttingARowIsQuiet(s: State, id: Id, row: Copy, statuses: map<Id, seq<StatusChange>>)
    requires s.moves.Keys == s.copies.Keys
    requires id in s.copies && row.place == s.copies[id].place
    ensures Quiet(s, s.(copies := s.copies[id := row], statuses := statuses))
  {
    assert s.copies[id := row].Keys == s.copies.Keys;
  }

  lemma OtherTablesAreQuiet(s: State, t: State)
    requires s.moves.Keys == s.copies.Keys
    requires t.copies == s.copies && t.moves == s.moves
    requires s.binders <= t.binders && s.decks.Keys <= t.decks.Keys
    ensures Quiet(s, t)
  {}

  lemma UpdateIsQuiet(s: State, id: Id, edit: CopyEdit)
    requires s.moves.Keys == s.copies.Keys
    ensures Quiet(s, Update(s, id, edit).0)
  {
    if Update(s, id, edit) == (s, Ok(true)) || Update(s, id, edit).1 != Ok(true) {
      OtherTablesAreQuiet(s, s);
    } else {
      PuttingARowIsQuiet(s, id, Edited(s.copies[id], edit).value, s.statuses);
    }
  }

  lemma SetStatusIsQuiet(s: State, id: Id, status: string, note: Option<string>)
    requires s.moves.Keys == s.copies.Keys
    ensures Quiet(s, SetStatus(s, id, status, note).0)
  {
    var to := ParseStatus(status);
    if id in s.copies && id in s.statuses && to.Some? {
      PuttingARowIsQuiet(s, id, s.copies[id].(status := to.value), WithStatus(s, id, to.value, note).statuses);
    } else {
      OtherTablesAreQuiet(s, s);
    }
  }

  lemma ChangePrintingIsQuiet(cardOf: map<string, string>, s: State, id: Id, printing: string)
    requires s.moves.Keys == s.copies.Keys
    ensures Quiet(s, ChangePrinting(cardOf, s, id, printing).0)
  {
    if ChangePrinting(cardOf, s, id, printing).1.Ok? {
      PuttingARowIsQuiet(s, id, s.copies[id].(printing := printing), s.statuses);
    } else {
      OtherTablesAreQuiet(s, s);
    }
  }

  lemma DeletionsAreQuiet(s: State, id: Id, printing: string)
    requires s.moves.Keys == s.copies.Keys
    ensures Quiet(s, Delete(s, id).0) && Quiet(s, DeleteLatest(s, printing).0)
  {}

  lemma CreateDeckIsQuiet(s: State, name: string, state: Option<string>, group: Option<Id>)
    requires s.moves.Keys == s.copies.Keys
    ensures Quiet(s, CreateDeck(s, name, state, group).0)
  {
    OtherTablesAreQuiet(s, CreateDeck(s, name, state, group).0);
  }

  lemma DeckChangesAreQuiet(s: State, id: Id, name: Option<string>, state: Option<string>,
                            group: Option<Id>)
    requires s.moves.Keys == s.copies.Keys
    ensures Quiet(s, UpdateDeck(s, id, name, state).0) && Quiet(s, SetGroup(s, id, group).0)
  {
    OtherTablesAreQuiet(s, UpdateDeck(s, id, name, state).0);
    OtherTablesAreQuiet(s, SetGroup(s, id, group).0);
  }

  lemma GroupChangesAreQuiet(s: State, id: Id, name: string, newName: Option<string>)
    requires s.moves.Keys == s.copies.Keys
    ensures Quiet(s, CreateGroup(s, name).0) && Quiet(s, UpdateGroup(s, id, newName).0)
  {
    OtherTablesAreQuiet(s, CreateGroup(s, name).0);
    OtherTablesAreQuiet(s, UpdateGroup(s, id, newName).0);
  }

  lemma UngroupingIsQuiet(s: State, id: Id)
    requires s.moves.Keys == s.copies.Keys
    ensures Quiet(s, DeleteGroup(s, id, Ungroup).0)
  {
    OtherTablesAreQuiet(s, DeleteGroup(s, id, Ungroup).0);
  }

  lemma CreationsAreQuiet(s: State, batch: Batch)
    requires s.moves.Keys == s.copies.Keys
    ensures Quiet(s, s) && Quiet(s, CreateBinder(s).0) && Quiet(s, CreateBatch(s, batch).0)
  {}

  lemma InsertAgrees(s: State, op: Op, row: Copy, trails: map<Id, Trail>)
    requires s.moves.Keys == s.copies.Keys && Agree(s, trails)
    requires op.OpAdd? && s.nextCopy !in s.copies && row.place == Place(op.copy.binder, op.copy.deck)
    ensures Agree(Insert(s, row), Track(s, op, Insert(s, row), trails))
  {
    AgreesWhenNothingDies(s, op, Insert(s, row), trails);
  }

  lemma WithPlaceAgrees(s: State, op: Op, trails: map<Id, Trail>)
    requires s.moves.Keys == s.copies.Keys && Agree(s, trails)
    requires op.OpMoveTo? && MoveRefusal(s, op.id, Place(op.binder, op.deck)).None?
    ensures var t := WithPlace(s, op.id, Place(op.binder, op.deck), op.note);
            Agree(t, Track(s, op, t, trails))
  {
    var t := WithPlace(s, op.id, Place(op.binder, op.deck), op.note);
    forall c | c in t.copies
      ensures Records(t.moves[c], Grown(s, op, trails, c), t.copies[c].place)
    {
      assert Records(s.moves[c], trails[c], s.copies[c].place);
    }
    AgreesWhenNothingDies(s, op, t, trails);
  }

  lemma ReleaseRecordsOne(s: State, trails: map<Id, Trail>, held: set<Id>, c: Id)
    requires c in s.copies && c in s.moves && c in trails
    requires s.copies[c].place.Exclusive() && (c in held ==> s.copies[c].place.deck.Some?)
    requires Records(s.moves[c], trails[c], s.copies[c].place)
    ensures Records(Release(s, held).moves[c], PutLoose(trails, held)[c], Release(s, held).copies[c].place)
  {
    if c in held {
      assert s.copies[c].place.(deck := None) == LOOSE;
      ReleaseIsHonest(s.moves[c], trails[c], s.copies[c]);
    }
  }

  function PutLoose(trails: map<Id, Trail>, held: set<Id>): map<Id, Trail> {
    map c | c in trails :: if c in held then trails[c] + [LOOSE] else trails[c]
  }

  lemma PuttingLooseAgrees(s: State, trails: map<Id, Trail>, held: set<Id>)
    requires s.moves.Keys == s.copies.Keys && Agree(s, trails) && AllExclusive(s)
    requires forall c | c in held :: c in s.copies && s.copies[c].place.deck.Some?
    ensures Agree(Release(s, held), PutLoose(trails, held))
  {
    forall c | c in s.copies
      ensures Records(Release(s, held).moves[c], PutLoose(trails, held)[c], Release(s, held).copies[c].place)
    {
      ReleaseRecordsOne(s, trails, held, c);
    }
  }

  predicate AllExclusive(s: State) {
    forall c | c in s.copies :: s.copies[c].place.Exclusive()
  }

  lemma InvIsExclusive(cardOf: map<string, string>, s: State)
    requires Inv(cardOf, s)
    ensures AllExclusive(s)
  {
    forall c | c in s.copies ensures s.copies[c].place.Exclusive() {
      assert RowFits(s, s.copies[c]);
    }
  }

  lemma ReleaseAgrees(s: State, trails: map<Id, Trail>, op: Op)
    requires s.moves.Keys == s.copies.Keys && Agree(s, trails) && AllExclusive(s)
    requires op.OpReleaseAll? && op.id in s.groups
    ensures var t := Release(s, CopiesIn(s, DecksOf(s, op.id)));
            Agree(t, Track(s, op, t, trails))
  {
    PuttingLooseAgrees(s, trails, CopiesIn(s, DecksOf(s, op.id)));
    TrackOfRelease(s, op, trails);
  }

  function ForgetAll(trails: map<Id, Trail>, binders: set<Id>, decks: set<Id>): map<Id, Trail> {
    map c | c in trails :: ForgetAlong(trails[c], binders, decks)
  }

  lemma ForgettingNothing(trails: map<Id, Trail>)
    ensures ForgetAll(trails, {}, {}) == trails
  {
    forall c | c in trails ensures ForgetAlong(trails[c], {}, {}) == trails[c] {
      NothingForgotten(trails[c]);
    }
  }

  lemma TrackOfPuttingLoose(s: State, op: Op, t: State, trails: map<Id, Trail>, held: set<Id>)
    requires t.copies.Keys == s.copies.Keys == trails.Keys
    requires forall c | c in s.copies :: Puts(s, op, c) <==> c in held
    requires held != {} ==> PlaceAsked(op) == LOOSE
    ensures Track(s, op, t, trails)
         == ForgetAll(PutLoose(trails, held), s.binders - t.binders, s.decks.Keys - t.decks.Keys)
  {
    forall c | c in t.copies ensures Grown(s, op, trails, c) == PutLoose(trails, held)[c] {}
  }

  lemma ReleasedArePut(s: State, op: Op)
    requires (op.OpReleaseAll? || (op.OpDeleteGroup? && op.mode.Decks?)) && op.id in s.groups
    ensures forall c | c in s.copies :: Puts(s, op, c) <==> c in CopiesIn(s, DecksOf(s, op.id))
  {}

  lemma TrackOfRelease(s: State, op: Op, trails: map<Id, Trail>)
    requires trails.Keys == s.copies.Keys && AllExclusive(s)
    requires op.OpReleaseAll? && op.id in s.groups
    ensures var held := CopiesIn(s, DecksOf(s, op.id));
            Track(s, op, Release(s, held), trails) == PutLoose(trails, held)
  {
    var held := CopiesIn(s, DecksOf(s, op.id));
    var t := Release(s, held);
    assert s.binders - t.binders == {} && s.decks.Keys - t.decks.Keys == {};
    ForgettingNothing(PutLoose(trails, held));
    ReleasedArePut(s, op);
    TrackOfPuttingLoose(s, op, t, trails, held);
  }

  // ----- Operations that take a container away -----

  /** A deck that does not exist is named by no row and no log entry, so forgetting it is vacuous. */
  lemma AbsentDeckIsNotNamed(log: seq<Move>, place: Place, binders: set<Id>, decks: set<Id>, dead: Id)
    requires LogOk(binders, decks, log) && PlaceOk(binders, decks, place)
    requires dead !in decks
    ensures ForgetInLog(log, {dead}) == log && place.Forget({}, {dead}) == place
  {
    forall i | 0 <= i < |log| ensures log[i].ForgetDecks({dead}) == log[i] {
      assert PlaceOk(binders, decks, log[i].from) && PlaceOk(binders, decks, log[i].to);
    }
  }

  lemma AbsentDeckDeletionAgrees(cardOf: map<string, string>, s: State, trails: map<Id, Trail>, op: Op)
    requires Inv(cardOf, s) && Agree(s, trails)
    requires op.OpDeleteDeck? && op.id !in s.decks
    ensures var t := ForgetDecks(s, {op.id});
            Agree(t, Track(s, op, t, trails))
  {
    var t := ForgetDecks(s, {op.id});
    forall c | c in t.copies
      ensures Records(t.moves[c], Grown(s, op, trails, c), t.copies[c].place)
    {
      assert RowFits(s, s.copies[c]);
      assert LogOk(s.binders, s.decks.Keys, s.moves[c]);
      AbsentDeckIsNotNamed(s.moves[c], s.copies[c].place, s.binders, s.decks.Keys, op.id);
    }
    AgreesWhenNothingDies(s, op, t, trails);
  }

  lemma ForgettingDecksAgrees(s: State, trails: map<Id, Trail>, decks: set<Id>)
    requires s.moves.Keys == s.copies.Keys && Agree(s, trails)
    ensures Agree(ForgetDecks(s, decks), ForgetAll(trails, {}, decks))
  {
    var t := ForgetDecks(s, decks);
    forall c | c in t.copies
      ensures Records(t.moves[c], ForgetAll(trails, {}, decks)[c], t.copies[c].place)
    {
      ForgettingBothKeepsRecords(s.moves[c], trails[c], s.copies[c].place, decks);
    }
  }

  lemma DeckDeletionAgrees(s: State, trails: map<Id, Trail>, op: Op)
    requires s.moves.Keys == s.copies.Keys && Agree(s, trails)
    requires op.OpDeleteDeck? && op.id in s.decks
    ensures var t := ForgetDecks(s, {op.id});
            Agree(t, Track(s, op, t, trails))
  {
    ForgettingDecksAgrees(s, trails, {op.id});
    TrackOfDeckDeletion(s, op, trails);
  }

  lemma TrackOfDeckDeletion(s: State, op: Op, trails: map<Id, Trail>)
    requires trails.Keys == s.copies.Keys && op.OpDeleteDeck? && op.id in s.decks
    ensures Track(s, op, ForgetDecks(s, {op.id}), trails) == ForgetAll(trails, {}, {op.id})
  {
    var t := ForgetDecks(s, {op.id});
    assert s.binders - t.binders == {} && s.decks.Keys - t.decks.Keys == {op.id};
    assert PutLoose(trails, {}) == trails;
    TrackOfPuttingLoose(s, op, t, trails, {});
  }

  lemma GroupDeletionAgrees(s: State, trails: map<Id, Trail>, op: Op)
    requires s.moves.Keys == s.copies.Keys && Agree(s, trails) && AllExclusive(s)
    requires op.OpDeleteGroup? && op.id in s.groups && op.mode.Decks?
    ensures var t := DeleteGroup(s, op.id, Decks).0;
            Agree(t, Track(s, op, t, trails))
  {
    var decks := DecksOf(s, op.id);
    var held := CopiesIn(s, decks);
    PuttingLooseAgrees(s, trails, held);
    ForgettingDecksAgrees(Release(s, held), PutLoose(trails, held), decks);
    ReleasedArePut(s, op);
    ReleasedAreLoose(s, held, decks);
    DroppingAgrees(s, trails, op, ForgetDecks(Release(s, held), decks), held, decks);
  }

  lemma ReleasedAreLoose(s: State, held: set<Id>, decks: set<Id>)
    requires AllExclusive(s)
    requires forall c | c in held :: c in s.copies && s.copies[c].place.deck.Some?
    ensures var u := ForgetDecks(Release(s, held), decks);
            && u.copies.Keys == s.copies.Keys && u.binders == s.binders
            && u.decks.Keys == s.decks.Keys - decks
            && forall c | c in held && c in u.copies :: u.copies[c].place == LOOSE
  {}

  lemma DroppingAgrees(s: State, trails: map<Id, Trail>, op: Op, u: State, held: set<Id>,
                       decks: set<Id>)
    requires u.copies.Keys == s.copies.Keys == trails.Keys
    requires op.OpDeleteGroup?
    requires forall c | c in s.copies :: Puts(s, op, c) <==> c in held
    requires u.binders == s.binders && u.decks.Keys == s.decks.Keys - decks && decks <= s.decks.Keys
    requires Agree(u, ForgetAll(PutLoose(trails, held), {}, decks))
    ensures var t := DropGroup(u, op.id);
            Agree(t, Track(s, op, t, trails))
  {
    var t := DropGroup(u, op.id);
    assert s.binders - t.binders == {} && s.decks.Keys - t.decks.Keys == decks;
    TrackOfPuttingLoose(s, op, t, trails, held);
  }

  lemma BinderDeletionAgrees(s: State, trails: map<Id, Trail>, op: Op)
    requires s.moves.Keys == s.copies.Keys && Agree(s, trails)
    requires op.OpDeleteBinder? && op.id in s.binders && !BinderPinned(s, op.id)
    ensures var t := DeleteBinder(s, op.id).0;
            Agree(t, Track(s, op, t, trails))
  {
    var t := DeleteBinder(s, op.id).0;
    assert s.decks.Keys - t.decks.Keys == {} && s.binders - t.binders == {op.id};
    forall c | c in t.copies
      ensures Records(t.moves[c], Track(s, op, t, trails)[c], t.copies[c].place)
    {
      ForgettingAnUnnamedBinder(s.moves[c], trails[c], s.copies[c].place, op.id);
    }
  }

  // ----- Putting them together -----

  lemma CopyOpIsQuiet(cardOf: map<string, string>, s: State, op: Op)
    requires s.moves.Keys == s.copies.Keys
    requires op.OpUpdate? || op.OpSetStatus? || op.OpChangePrinting? || op.OpDelete? || op.OpDeleteLatest?
    ensures Quiet(s, Step(cardOf, s, op))
  {
    match op
    case OpUpdate(id, edit) => UpdateIsQuiet(s, id, edit);
    case OpSetStatus(id, status, note) => SetStatusIsQuiet(s, id, status, note);
    case OpChangePrinting(id, printing) => ChangePrintingIsQuiet(cardOf, s, id, printing);
    case OpDelete(id) => DeletionsAreQuiet(s, id, "");
    case OpDeleteLatest(printing) => DeletionsAreQuiet(s, 0, printing);
  }

  lemma DeckOpIsQuiet(cardOf: map<string, string>, s: State, op: Op)
    requires s.moves.Keys == s.copies.Keys
    requires op.OpCreateDeck? || op.OpUpdateDeck? || op.OpSetGroup?
    ensures Quiet(s, Step(cardOf, s, op))
  {
    match op
    case OpCreateDeck(name, state, group) => CreateDeckIsQuiet(s, name, state, group);
    case OpUpdateDeck(id, name, state) => DeckChangesAreQuiet(s, id, name, state, None);
    case OpSetGroup(id, group) => DeckChangesAreQuiet(s, id, None, None, group);
  }

  lemma OtherOpIsQuiet(cardOf: map<string, string>, s: State, op: Op)
    requires s.moves.Keys == s.copies.Keys
    requires op.OpCreateGroup? || op.OpUpdateGroup? || (op.OpDeleteGroup? && op.mode.Ungroup?)
          || op.OpCreateBinder? || op.OpCreateBatch?
    ensures Quiet(s, Step(cardOf, s, op))
  {
    match op
    case OpCreateGroup(name) => GroupChangesAreQuiet(s, 0, name, None);
    case OpUpdateGroup(id, name) => GroupChangesAreQuiet(s, id, "", name);
    case OpDeleteGroup(id, _) => UngroupingIsQuiet(s, id);
    case OpCreateBinder => CreationsAreQuiet(s, Batch("", None, None));
    case OpCreateBatch(batch) => CreationsAreQuiet(s, batch);
  }

  lemma OpIsQuiet(cardOf: map<string, string>, s: State, op: Op)
    requires s.moves.Keys == s.copies.Keys
    requires !op.OpAdd? && !op.OpMoveTo? && !op.OpReleaseAll? && !op.OpDeleteDeck?
    requires !op.OpDeleteBinder? && !(op.OpDeleteGroup? && op.mode.Decks?)
    ensures Quiet(s, Step(cardOf, s, op))
  {
    if op.OpCreateDeck? || op.OpUpdateDeck? || op.OpSetGroup? {
      DeckOpIsQuiet(cardOf, s, op);
    } else if op.OpUpdate? || op.OpSetStatus? || op.OpChangePrinting? || op.OpDelete? || op.OpDeleteLatest? {
      CopyOpIsQuiet(cardOf, s, op);
    } else {
      OtherOpIsQuiet(cardOf, s, op);
    }
  }

  lemma QuietOpAgrees(cardOf: map<string, string>, s: State, trails: map<Id, Trail>, op: Op)
    requires s.moves.Keys == s.copies.Keys && Agree(s, trails)
    requires !op.OpAdd? && !op.OpMoveTo? && !op.OpReleaseAll? && !op.OpDeleteDeck?
    requires !op.OpDeleteBinder? && !(op.OpDeleteGroup? && op.mode.Decks?)
    ensures Agree(Step(cardOf, s, op), Track(s, op, Step(cardOf, s, op), trails))
  {
    OpIsQuiet(cardOf, s, op);
    QuietStepAgrees(s, op, Step(cardOf, s, op), trails);
  }

  lemma AddAgrees(cardOf: map<string, string>, s: State, trails: map<Id, Trail>, op: Op)
    requires s.moves.Keys == s.copies.Keys && Agree(s, trails) && s.nextCopy !in s.copies
    requires op.OpAdd?
    ensures var t := Add(cardOf, s, op.copy).0; Agree(t, Track(s, op, t, trails))
  {
    if Add(cardOf, s, op.copy).1.Ok? {
      InsertAgrees(s, op, NewRow(op.copy).value, trails);
    } else {
      RefusalAgrees(s, trails, op);
    }
  }

  lemma MoveAgrees(s: State, trails: map<Id, Trail>, op: Op)
    requires s.moves.Keys == s.copies.Keys && Agree(s, trails)
    requires op.OpMoveTo?
    ensures var t := MoveTo(s, op.id, op.binder, op.deck, op.note).0; Agree(t, Track(s, op, t, trails))
  {
    if MoveRefusal(s, op.id, Place(op.binder, op.deck)).None? {
      WithPlaceAgrees(s, op, trails);
    } else {
      RefusalAgrees(s, trails, op);
    }
  }

  lemma RefusalAgrees(s: State, trails: map<Id, Trail>, op: Op)
    requires s.moves.Keys == s.copies.Keys && Agree(s, trails)
    requires forall c | c in s.copies :: !Puts(s, op, c)
    ensures Agree(s, Track(s, op, s, trails))
  {
    OtherTablesAreQuiet(s, s);
    QuietStepAgrees(s, op, s, trails);
  }

  lemma ReleaseAllAgrees(cardOf: map<string, string>, s: State, trails: map<Id, Trail>, op: Op)
    requires Inv(cardOf, s) && Agree(s, trails) && op.OpReleaseAll?
    ensures var t := ReleaseAll(s, op.id).0; Agree(t, Track(s, op, t, trails))
  {
    InvIsExclusive(cardOf, s);
    if op.id in s.groups { ReleaseAgrees(s, trails, op); } else { RefusalAgrees(s, trails, op); }
  }

  lemma DeleteDeckAgrees(cardOf: map<string, string>, s: State, trails: map<Id, Trail>, op: Op)
    requires Inv(cardOf, s) && Agree(s, trails) && op.OpDeleteDeck?
    ensures var t := DeleteDeck(s, op.id).0; Agree(t, Track(s, op, t, trails))
  {
    if op.id in s.decks {
      DeckDeletionAgrees(s, trails, op);
    } else {
      AbsentDeckDeletionAgrees(cardOf, s, trails, op);
    }
  }

  lemma DeleteBinderAgrees(s: State, trails: map<Id, Trail>, op: Op)
    requires s.moves.Keys == s.copies.Keys && Agree(s, trails) && op.OpDeleteBinder?
    ensures var t := DeleteBinder(s, op.id).0; Agree(t, Track(s, op, t, trails))
  {
    if op.id in s.binders && !BinderPinned(s, op.id) {
      BinderDeletionAgrees(s, trails, op);
    } else {
      RefusalAgrees(s, trails, op);
    }
  }

  lemma DeleteGroupAgrees(cardOf: map<string, string>, s: State, trails: map<Id, Trail>, op: Op)
    requires Inv(cardOf, s) && Agree(s, trails) && op.OpDeleteGroup? && op.mode.Decks?
    ensures var t := DeleteGroup(s, op.id, Decks).0; Agree(t, Track(s, op, t, trails))
  {
    InvIsExclusive(cardOf, s);
    if op.id in s.groups { GroupDeletionAgrees(s, trails, op); } else { RefusalAgrees(s, trails, op); }
  }

  /** The operations that may take a container away. */
  lemma DeletionStepAgrees(cardOf: map<string, string>, s: State, trails: map<Id, Trail>, op: Op)
    requires Inv(cardOf, s) && Agree(s, trails)
    requires op.OpDeleteDeck? || op.OpDeleteBinder? || (op.OpDeleteGroup? && op.mode.Decks?)
    ensures Agree(Step(cardOf, s, op), Track(s, op, Step(cardOf, s, op), trails))
  {
    if op.OpDeleteDeck? {
      DeleteDeckAgrees(cardOf, s, trails, op);
    } else if op.OpDeleteBinder? {
      DeleteBinderAgrees(s, trails, op);
    } else {
      DeleteGroupAgrees(cardOf, s, trails, op);
    }
  }

  lemma PuttingStepAgrees(cardOf: map<string, string>, s: State, trails: map<Id, Trail>, op: Op)
    requires Inv(cardOf, s) && Agree(s, trails)
    requires op.OpAdd? || op.OpMoveTo? || op.OpReleaseAll?
    ensures Agree(Step(cardOf, s, op), Track(s, op, Step(cardOf, s, op), trails))
  {
    if op.OpAdd? {
      AddAgrees(cardOf, s, trails, op);
    } else if op.OpMoveTo? {
      MoveAgrees(s, trails, op);
    } else {
      ReleaseAllAgrees(cardOf, s, trails, op);
    }
  }

  lemma StepAgrees(cardOf: map<string, string>, s: State, trails: map<Id, Trail>, op: Op)
    requires Inv(cardOf, s) && Agree(s, trails)
    ensures Agree(Step(cardOf, s, op), Track(s, op, Step(cardOf, s, op), trails))
  {
    if op.OpAdd? || op.OpMoveTo? || op.OpReleaseAll? {
      PuttingStepAgrees(cardOf, s, trails, op);
    } else if op.OpDeleteDeck? || op.OpDeleteBinder? || (op.OpDeleteGroup? && op.mode.Decks?) {
      DeletionStepAgrees(cardOf, s, trails, op);
    } else {
      QuietOpAgrees(cardOf, s, trails, op);
    }
  }

  lemma {:induction false} RunAgrees(cardOf: map<string, string>, s: State, trails: map<Id, Trail>,
                                     ops: seq<Op>)
    requires Inv(cardOf, s) && Agree(s, trails)
    ensures Inv(cardOf, Run(cardOf, s, ops))
    ensures Agree(Run(cardOf, s, ops), Trails(cardOf, s, trails, ops))
    decreases |ops|
  {
    if ops != [] {
      var t := Step(cardOf, s, ops[0]);
      StepKeepsInv(cardOf, s, ops[0]);
      StepAgrees(cardOf, s, trails, ops[0]);
      RunAgrees(cardOf, t, Track(s, ops[0], t, trails), ops[1..]);
    }
  }

  /** From a new collection, over every run: the log of each copy is the record of its trail, and
      so a chain ending where the copy is. */
  lemma LogIsTheTrail(cardOf: map<string, string>, orders: set<Id>, ops: seq<Op>, c: Id)
    requires c in Run(cardOf, Fresh(orders), ops).copies
    ensures var s := Run(cardOf, Fresh(orders), ops);
            var trails := Trails(cardOf, Fresh(orders), map[], ops);
            && c in s.moves && c in trails
            && Records(s.moves[c], trails[c], s.copies[c].place)
            && Chain(s.moves[c], s.copies[c].place)
  {
    FreshAgrees(cardOf, orders);
    RunAgrees(cardOf, Fresh(orders), map[], ops);
    AgreedLogs(cardOf, Run(cardOf, Fresh(orders), ops), Trails(cardOf, Fresh(orders), map[], ops), c);
  }

  lemma FreshAgrees(cardOf: map<string, string>, orders: set<Id>)
    ensures Inv(cardOf, Fresh(orders)) && Agree(Fresh(orders), map[])
  {
  }

  lemma AgreedLogs(cardOf: map<string, string>, s: State, trails: map<Id, Trail>, c: Id)
    requires Inv(cardOf, s) && Agree(s, trails) && c in s.copies
    ensures c in s.moves && c in trails
    ensures Records(s.moves[c], trails[c], s.copies[c].place) && Chain(s.moves[c], s.copies[c].place)
  {
  }

  // ----- Totals -----

  ghost function Pick(ids: set<Id>): Id
    requires ids != {}
  {
    var i :| i in ids; i
  }

  /** The sum of the decks' own card counts, `decks.card_count`. */
  ghost function SumOfCounts(s: State, decks: set<Id>): nat {
    if decks == {} then 0
    else
      var d := Pick(decks);
      |CopiesIn(s, {d})| + SumOfCounts(s, decks - {d})
  }

  lemma {:induction false} CountsAddUp(s: State, decks: set<Id>)
    ensures |CopiesIn(s, decks)| == SumOfCounts(s, decks)
  {
    if decks == {} {
      assert CopiesIn(s, decks) == {};
    } else {
      var d := Pick(decks);
      CountsAddUp(s, decks - {d});
      assert CopiesIn(s, decks) == CopiesIn(s, {d}) + CopiesIn(s, decks - {d});
      assert CopiesIn(s, {d}) !! CopiesIn(s, decks - {d});
    }
  }

  /** Releasing a group answers with its card count, the sum of its decks' counts, and afterwards
      the group and each of its decks count zero while every other deck counts what it did. */
  lemma ReleaseTotals(s: State, group: Id)
    requires group in s.groups
    ensures var (t, n) := ReleaseAll(s, group);
            && n == Ok(CardCount(s, group)) && CardCount(s, group) == SumOfCounts(s, DecksOf(s, group))
            && t.decks == s.decks && t.copies.Keys == s.copies.Keys
            && CardCount(t, group) == 0
            && (forall d | d in DecksOf(s, group) :: CopiesIn(t, {d}) == {})
            && (forall d | d in s.decks && d !in DecksOf(s, group) :: CopiesIn(t, {d}) == CopiesIn(s, {d}))
  {
    CountsAddUp(s, DecksOf(s, group));
    var t := ReleaseAll(s, group).0;
    assert CopiesIn(t, DecksOf(t, group)) == {};
    forall d | d in s.decks && d !in DecksOf(s, group)
      ensures CopiesIn(t, {d}) == CopiesIn(s, {d})
    {
      assert forall c | c in s.copies && s.copies[c].place.deck == Some(d) :: c !in CopiesIn(s, DecksOf(s, group));
    }
  }

  /** The same copies, with nothing on them changed but where they are. */
  predicate SameButPlace(s: State, t: State) {
    && t.copies.Keys == s.copies.Keys && t.statuses == s.statuses
    && forall c | c in s.copies && c in t.copies ::
         t.copies[c].(place := s.copies[c].place) == s.copies[c]
  }

  lemma DeckCreationKeepsCopies(s: State, name: string, state: Option<string>, group: Option<Id>)
    ensures SameButPlace(s, CreateDeck(s, name, state, group).0)
  {}

  lemma SameRowsAreSame(s: State, t: State)
    requires t.copies == s.copies && t.statuses == s.statuses
    ensures SameButPlace(s, t)
  {}

  lemma DeckChangesKeepCopies(s: State, id: Id, name: Option<string>, state: Option<string>, group: Option<Id>)
    ensures SameButPlace(s, UpdateDeck(s, id, name, state).0) && SameButPlace(s, SetGroup(s, id, group).0)
  {
    SameRowsAreSame(s, UpdateDeck(s, id, name, state).0);
    SameRowsAreSame(s, SetGroup(s, id, group).0);
  }

  lemma DeckDeletionKeepsCopies(s: State, id: Id)
    ensures SameButPlace(s, DeleteDeck(s, id).0)
  {}

  lemma ReleasesKeepCopies(s: State, group: Id)
    ensures SameButPlace(s, ReleaseAll(s, group).0)
  {
    assert ReleaseRows(s.copies, CopiesIn(s, DecksOf(s, group))).Keys == s.copies.Keys;
  }

  lemma GroupDeletionKeepsCopies(s: State, group: Id, mode: DeleteMode)
    ensures SameButPlace(s, DeleteGroup(s, group, mode).0)
  {
    ReleasesKeepCopies(s, group);
    var r := ReleaseAll(s, group).0;
    var t := DeleteGroup(s, group, mode).0;
    assert t.copies == s.copies || t.copies == ForgetInRows(r.copies, {}, DecksOf(s, group));
  }

  lemma MovesKeepCopies(s: State, id: Id, binder: Option<Id>, deck: Option<Id>, note: Option<string>)
    ensures SameButPlace(s, MoveTo(s, id, binder, deck, note).0)
  {
    if MoveRefusal(s, id, Place(binder, deck)).None? {
      assert s.copies[id := s.copies[id].(place := Place(binder, deck))].Keys == s.copies.Keys;
    }
  }

  lemma GroupNamesKeepCopies(s: State, op: Op)
    ensures op.OpCreateGroup? ==> SameButPlace(s, CreateGroup(s, op.name).0)
    ensures op.OpUpdateGroup? ==> SameButPlace(s, UpdateGroup(s, op.id, op.newName).0)
  {
    if op.OpCreateGroup? {
      SameRowsAreSame(s, CreateGroup(s, op.name).0);
    } else if op.OpUpdateGroup? {
      SameRowsAreSame(s, UpdateGroup(s, op.id, op.newName).0);
    }
  }

  lemma CreationsKeepCopies(s: State, batch: Batch)
    ensures SameButPlace(s, CreateBinder(s).0) && SameButPlace(s, CreateBatch(s, batch).0)
  {}

  lemma BinderDeletionKeepsCopies(s: State, id: Id)
    ensures SameButPlace(s, DeleteBinder(s, id).0)
  {
    var t := DeleteBinder(s, id).0;
    assert t == s || t.copies == ForgetInRows(s.copies, {id}, {});
  }

  /** Moves and deck, group, binder and batch operations never add or delete a copy, and change nothing on
      one but where it is. */
  lemma ContainerOpsKeepCopies(cardOf: map<string, string>, s: State, op: Op)
    requires !op.OpAdd? && !op.OpUpdate? && !op.OpSetStatus? && !op.OpDelete? && !op.OpDeleteLatest?
          && !op.OpChangePrinting?
    ensures SameButPlace(s, Step(cardOf, s, op))
  {
    if op.OpCreateDeck? {
      DeckCreationKeepsCopies(s, op.name, op.state, op.group);
    } else if op.OpUpdateDeck? {
      DeckChangesKeepCopies(s, op.id, op.newName, op.newState, None);
    } else if op.OpSetGroup? {
      DeckChangesKeepCopies(s, op.id, None, None, op.group);
    } else if op.OpDeleteDeck? {
      DeckDeletionKeepsCopies(s, op.id);
    } else if op.OpReleaseAll? {
      ReleasesKeepCopies(s, op.id);
    } else if op.OpDeleteGroup? {
      GroupDeletionKeepsCopies(s, op.id, op.mode);
    } else if op.OpMoveTo? {
      MovesKeepCopies(s, op.id, op.binder, op.deck, op.note);
    } else if op.OpCreateGroup? || op.OpUpdateGroup? {
      GroupNamesKeepCopies(s, op);
    } else if op.OpDeleteBinder? {
      BinderDeletionKeepsCopies(s, op.id);
    } else {
      CreationsKeepCopies(s, if op.OpCreateBatch? then op.batch else Batch("", None, None));
    }
  }

  lemma GroupDeletionTables(s: State, id: Id, mode: DeleteMode)
    requires id in s.groups
    ensures var t := DeleteGroup(s, id, mode).0;
            && t.groups.Keys == s.groups.Keys - {id}
            && t.decks.Keys == (if mode.Decks? then s.decks.Keys - DecksOf(s, id) else s.decks.Keys)
            && forall d | d in t.decks ::
                 t.decks[d].group == if s.decks[d].group == Some(id) then None else s.decks[d].group
  {}

  lemma GroupDeletionPlaces(s: State, id: Id, mode: DeleteMode, c: Id)
    requires id in s.groups && c in s.copies && s.copies[c].place.Exclusive()
    ensures var t := DeleteGroup(s, id, mode).0;
            c in t.copies
            && t.copies[c].place
               == if mode.Decks? && c in CopiesIn(s, DecksOf(s, id)) then LOOSE else s.copies[c].place
  {}

  /** Deleting a group with its decks: those decks go, the others keep their copies, and every copy
      that was in the group is loose. Deleting it alone moves nothing. */
  lemma GroupDeletion(cardOf: map<string, string>, s: State, id: Id, mode: DeleteMode, c: Id)
    requires Inv(cardOf, s) && id in s.groups && c in s.copies
    ensures var t := DeleteGroup(s, id, mode).0;
            && t.groups.Keys == s.groups.Keys - {id}
            && t.decks.Keys == (if mode.Decks? then s.decks.Keys - DecksOf(s, id) else s.decks.Keys)
            && (forall d | d in t.decks ::
                  t.decks[d].group == if s.decks[d].group == Some(id) then None else s.decks[d].group)
            && c in t.copies
            && t.copies[c].place
               == if mode.Decks? && c in CopiesIn(s, DecksOf(s, id)) then LOOSE else s.copies[c].place
  {
    assert RowFits(s, s.copies[c]);
    GroupDeletionTables(s, id, mode);
    GroupDeletionPlaces(s, id, mode, c);
  }
}
