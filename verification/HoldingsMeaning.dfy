/** What each operation on a collection does and when it is refused, column by column, said of its
    arguments and the rows it finds. */
module HoldingsMeaning {
  import opened Wrappers
  import opened Holdings
  import Text

  // ----- The texts of the CHECK lists -----

  function ConditionText(c: Condition): string {
    match c
    case NearMint => "Near Mint"
    case LightlyPlayed => "Lightly Played"
    case ModeratelyPlayed => "Moderately Played"
    case HeavilyPlayed => "Heavily Played"
    case Damaged => "Damaged"
  }

  function StatusText(s: Status): string {
    match s
    case Owned => "owned"
    case Ordered => "ordered"
    case Listed => "listed"
    case Sold => "sold"
    case Removed => "removed"
    case Traded => "traded"
    case Gifted => "gifted"
    case Lost => "lost"
  }

  function DeckStateText(s: DeckState): string {
    match s
    case Idea => "idea"
    case Ready => "ready"
    case Built => "built"
  }

  /** A text on a list is read as the value it is written for, and no other text is read at all. */
  lemma ConditionsRoundTrip(text: string, c: Condition)
    ensures ParseCondition(text) == Some(c) <==> text == ConditionText(c)
  {
  }

  lemma StatusesRoundTrip(text: string, s: Status)
    ensures ParseStatus(text) == Some(s) <==> text == StatusText(s)
  {
  }

  lemma DeckStatesRoundTrip(text: string, s: DeckState)
    ensures ParseDeckState(text) == Some(s) <==> text == DeckStateText(s)
  {
  }

  // ----- Copies -----

  /** A nullable text names this value, or is absent and the value is the default. */
  predicate Reads<T(==)>(text: Option<string>, parse: string -> Option<T>, default: T, value: T) {
    if text.Some? then parse(text.value) == Some(value) else value == default
  }

  predicate OnList<T>(text: Option<string>, parse: string -> Option<T>) {
    text.Some? ==> parse(text.value).Some?
  }

  predicate Alive(key: Option<Id>, table: set<Id>) {
    key.None? || key.value in table
  }

  /** The row says what the request says. */
  predicate RowSays(row: Copy, copy: NewCopy) {
    && row.printing == copy.printing
    && Reads(copy.condition, ParseCondition, NearMint, row.condition)
    && row.language == (if copy.language.Some? then copy.language.value else "English")
    && row.purchasePrice == copy.purchasePrice && row.salePrice == None
    && row.acquiredAt == copy.acquiredAt && row.source == copy.source
    && Reads(copy.status, ParseStatus, Owned, row.status)
    && row.notes == copy.notes && row.tags == None
    && row.grading == Grading(false, None, None, None)
    && row.place == Place(copy.binder, copy.deck)
    && row.order == copy.order && row.batch == copy.batch
  }

  /** The references and lists an add checks. */
  predicate Acceptable(s: State, copy: NewCopy) {
    && OnList(copy.condition, ParseCondition) && OnList(copy.status, ParseStatus)
    && Alive(copy.binder, s.binders) && Alive(copy.deck, s.decks.Keys)
    && Alive(copy.order, s.orders) && Alive(copy.batch, s.batches.Keys)
  }

  lemma AddRefuses(cardOf: map<string, string>, s: State, copy: NewCopy)
    ensures copy.printing !in cardOf ==> Add(cardOf, s, copy) == (s, Err(NotFound))
    ensures copy.printing in cardOf && copy.binder.Some? && copy.deck.Some? ==>
              Add(cardOf, s, copy) == (s, Err(Conflict))
    ensures copy.printing in cardOf && (copy.binder.None? || copy.deck.None?) && !Acceptable(s, copy) ==>
              Add(cardOf, s, copy) == (s, Err(Constraint))
  {
  }

  /** An add that is not refused writes one row under the next id, an empty movement history and a status
      history of one entry. */
  lemma AddWrites(cardOf: map<string, string>, s: State, copy: NewCopy)
    requires copy.printing in cardOf && (copy.binder.None? || copy.deck.None?) && Acceptable(s, copy)
    ensures var (t, r) := Add(cardOf, s, copy);
            && r == Ok(s.nextCopy) && s.nextCopy in t.copies && RowSays(t.copies[s.nextCopy], copy)
            && t == s.(copies := s.copies[s.nextCopy := t.copies[s.nextCopy]],
                       moves := s.moves[s.nextCopy := []],
                       statuses := s.statuses[s.nextCopy :=
                                     [StatusChange(None, t.copies[s.nextCopy].status, Some("added"))]],
                       nextCopy := s.nextCopy + 1)
  {
  }

  /** A given field has the given value, an absent one the old. */
  predicate Coalesced<T(==)>(given: Option<T>, old_: Option<T>, now: Option<T>) {
    now == if given.Some? then given else old_
  }

  predicate EditSays(row: Copy, edit: CopyEdit, now: Copy) {
    && Reads(edit.condition, ParseCondition, row.condition, now.condition)
    && now.language == (if edit.language.Some? then edit.language.value else row.language)
    && Coalesced(edit.purchasePrice, row.purchasePrice, now.purchasePrice)
    && Coalesced(edit.salePrice, row.salePrice, now.salePrice)
    && Coalesced(edit.notes, row.notes, now.notes)
    && Coalesced(edit.tags, row.tags, now.tags)
    && now.grading.graded == (if edit.graded.Some? then edit.graded.value else row.grading.graded)
    && Coalesced(edit.gradeCompany, row.grading.company, now.grading.company)
    && Coalesced(edit.gradeValue, row.grading.value, now.grading.value)
    && Coalesced(edit.gradeCert, row.grading.cert, now.grading.cert)
    && now.printing == row.printing && now.acquiredAt == row.acquiredAt && now.source == row.source
    && now.status == row.status && now.place == row.place && now.order == row.order && now.batch == row.batch
  }

  /** An edit writes the given fields of one row and nothing else; a condition off its list refuses it, and a
      copy that is not there is reported. */
  lemma UpdateMeaning(s: State, id: Id, edit: CopyEdit)
    ensures id !in s.copies ==> Update(s, id, edit) == (s, Ok(false))
    ensures id in s.copies && !OnList(edit.condition, ParseCondition) ==> Update(s, id, edit) == (s, Err(Constraint))
    ensures id in s.copies && OnList(edit.condition, ParseCondition) ==>
              var (t, r) := Update(s, id, edit);
              && r == Ok(true) && id in t.copies && EditSays(s.copies[id], edit, t.copies[id])
              && t == s.(copies := s.copies[id := t.copies[id]])
  {
  }

  /** The row gets the status the text names, and the history an entry from the old one to it. */
  lemma SetStatusMeaning(s: State, id: Id, status: string, note: Option<string>)
    requires s.statuses.Keys == s.copies.Keys
    ensures id !in s.copies ==> SetStatus(s, id, status, note) == (s, Err(NotFound))
    ensures id in s.copies && ParseStatus(status).None? ==> SetStatus(s, id, status, note) == (s, Err(Constraint))
    ensures id in s.copies && ParseStatus(status).Some? ==>
              SetStatus(s, id, status, note)
              == (s.(copies := s.copies[id := s.copies[id].(status := ParseStatus(status).value)],
                     statuses := s.statuses[id := s.statuses[id]
                                   + [StatusChange(Some(s.copies[id].status), ParseStatus(status).value, note)]]),
                  Ok(true))
  {
  }

  predicate MoveAllowed(s: State, id: Id, binder: Option<Id>, deck: Option<Id>) {
    && (binder.None? || deck.None?)
    && id in s.copies
    && Alive(binder, s.binders) && Alive(deck, s.decks.Keys)
  }

  lemma MoveRefuses(s: State, id: Id, binder: Option<Id>, deck: Option<Id>, note: Option<string>)
    requires s.moves.Keys == s.copies.Keys
    ensures binder.Some? && deck.Some? ==> MoveTo(s, id, binder, deck, note) == (s, Err(Conflict))
    ensures (binder.None? || deck.None?) && id !in s.copies ==>
              MoveTo(s, id, binder, deck, note) == (s, Err(NotFound))
    ensures (binder.None? || deck.None?) && id in s.copies && !MoveAllowed(s, id, binder, deck) ==>
              MoveTo(s, id, binder, deck, note) == (s, Err(Constraint))
  {
  }

  /** A move that is not refused puts the copy into the binder and the deck it names, logs that it went there
      from where it was, and changes no other column, copy, log or table. */
  lemma MovePutsTheCopyThere(s: State, id: Id, binder: Option<Id>, deck: Option<Id>, note: Option<string>)
    requires s.moves.Keys == s.copies.Keys && MoveAllowed(s, id, binder, deck)
    ensures var (t, r) := MoveTo(s, id, binder, deck, note);
            && r == Ok(true) && id in t.copies && id in t.moves
            && t.copies[id].place.binder == binder && t.copies[id].place.deck == deck
            && t.moves[id] == s.moves[id] + [Move(s.copies[id].place, Place(binder, deck), note)]
            && t.copies[id].(place := s.copies[id].place) == s.copies[id]
            && t.copies.Keys == s.copies.Keys && t.moves.Keys == s.moves.Keys
            && (forall c | c in s.copies && c != id :: t.copies[c] == s.copies[c] && t.moves[c] == s.moves[c])
            && t == s.(copies := t.copies, moves := t.moves)
  {
  }

  /** A copy is deleted with its own rows of both logs and nothing else. */
  lemma DeleteMeaning(s: State, id: Id)
    ensures var (t, r) := Delete(s, id);
            && r == Ok(id in s.copies)
            && (forall c :: c in t.copies <==> c in s.copies && c != id)
            && (forall c :: c in t.moves <==> c in s.moves && c != id)
            && (forall c :: c in t.statuses <==> c in s.statuses && c != id)
            && (forall c | c in t.copies :: t.copies[c] == s.copies[c])
            && (forall c | c in t.moves :: t.moves[c] == s.moves[c])
            && (forall c | c in t.statuses :: t.statuses[c] == s.statuses[c])
            && t == s.(copies := t.copies, moves := t.moves, statuses := t.statuses)
  {
  }

  /** The copy of the printing with the greatest id goes, if there is one. */
  lemma DeleteLatestMeaning(s: State, printing: string, id: Id)
    requires id in s.copies && s.copies[id].printing == printing
    requires forall c | c in s.copies && s.copies[c].printing == printing :: c <= id
    ensures DeleteLatest(s, printing) == Delete(s, id)
  {
    assert IsLatest(s, printing, id);
  }

  lemma DeleteLatestOfNone(s: State, printing: string)
    requires forall c | c in s.copies :: s.copies[c].printing != printing
    ensures DeleteLatest(s, printing) == (s, Ok(false))
  {
  }

  /** A change of printing goes through exactly when the copy is there and its own printing and the new one
      are printings of one card; then that column changes and nothing else. */
  lemma ChangePrintingMeaning(cardOf: map<string, string>, s: State, id: Id, printing: string)
    ensures var (t, r) := ChangePrinting(cardOf, s, id, printing);
            && (r == Ok(true)
                <==> && id in s.copies && printing in cardOf
                     && s.copies[id].printing in cardOf && cardOf[s.copies[id].printing] == cardOf[printing])
            && (id !in s.copies || printing !in cardOf ==> r == Err(NotFound))
            && (r != Ok(true) && id in s.copies && printing in cardOf ==> r == Err(Conflict))
            && t == if r == Ok(true) then s.(copies := s.copies[id := s.copies[id].(printing := printing)]) else s
  {
  }

  // ----- Decks and groups -----

  lemma CreateDeckMeaning(s: State, name: string, state: Option<string>, group: Option<Id>)
    ensures OnList(state, ParseDeckState) && Alive(group, s.groups.Keys) ==>
              var (t, r) := CreateDeck(s, name, state, group);
              && r == Ok(s.nextDeck) && s.nextDeck in t.decks
              && t.decks[s.nextDeck].name == name && t.decks[s.nextDeck].group == group
              && Reads(state, ParseDeckState, Idea, t.decks[s.nextDeck].state)
              && t == s.(decks := s.decks[s.nextDeck := t.decks[s.nextDeck]], nextDeck := s.nextDeck + 1)
    ensures !(OnList(state, ParseDeckState) && Alive(group, s.groups.Keys)) ==>
              CreateDeck(s, name, state, group) == (s, Err(Constraint))
  {
  }

  lemma UpdateDeckMeaning(s: State, id: Id, name: Option<string>, state: Option<string>)
    ensures id !in s.decks ==> UpdateDeck(s, id, name, state) == (s, Ok(false))
    ensures id in s.decks && !OnList(state, ParseDeckState) ==> UpdateDeck(s, id, name, state) == (s, Err(Constraint))
    ensures id in s.decks && OnList(state, ParseDeckState) ==>
              var (t, r) := UpdateDeck(s, id, name, state);
              && r == Ok(true) && id in t.decks
              && t.decks[id].name == (if name.Some? then name.value else s.decks[id].name)
              && Reads(state, ParseDeckState, s.decks[id].state, t.decks[id].state)
              && t.decks[id].group == s.decks[id].group
              && t == s.(decks := s.decks[id := t.decks[id]])
  {
  }

  lemma SetGroupMeaning(s: State, id: Id, group: Option<Id>)
    ensures !Alive(group, s.groups.Keys) ==> SetGroup(s, id, group) == (s, Err(NotFound))
    ensures Alive(group, s.groups.Keys) && id !in s.decks ==> SetGroup(s, id, group) == (s, Ok(false))
    ensures Alive(group, s.groups.Keys) && id in s.decks ==>
              SetGroup(s, id, group)
              == (s.(decks := s.decks[id := Deck(s.decks[id].name, s.decks[id].state, group)]), Ok(true))
  {
  }

  function WithoutDeck(p: Place, id: Id): Place {
    Place(p.binder, if p.deck == Some(id) then None else p.deck)
  }

  /** A deck deletion takes the deck's name off every row and every log entry, and nothing else. */
  lemma DeleteDeckMeaning(s: State, id: Id)
    ensures var (t, r) := DeleteDeck(s, id);
            && r == Ok(id in s.decks)
            && t.copies.Keys == s.copies.Keys && t.moves.Keys == s.moves.Keys
            && (forall c | c in s.copies ::
                  t.copies[c] == s.copies[c].(place := WithoutDeck(s.copies[c].place, id)))
            && (forall c | c in s.moves :: |t.moves[c]| == |s.moves[c]|)
            && (forall c, i | c in s.moves && 0 <= i < |s.moves[c]| ::
                  t.moves[c][i] == Move(WithoutDeck(s.moves[c][i].from, id), WithoutDeck(s.moves[c][i].to, id),
                                        s.moves[c][i].note))
            && (forall d :: d in t.decks <==> d in s.decks && d != id)
            && (forall d | d in t.decks :: t.decks[d] == s.decks[d])
            && t == s.(copies := t.copies, moves := t.moves, decks := t.decks)
  {
    forall p: Place ensures p.Forget({}, {id}) == WithoutDeck(p, id) {}
  }

  /** Blank, by white space alone. */
  predicate Blank(name: string) {
    forall i | 0 <= i < |name| :: Text.IsWhitespace(name[i])
  }

  /** Another group has this name. */
  predicate Taken(s: State, name: string, except: Option<Id>) {
    exists g | g in s.groups && Some(g) != except :: s.groups[g] == name
  }

  lemma CreateGroupMeaning(s: State, name: string)
    ensures Blank(name) ==> CreateGroup(s, name) == (s, Err(Invalid))
    ensures !Blank(name) && Taken(s, name, None) ==> CreateGroup(s, name) == (s, Err(Conflict))
    ensures !Blank(name) && !Taken(s, name, None) ==>
              CreateGroup(s, name)
              == (s.(groups := s.groups[s.nextGroup := name], nextGroup := s.nextGroup + 1), Ok(s.nextGroup))
  {
  }

  lemma UpdateGroupMeaning(s: State, id: Id, name: Option<string>)
    ensures name.Some? && Blank(name.value) ==> UpdateGroup(s, id, name) == (s, Err(Invalid))
    ensures name.Some? && !Blank(name.value) && Taken(s, name.value, Some(id)) ==>
              UpdateGroup(s, id, name) == (s, Err(Conflict))
    ensures (name.Some? ==> !Blank(name.value) && !Taken(s, name.value, Some(id))) ==>
              UpdateGroup(s, id, name)
              == if id !in s.groups then (s, Ok(false))
                 else if name.Some? then (s.(groups := s.groups[id := name.value]), Ok(true))
                 else (s, Ok(true))
  {
    if id in s.groups {
      assert s.groups[id := s.groups[id]] == s.groups;
    }
  }

  /** The copy sits in a deck of the group. */
  predicate InGroup(s: State, group: Id, c: Id) {
    && c in s.copies && s.copies[c].place.deck.Some?
    && s.copies[c].place.deck.value in s.decks && s.decks[s.copies[c].place.deck.value].group == Some(group)
  }

  /** A release takes every copy out of the group's decks, logs for each that it left its deck for nowhere,
      answers how many there were, and touches nothing else. */
  lemma ReleaseMeaning(s: State, group: Id)
    requires s.moves.Keys == s.copies.Keys
    ensures group !in s.groups ==> ReleaseAll(s, group) == (s, Err(NotFound))
    ensures group in s.groups ==>
              var (t, r) := ReleaseAll(s, group);
              && r == Ok(|set c | c in s.copies && InGroup(s, group, c)|)
              && t.copies.Keys == s.copies.Keys && t.moves.Keys == s.moves.Keys
              && (forall c | c in s.copies && InGroup(s, group, c) ::
                    && t.copies[c] == s.copies[c].(place := Place(s.copies[c].place.binder, None))
                    && t.moves[c] == s.moves[c] + [Move(Place(None, s.copies[c].place.deck), Place(None, None),
                                                        Some("deck group released"))])
              && (forall c | c in s.copies && !InGroup(s, group, c) ::
                    t.copies[c] == s.copies[c] && t.moves[c] == s.moves[c])
              && t == s.(copies := t.copies, moves := t.moves)
  {
    assert CopiesIn(s, DecksOf(s, group)) == set c | c in s.copies && InGroup(s, group, c);
  }

  /** Deleting a group alone takes its name off its decks and nothing else. */
  lemma DeleteGroupAloneMeaning(s: State, id: Id)
    ensures id !in s.groups ==> forall mode :: DeleteGroup(s, id, mode) == (s, Ok(false))
    ensures id in s.groups ==>
              var (t, r) := DeleteGroup(s, id, Ungroup);
              && r == Ok(true) && t.groups == s.groups - {id} && t.decks.Keys == s.decks.Keys
              && (forall d | d in s.decks ::
                    t.decks[d] == Deck(s.decks[d].name, s.decks[d].state,
                                       if s.decks[d].group == Some(id) then None else s.decks[d].group))
              && t == s.(groups := t.groups, decks := t.decks)
  {
  }

  // ----- Binders and batches -----

  lemma CreateBinderMeaning(s: State)
    ensures CreateBinder(s) == (s.(binders := s.binders + {s.nextBinder}, nextBinder := s.nextBinder + 1),
                                Ok(s.nextBinder))
  {
  }

  /** A log entry or a batch names the binder. */
  predicate Named(s: State, id: Id) {
    || (exists c, i | c in s.moves && 0 <= i < |s.moves[c]| ::
          s.moves[c][i].from.binder == Some(id) || s.moves[c][i].to.binder == Some(id))
    || (exists b | b in s.batches :: s.batches[b].binder == Some(id))
  }

  lemma DeleteBinderMeaning(s: State, id: Id)
    ensures id !in s.binders ==> DeleteBinder(s, id) == (s, Ok(false))
    ensures id in s.binders && Named(s, id) ==> DeleteBinder(s, id) == (s, Err(Constraint))
    ensures id in s.binders && !Named(s, id) ==>
              var (t, r) := DeleteBinder(s, id);
              && r == Ok(true) && t.binders == s.binders - {id} && t.copies.Keys == s.copies.Keys
              && (forall c | c in s.copies ::
                    t.copies[c] == s.copies[c].(place := Place(if s.copies[c].place.binder == Some(id) then None
                                                               else s.copies[c].place.binder,
                                                               s.copies[c].place.deck)))
              && t == s.(copies := t.copies, binders := t.binders)
  {
    PinnedIsNamed(s, id);
  }

  lemma PinnedIsNamed(s: State, id: Id)
    ensures BinderPinned(s, id) <==> Named(s, id)
  {
    if c :| c in s.moves && NamesBinder(s.moves[c], id) {
      var i :| 0 <= i < |s.moves[c]|
               && (s.moves[c][i].from.binder == Some(id) || s.moves[c][i].to.binder == Some(id));
    }
    if c, i :| c in s.moves && 0 <= i < |s.moves[c]|
               && (s.moves[c][i].from.binder == Some(id) || s.moves[c][i].to.binder == Some(id)) {
      assert NamesBinder(s.moves[c], id);
    }
  }

  lemma CreateBatchMeaning(s: State, batch: Batch)
    ensures Alive(batch.order, s.orders) && Alive(batch.binder, s.binders) ==>
              CreateBatch(s, batch)
              == (s.(batches := s.batches[s.nextBatch := batch], nextBatch := s.nextBatch + 1), Ok(s.nextBatch))
    ensures !(Alive(batch.order, s.orders) && Alive(batch.binder, s.binders)) ==>
              CreateBatch(s, batch) == (s, Err(Constraint))
  {
  }
}
