/** What every operation on the holdings keeps, whether it succeeds or is refused. */
module HoldingsInvariant {
  import opened Wrappers
  import opened Holdings
  import Text

  predicate PlaceOk(binders: set<Id>, decks: set<Id>, p: Place) {
    p.Exclusive() && Live(p.binder, binders) && Live(p.deck, decks)
  }

  predicate LogOk(binders: set<Id>, decks: set<Id>, log: seq<Move>) {
    forall i | 0 <= i < |log| ::
      PlaceOk(binders, decks, log[i].from) && PlaceOk(binders, decks, log[i].to)
  }

  /** A copy's status history: opened by the add, each change starting where the one before it
      ended, and ending at the copy's present status. */
  predicate StatusChain(log: seq<StatusChange>, status: Status) {
    && log != []
    && log[0].from.None?
    && (forall i | 0 < i < |log| :: log[i].from == Some(log[i - 1].to))
    && log[|log| - 1].to == status
  }

  predicate RowsOk(cardOf: map<string, string>, rows: map<Id, Copy>, binders: set<Id>,
                   decks: set<Id>, orders: set<Id>, batches: set<Id>)
  {
    forall c | c in rows :: Fits(binders, decks, orders, batches, rows[c]) && rows[c].printing in cardOf
  }

  predicate LogsOk(moves: map<Id, seq<Move>>, binders: set<Id>, decks: set<Id>) {
    forall c | c in moves :: LogOk(binders, decks, moves[c])
  }

  predicate StatusesOk(rows: map<Id, Copy>, statuses: map<Id, seq<StatusChange>>) {
    forall c | c in rows && c in statuses :: StatusChain(statuses[c], rows[c].status)
  }

  predicate DecksOk(decks: map<Id, Deck>, groups: set<Id>) {
    forall d | d in decks :: Live(decks[d].group, groups)
  }

  predicate GroupsOk(groups: map<Id, string>) {
    forall g, h | g in groups && h in groups && groups[g] == groups[h] :: g == h
  }

  predicate BatchesOk(batches: map<Id, Batch>, binders: set<Id>, orders: set<Id>) {
    forall b | b in batches :: Live(batches[b].binder, binders) && Live(batches[b].order, orders)
  }

  /** AUTOINCREMENT never hands out an id twice. */
  predicate Below(ids: set<Id>, next: Id) {
    forall i | i in ids :: i < next
  }

  predicate IdsOk(s: State) {
    && Below(s.copies.Keys, s.nextCopy)
    && Below(s.decks.Keys, s.nextDeck)
    && Below(s.groups.Keys, s.nextGroup)
    && Below(s.binders, s.nextBinder)
    && Below(s.batches.Keys, s.nextBatch)
  }

  predicate Inv(cardOf: map<string, string>, s: State) {
    && s.moves.Keys == s.copies.Keys
    && s.statuses.Keys == s.copies.Keys
    && RowsOk(cardOf, s.copies, s.binders, s.decks.Keys, s.orders, s.batches.Keys)
    && LogsOk(s.moves, s.binders, s.decks.Keys)
    && StatusesOk(s.copies, s.statuses)
    && DecksOk(s.decks, s.groups.Keys)
    && GroupsOk(s.groups)
    && BatchesOk(s.batches, s.binders, s.orders)
    && IdsOk(s)
  }

  // ----- One conjunct at a time -----

  lemma ForgettingKeepsRows(cardOf: map<string, string>, rows: map<Id, Copy>, binders: set<Id>,
                            decks: set<Id>, orders: set<Id>, batches: set<Id>,
                            deadBinders: set<Id>, deadDecks: set<Id>)
    requires RowsOk(cardOf, rows, binders, decks, orders, batches)
    ensures RowsOk(cardOf, ForgetInRows(rows, deadBinders, deadDecks), binders - deadBinders,
                   decks - deadDecks, orders, batches)
  {}

  lemma ForgettingKeepsLogs(s: State, dead: set<Id>)
    requires LogsOk(s.moves, s.binders, s.decks.Keys)
    ensures LogsOk(ForgetDecks(s, dead).moves, s.binders, s.decks.Keys - dead)
  {
    forall c | c in s.moves
      ensures LogOk(s.binders, s.decks.Keys - dead, ForgetInLog(s.moves[c], dead))
    {
      assert LogOk(s.binders, s.decks.Keys, s.moves[c]);
    }
  }

  lemma ForgettingKeepsStatuses(rows: map<Id, Copy>, statuses: map<Id, seq<StatusChange>>,
                                deadBinders: set<Id>, deadDecks: set<Id>)
    requires StatusesOk(rows, statuses)
    ensures StatusesOk(ForgetInRows(rows, deadBinders, deadDecks), statuses)
  {}

  lemma ForgettingKeepsTheRest(s: State, dead: set<Id>)
    requires DecksOk(s.decks, s.groups.Keys) && IdsOk(s)
    ensures var t := ForgetDecks(s, dead);
            t.decks.Keys == s.decks.Keys - dead && DecksOk(t.decks, t.groups.Keys) && IdsOk(t)
  {}

  lemma ForgettingDecksKeepsInv(cardOf: map<string, string>, s: State, dead: set<Id>)
    requires Inv(cardOf, s)
    ensures Inv(cardOf, ForgetDecks(s, dead))
  {
    assert s.binders - {} == s.binders;
    ForgettingKeepsRows(cardOf, s.copies, s.binders, s.decks.Keys, s.orders, s.batches.Keys, {}, dead);
    ForgettingKeepsLogs(s, dead);
    ForgettingKeepsStatuses(s.copies, s.statuses, {}, dead);
    ForgettingKeepsTheRest(s, dead);
  }

  lemma ReleaseKeepsLogs(cardOf: map<string, string>, s: State, held: set<Id>)
    requires LogsOk(s.moves, s.binders, s.decks.Keys)
    requires RowsOk(cardOf, s.copies, s.binders, s.decks.Keys, s.orders, s.batches.Keys)
    ensures LogsOk(Release(s, held).moves, s.binders, s.decks.Keys)
  {
    var t := Release(s, held);
    forall c | c in t.moves ensures LogOk(s.binders, s.decks.Keys, t.moves[c]) {
      assert LogOk(s.binders, s.decks.Keys, s.moves[c]);
      if c in s.copies {
        assert RowFits(s, s.copies[c]);
      }
    }
  }

  lemma ReleaseKeepsRows(cardOf: map<string, string>, s: State, held: set<Id>)
    requires RowsOk(cardOf, s.copies, s.binders, s.decks.Keys, s.orders, s.batches.Keys)
    ensures RowsOk(cardOf, Release(s, held).copies, s.binders, s.decks.Keys, s.orders, s.batches.Keys)
  {}

  lemma ReleaseKeepsInv(cardOf: map<string, string>, s: State, held: set<Id>)
    requires Inv(cardOf, s)
    ensures Inv(cardOf, Release(s, held))
  {
    ReleaseKeepsRows(cardOf, s, held);
    ReleaseKeepsLogs(cardOf, s, held);
    assert StatusesOk(Release(s, held).copies, s.statuses);
  }

  lemma DropGroupKeepsInv(cardOf: map<string, string>, s: State, id: Id)
    requires Inv(cardOf, s)
    ensures Inv(cardOf, DropGroup(s, id))
  {
    assert DropGroup(s, id).decks.Keys == s.decks.Keys;
  }

  /** A binder that can be deleted is one no log row names, so the logs stay as they are. */
  lemma DeleteBinderKeepsInv(cardOf: map<string, string>, s: State, id: Id)
    requires Inv(cardOf, s)
    ensures Inv(cardOf, DeleteBinder(s, id).0)
  {
    if id in s.binders && !BinderPinned(s, id) {
      assert s.decks.Keys - {} == s.decks.Keys;
      ForgettingKeepsRows(cardOf, s.copies, s.binders, s.decks.Keys, s.orders, s.batches.Keys, {id}, {});
      UnpinnedLogsStay(s, id);
      ForgettingKeepsStatuses(s.copies, s.statuses, {id}, {});
    }
  }

  lemma UnpinnedLogsStay(s: State, id: Id)
    requires LogsOk(s.moves, s.binders, s.decks.Keys)
    requires !BinderPinned(s, id)
    ensures LogsOk(s.moves, s.binders - {id}, s.decks.Keys)
  {
    forall c | c in s.moves ensures LogOk(s.binders - {id}, s.decks.Keys, s.moves[c]) {
      assert LogOk(s.binders, s.decks.Keys, s.moves[c]) && !NamesBinder(s.moves[c], id);
    }
  }

  lemma PuttingARowKeepsRows(cardOf: map<string, string>, s: State, id: Id, row: Copy)
    requires RowsOk(cardOf, s.copies, s.binders, s.decks.Keys, s.orders, s.batches.Keys)
    requires RowFits(s, row) && row.printing in cardOf
    ensures RowsOk(cardOf, s.copies[id := row], s.binders, s.decks.Keys, s.orders, s.batches.Keys)
  {}

  lemma PuttingARowKeepsStatuses(rows: map<Id, Copy>, statuses: map<Id, seq<StatusChange>>, id: Id,
                                 row: Copy, log: seq<StatusChange>)
    requires StatusesOk(rows, statuses)
    requires StatusChain(log, row.status)
    ensures StatusesOk(rows[id := row], statuses[id := log])
  {}

  lemma PuttingALogKeepsLogs(moves: map<Id, seq<Move>>, binders: set<Id>, decks: set<Id>, id: Id,
                             log: seq<Move>)
    requires LogsOk(moves, binders, decks)
    requires LogOk(binders, decks, log)
    ensures LogsOk(moves[id := log], binders, decks)
  {}

  lemma InsertKeepsInv(cardOf: map<string, string>, s: State, row: Copy)
    requires Inv(cardOf, s)
    requires RowFits(s, row) && row.printing in cardOf
    ensures Inv(cardOf, Insert(s, row))
  {
    PuttingARowKeepsStatuses(s.copies, s.statuses, s.nextCopy, row,
                             [Opening(row)]);
    PuttingALogKeepsLogs(s.moves, s.binders, s.decks.Keys, s.nextCopy, []);
  }

  lemma RewritingARowKeepsInv(cardOf: map<string, string>, s: State, id: Id, row: Copy)
    requires Inv(cardOf, s)
    requires id in s.copies && row.status == s.copies[id].status
    requires RowFits(s, row) && row.printing in cardOf
    ensures Inv(cardOf, s.(copies := s.copies[id := row]))
  {
    var t := s.(copies := s.copies[id := row]);
    assert t.copies.Keys == s.copies.Keys;
    assert StatusesOk(t.copies, t.statuses);
  }

  lemma WithStatusKeepsInv(cardOf: map<string, string>, s: State, id: Id, to: Status,
                           note: Option<string>)
    requires Inv(cardOf, s)
    requires id in s.copies
    ensures Inv(cardOf, WithStatus(s, id, to, note))
  {
    var row := s.copies[id];
    assert StatusChain(s.statuses[id], row.status) && RowFits(s, row);
    PuttingARowKeepsStatuses(s.copies, s.statuses, id, row.(status := to),
                             s.statuses[id] + [StatusChange(Some(row.status), to, note)]);
    PuttingARowKeepsRows(cardOf, s, id, row.(status := to));
  }

  lemma WithPlaceKeepsInv(cardOf: map<string, string>, s: State, id: Id, to: Place,
                          note: Option<string>)
    requires Inv(cardOf, s)
    requires id in s.copies && PlaceOk(s.binders, s.decks.Keys, to)
    ensures Inv(cardOf, WithPlace(s, id, to, note))
  {
    var row := s.copies[id];
    assert StatusChain(s.statuses[id], row.status) && RowFits(s, row);
    PuttingARowKeepsStatuses(s.copies, s.statuses, id, row.(place := to), s.statuses[id]);
    assert s.statuses[id := s.statuses[id]] == s.statuses;
    assert LogOk(s.binders, s.decks.Keys, s.moves[id]);
    PuttingALogKeepsLogs(s.moves, s.binders, s.decks.Keys, id, s.moves[id] + [Move(row.place, to, note)]);
  }

  lemma DeleteKeepsInv(cardOf: map<string, string>, s: State, id: Id)
    requires Inv(cardOf, s)
    ensures Inv(cardOf, Delete(s, id).0)
  {
    var t := Delete(s, id).0;
    assert LogsOk(t.moves, t.binders, t.decks.Keys);
    assert StatusesOk(t.copies, t.statuses);
  }

  lemma GrowingKeepsRowsAndLogs(cardOf: map<string, string>, s: State, t: State)
    requires Inv(cardOf, s)
    requires t.copies == s.copies && t.moves == s.moves && t.orders == s.orders
    requires s.binders <= t.binders && s.decks.Keys <= t.decks.Keys
    requires s.batches.Keys <= t.batches.Keys
    ensures RowsOk(cardOf, t.copies, t.binders, t.decks.Keys, t.orders, t.batches.Keys)
    ensures LogsOk(t.moves, t.binders, t.decks.Keys)
  {
    forall c | c in t.moves ensures LogOk(t.binders, t.decks.Keys, t.moves[c]) {
      assert LogOk(s.binders, s.decks.Keys, s.moves[c]);
    }
  }

  lemma PuttingADeckKeepsInv(cardOf: map<string, string>, s: State, id: Id, deck: Deck, next: Id)
    requires Inv(cardOf, s)
    requires Live(deck.group, s.groups.Keys) && id < next && s.nextDeck <= next
    ensures Inv(cardOf, s.(decks := s.decks[id := deck], nextDeck := next))
  {
    GrowingKeepsRowsAndLogs(cardOf, s, s.(decks := s.decks[id := deck], nextDeck := next));
  }

  lemma PuttingAGroupKeepsInv(cardOf: map<string, string>, s: State, id: Id, name: string, next: Id)
    requires Inv(cardOf, s)
    requires forall g | g in s.groups && s.groups[g] == name :: g == id
    requires id < next && s.nextGroup <= next
    ensures Inv(cardOf, s.(groups := s.groups[id := name], nextGroup := next))
  {}

  lemma CreateBinderKeepsInv(cardOf: map<string, string>, s: State)
    requires Inv(cardOf, s)
    ensures Inv(cardOf, CreateBinder(s).0)
  {
    GrowingKeepsRowsAndLogs(cardOf, s, CreateBinder(s).0);
  }

  lemma CreateBatchKeepsInv(cardOf: map<string, string>, s: State, batch: Batch)
    requires Inv(cardOf, s)
    ensures Inv(cardOf, CreateBatch(s, batch).0)
  {
    if CreateBatch(s, batch).1.Ok? {
      AddedBatchKeepsInv(cardOf, s, batch);
    }
  }

  lemma AddedBatchKeepsInv(cardOf: map<string, string>, s: State, batch: Batch)
    requires Inv(cardOf, s) && Live(batch.order, s.orders) && Live(batch.binder, s.binders)
    ensures Inv(cardOf, s.(batches := s.batches[s.nextBatch := batch], nextBatch := s.nextBatch + 1))
  {
    GrowingKeepsRowsAndLogs(cardOf, s, s.(batches := s.batches[s.nextBatch := batch], nextBatch := s.nextBatch + 1));
  }

  lemma DeleteGroupKeepsInv(cardOf: map<string, string>, s: State, id: Id, mode: DeleteMode)
    requires Inv(cardOf, s)
    ensures Inv(cardOf, DeleteGroup(s, id, mode).0)
  {
    if id in s.groups {
      var decks := DecksOf(s, id);
      if mode.Decks? {
        ReleaseKeepsInv(cardOf, s, CopiesIn(s, decks));
        ForgettingDecksKeepsInv(cardOf, ReleaseAll(s, id).0, decks);
        DropGroupKeepsInv(cardOf, ForgetDecks(ReleaseAll(s, id).0, decks), id);
      } else {
        DropGroupKeepsInv(cardOf, s, id);
      }
    }
  }

  // ----- One operation at a time -----

  lemma AddKeepsInv(cardOf: map<string, string>, s: State, copy: NewCopy)
    requires Inv(cardOf, s)
    ensures Inv(cardOf, Add(cardOf, s, copy).0)
  {
    if Add(cardOf, s, copy).1.Ok? {
      InsertKeepsInv(cardOf, s, NewRow(copy).value);
    }
  }

  lemma UpdateKeepsInv(cardOf: map<string, string>, s: State, id: Id, edit: CopyEdit)
    requires Inv(cardOf, s)
    ensures Inv(cardOf, Update(s, id, edit).0)
  {
    if id in s.copies && Edited(s.copies[id], edit).Some? {
      assert RowFits(s, s.copies[id]);
      RewritingARowKeepsInv(cardOf, s, id, Edited(s.copies[id], edit).value);
    }
  }

  lemma SetStatusKeepsInv(cardOf: map<string, string>, s: State, id: Id, status: string, note: Option<string>)
    requires Inv(cardOf, s)
    ensures Inv(cardOf, SetStatus(s, id, status, note).0)
  {
    var to := ParseStatus(status);
    if id in s.copies && to.Some? {
      WithStatusKeepsInv(cardOf, s, id, to.value, note);
    }
  }

  lemma MoveToKeepsInv(cardOf: map<string, string>, s: State, id: Id, binder: Option<Id>, deck: Option<Id>,
                       note: Option<string>)
    requires Inv(cardOf, s)
    ensures Inv(cardOf, MoveTo(s, id, binder, deck, note).0)
  {
    if MoveRefusal(s, id, Place(binder, deck)).None? {
      WithPlaceKeepsInv(cardOf, s, id, Place(binder, deck), note);
    }
  }

  lemma DeleteLatestKeepsInv(cardOf: map<string, string>, s: State, printing: string)
    requires Inv(cardOf, s)
    ensures Inv(cardOf, DeleteLatest(s, printing).0)
  {
    if exists id :: IsLatest(s, printing, id) {
      var id :| IsLatest(s, printing, id) && DeleteLatest(s, printing) == Delete(s, id);
      DeleteKeepsInv(cardOf, s, id);
    }
  }

  lemma ChangePrintingKeepsInv(cardOf: map<string, string>, s: State, id: Id, printing: string)
    requires Inv(cardOf, s)
    ensures Inv(cardOf, ChangePrinting(cardOf, s, id, printing).0)
  {
    if id in s.copies && printing in cardOf {
      assert RowFits(s, s.copies[id]);
      RewritingARowKeepsInv(cardOf, s, id, s.copies[id].(printing := printing));
    }
  }

  lemma CreateDeckKeepsInv(cardOf: map<string, string>, s: State, name: string, state: Option<string>,
                           group: Option<Id>)
    requires Inv(cardOf, s)
    ensures Inv(cardOf, CreateDeck(s, name, state, group).0)
  {
    var t := CreateDeck(s, name, state, group);
    if t.1.Ok? {
      PuttingADeckKeepsInv(cardOf, s, s.nextDeck, t.0.decks[s.nextDeck], s.nextDeck + 1);
    }
  }

  lemma UpdateDeckKeepsInv(cardOf: map<string, string>, s: State, id: Id, name: Option<string>,
                           state: Option<string>)
    requires Inv(cardOf, s)
    ensures Inv(cardOf, UpdateDeck(s, id, name, state).0)
  {
    if id in s.decks {
      PuttingADeckKeepsInv(cardOf, s, id, UpdateDeck(s, id, name, state).0.decks[id], s.nextDeck);
    }
  }

  lemma SetGroupKeepsInv(cardOf: map<string, string>, s: State, id: Id, group: Option<Id>)
    requires Inv(cardOf, s)
    ensures Inv(cardOf, SetGroup(s, id, group).0)
  {
    if id in s.decks && Live(group, s.groups.Keys) {
      PuttingADeckKeepsInv(cardOf, s, id, s.decks[id].(group := group), s.nextDeck);
    }
  }

  lemma CreateGroupKeepsInv(cardOf: map<string, string>, s: State, name: string)
    requires Inv(cardOf, s)
    ensures Inv(cardOf, CreateGroup(s, name).0)
  {
    if NameProblem(s, name, None).None? {
      PuttingAGroupKeepsInv(cardOf, s, s.nextGroup, name, s.nextGroup + 1);
    }
  }

  lemma UpdateGroupKeepsInv(cardOf: map<string, string>, s: State, id: Id, name: Option<string>)
    requires Inv(cardOf, s)
    ensures Inv(cardOf, UpdateGroup(s, id, name).0)
  {
    var t := UpdateGroup(s, id, name);
    if id in s.groups && t.1.Ok? {
      PuttingAGroupKeepsInv(cardOf, s, id, t.0.groups[id], s.nextGroup);
    }
  }

  lemma ReleaseAllKeepsInv(cardOf: map<string, string>, s: State, id: Id)
    requires Inv(cardOf, s)
    ensures Inv(cardOf, ReleaseAll(s, id).0)
  {
    ReleaseKeepsInv(cardOf, s, CopiesIn(s, DecksOf(s, id)));
  }

  lemma RowStepKeepsInv(cardOf: map<string, string>, s: State, op: Op)
    requires Inv(cardOf, s) && (op.OpAdd? || op.OpUpdate? || op.OpSetStatus? || op.OpMoveTo?)
    ensures Inv(cardOf, Step(cardOf, s, op))
  {
    match op
    case OpAdd(copy) => AddKeepsInv(cardOf, s, copy);
    case OpUpdate(id, edit) => UpdateKeepsInv(cardOf, s, id, edit);
    case OpSetStatus(id, status, note) => SetStatusKeepsInv(cardOf, s, id, status, note);
    case OpMoveTo(id, binder, deck, note) => MoveToKeepsInv(cardOf, s, id, binder, deck, note);
  }

  lemma CopyStepKeepsInv(cardOf: map<string, string>, s: State, op: Op)
    requires Inv(cardOf, s) && (op.OpDelete? || op.OpDeleteLatest? || op.OpChangePrinting?)
    ensures Inv(cardOf, Step(cardOf, s, op))
  {
    match op
    case OpDelete(id) => DeleteKeepsInv(cardOf, s, id);
    case OpDeleteLatest(printing) => DeleteLatestKeepsInv(cardOf, s, printing);
    case OpChangePrinting(id, printing) => ChangePrintingKeepsInv(cardOf, s, id, printing);
  }

  lemma DeckStepKeepsInv(cardOf: map<string, string>, s: State, op: Op)
    requires Inv(cardOf, s) && (op.OpCreateDeck? || op.OpUpdateDeck? || op.OpSetGroup? || op.OpDeleteDeck?)
    ensures Inv(cardOf, Step(cardOf, s, op))
  {
    match op
    case OpCreateDeck(name, state, group) => CreateDeckKeepsInv(cardOf, s, name, state, group);
    case OpUpdateDeck(id, name, state) => UpdateDeckKeepsInv(cardOf, s, id, name, state);
    case OpSetGroup(id, group) => SetGroupKeepsInv(cardOf, s, id, group);
    case OpDeleteDeck(id) => ForgettingDecksKeepsInv(cardOf, s, {id});
  }

  lemma GroupStepKeepsInv(cardOf: map<string, string>, s: State, op: Op)
    requires Inv(cardOf, s) && (op.OpCreateGroup? || op.OpUpdateGroup? || op.OpReleaseAll? || op.OpDeleteGroup?)
    ensures Inv(cardOf, Step(cardOf, s, op))
  {
    match op
    case OpCreateGroup(name) => CreateGroupKeepsInv(cardOf, s, name);
    case OpUpdateGroup(id, name) => UpdateGroupKeepsInv(cardOf, s, id, name);
    case OpReleaseAll(id) => ReleaseAllKeepsInv(cardOf, s, id);
    case OpDeleteGroup(id, mode) => DeleteGroupKeepsInv(cardOf, s, id, mode);
  }

  /** Every operation, whether it succeeds or is refused, keeps the invariant. */
  lemma StepKeepsInv(cardOf: map<string, string>, s: State, op: Op)
    requires Inv(cardOf, s)
    ensures Inv(cardOf, Step(cardOf, s, op))
  {
    if op.OpAdd? || op.OpUpdate? || op.OpSetStatus? || op.OpMoveTo? {
      RowStepKeepsInv(cardOf, s, op);
    } else if op.OpDelete? || op.OpDeleteLatest? || op.OpChangePrinting? {
      CopyStepKeepsInv(cardOf, s, op);
    } else if op.OpCreateDeck? || op.OpUpdateDeck? || op.OpSetGroup? || op.OpDeleteDeck? {
      DeckStepKeepsInv(cardOf, s, op);
    } else if op.OpCreateGroup? || op.OpUpdateGroup? || op.OpReleaseAll? || op.OpDeleteGroup? {
      GroupStepKeepsInv(cardOf, s, op);
    } else if op.OpCreateBinder? {
      CreateBinderKeepsInv(cardOf, s);
    } else if op.OpDeleteBinder? {
      DeleteBinderKeepsInv(cardOf, s, op.id);
    } else {
      CreateBatchKeepsInv(cardOf, s, op.batch);
    }
  }

  /** No copy is ever in a binder and a deck at once, every reference points at a live row and
      every status history is whole, after any run of operations on a new collection. */
  lemma {:induction false} RunKeepsInv(cardOf: map<string, string>, s: State, ops: seq<Op>)
    requires Inv(cardOf, s)
    ensures Inv(cardOf, Run(cardOf, s, ops))
    decreases |ops|
  {
    if ops != [] {
      StepKeepsInv(cardOf, s, ops[0]);
      RunKeepsInv(cardOf, Step(cardOf, s, ops[0]), ops[1..]);
    }
  }

  // ----- Group names -----

  /** A name is accepted exactly when it is not blank and, put in the table under its id, keeps the names
      unique. */
  lemma AcceptedNamesStayUnique(s: State, name: string, id: Id, except: Option<Id>)
    requires GroupsOk(s.groups)
    requires if except.Some? then id == except.value else id !in s.groups
    ensures NameProblem(s, name, except).None?
       <==> Text.Trim(name) != "" && GroupsOk(s.groups[id := name])
  {
    Text.BlankText(name);
    if exists g | g in s.groups :: s.groups[g] == name && Some(g) != except {
      var g :| g in s.groups && s.groups[g] == name && Some(g) != except;
      assert g in s.groups[id := name] && id in s.groups[id := name];
    }
  }
}
