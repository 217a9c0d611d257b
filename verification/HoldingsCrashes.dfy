/** A deck deletion is three statements outside a transaction: blank the deck in the from column of the
    log, blank it in the to column, delete the row. What the log is worth when the process dies between
    two of them, and when it is whole again. */
module HoldingsCrashes {
  import opened Wrappers
  import opened Holdings
  import opened HoldingsAudit

  /** A log after the first UPDATE alone. */
  function BlankedFrom(log: seq<Move>, deck: Id): (r: seq<Move>)
    ensures |r| == |log| && forall i | 0 <= i < |log| :: r[i] == BlankFrom(log[i], deck)
  {
    seq(|log|, i requires 0 <= i < |log| => BlankFrom(log[i], deck))
  }

  /** A log after both UPDATEs. */
  function BlankedBoth(log: seq<Move>, deck: Id): (r: seq<Move>)
    ensures |r| == |log| && forall i | 0 <= i < |log| :: r[i] == BlankTo(BlankFrom(log[i], deck), deck)
  {
    seq(|log|, i requires 0 <= i < |log| => BlankTo(BlankFrom(log[i], deck), deck))
  }

  lemma BothUpdatesForget(log: seq<Move>, deck: Id)
    ensures BlankedBoth(log, deck) == ForgetInLog(log, {deck})
  {
    forall i | 0 <= i < |log| ensures BlankTo(BlankFrom(log[i], deck), deck) == log[i].ForgetDecks({deck}) {}
  }

  // ----- When the chain breaks -----

  /** A death after the first UPDATE breaks the chain of exactly the copies that were logged leaving the
      deck by other than their first entry. */
  lemma DeathAfterOneUpdate(log: seq<Move>, place: Place, deck: Id)
    requires Chain(log, place)
    ensures Chain(BlankedFrom(log, deck), place) <==> forall i | 0 < i < |log| :: log[i].from.deck != Some(deck)
  {
    var blanked := BlankedFrom(log, deck);
    if Chain(blanked, place) {
      forall i | 0 < i < |log| ensures log[i].from.deck != Some(deck) {
        assert blanked[i].from == blanked[i - 1].to == log[i].from;
      }
    }
  }

  /** A death after both UPDATEs breaks the chain of exactly the logged copies still in the deck. */
  lemma DeathAfterTwoUpdates(log: seq<Move>, place: Place, deck: Id)
    requires Chain(log, place)
    ensures Chain(BlankedBoth(log, deck), place) <==> place.deck != Some(deck) || log == []
  {
    BothUpdatesForget(log, deck);
    ForgettingOnlyInTheLog(log, place, deck);
  }

  // ----- Runs with deaths -----

  /** A whole operation, or a deck deletion that died after one UPDATE or after both. */
  datatype Event = Whole(op: Op) | DiedAfterOne(deck: Id) | DiedAfterTwo(deck: Id)

  function BlankLogs(moves: map<Id, seq<Move>>, deck: Id, both: bool): map<Id, seq<Move>> {
    map c | c in moves :: if both then BlankedBoth(moves[c], deck) else BlankedFrom(moves[c], deck)
  }

  ghost function Next(cardOf: map<string, string>, s: State, e: Event): State {
    match e
    case Whole(op) => Step(cardOf, s, op)
    case DiedAfterOne(deck) => s.(moves := BlankLogs(s.moves, deck, false))
    case DiedAfterTwo(deck) => s.(moves := BlankLogs(s.moves, deck, true))
  }

  ghost function RunThrough(cardOf: map<string, string>, s: State, events: seq<Event>): State
    decreases |events|
  {
    if events == [] then s else RunThrough(cardOf, Next(cardOf, s, events[0]), events[1..])
  }

  /** The decks whose deletion has begun and not been finished. */
  ghost function Begun(cardOf: map<string, string>, s: State, begun: set<Id>, e: Event): set<Id> {
    match e
    case Whole(op) =>
      begun - (s.decks.Keys - Step(cardOf, s, op).decks.Keys) - (if op.OpDeleteDeck? then {op.id} else {})
    case DiedAfterOne(deck) => begun + {deck}
    case DiedAfterTwo(deck) => begun + {deck}
  }

  ghost function Unfinished(cardOf: map<string, string>, s: State, begun: set<Id>, events: seq<Event>): set<Id>
    decreases |events|
  {
    if events == [] then begun
    else Unfinished(cardOf, Next(cardOf, s, events[0]), Begun(cardOf, s, begun, events[0]), events[1..])
  }

  /** The same run had no deletion died. */
  function Undisturbed(events: seq<Event>): seq<Op> {
    if events == [] then []
    else (if events[0].Whole? then [events[0].op] else []) + Undisturbed(events[1..])
  }

  // ----- Logs that agree but for some decks -----

  predicate LogsAlike(a: map<Id, seq<Move>>, b: map<Id, seq<Move>>, decks: set<Id>) {
    && a.Keys == b.Keys
    && forall c | c in a && c in b :: ForgetInLog(a[c], decks) == ForgetInLog(b[c], decks)
  }

  /** Everything but the log is the same. */
  ghost predicate Alike(s: State, t: State, decks: set<Id>) {
    s == t.(moves := s.moves) && LogsAlike(s.moves, t.moves, decks)
  }

  lemma ForgetTwice(log: seq<Move>, d: set<Id>, e: set<Id>)
    ensures ForgetInLog(ForgetInLog(log, d), e) == ForgetInLog(log, d + e)
  {
    forall p: Place ensures p.Forget({}, d).Forget({}, e) == p.Forget({}, d + e) {}
  }

  lemma ForgetAppends(log: seq<Move>, m: Move, d: set<Id>)
    ensures ForgetInLog(log + [m], d) == ForgetInLog(log, d) + [m.ForgetDecks(d)]
  {
  }

  /** Logs alike but for some decks are alike but for more. */
  lemma AlikeForMore(a: seq<Move>, b: seq<Move>, d: set<Id>, more: set<Id>)
    requires ForgetInLog(a, d) == ForgetInLog(b, d) && d <= more
    ensures ForgetInLog(a, more) == ForgetInLog(b, more)
  {
    ForgetTwice(a, d, more);
    ForgetTwice(b, d, more);
    assert d + more == more;
  }

  lemma BlankingIsInvisible(moves: map<Id, seq<Move>>, deck: Id, both: bool, d: set<Id>)
    requires deck in d
    ensures LogsAlike(BlankLogs(moves, deck, both), moves, d)
  {
    forall c | c in moves ensures ForgetInLog(BlankLogs(moves, deck, both)[c], d) == ForgetInLog(moves[c], d) {
      BlankingOneIsInvisible(moves[c], deck, d);
    }
  }

  lemma BlankingOneIsInvisible(log: seq<Move>, deck: Id, d: set<Id>)
    requires deck in d
    ensures ForgetInLog(BlankedFrom(log, deck), d) == ForgetInLog(log, d)
    ensures ForgetInLog(BlankedBoth(log, deck), d) == ForgetInLog(log, d)
  {
  }

  lemma AlikeChains(a: map<Id, seq<Move>>, b: map<Id, seq<Move>>, c: map<Id, seq<Move>>, d: set<Id>)
    requires LogsAlike(a, b, d) && LogsAlike(b, c, d)
    ensures LogsAlike(a, c, d)
  {
  }

  lemma AlikeGrows(a: map<Id, seq<Move>>, b: map<Id, seq<Move>>, d: set<Id>, more: set<Id>)
    requires LogsAlike(a, b, d) && d <= more
    ensures LogsAlike(a, b, more)
  {
    forall c | c in a && c in b ensures ForgetInLog(a[c], more) == ForgetInLog(b[c], more) {
      AlikeForMore(a[c], b[c], d, more);
    }
  }

  // ----- Each operation keeps logs alike -----

  lemma AppendKeepsAlike(a: map<Id, seq<Move>>, b: map<Id, seq<Move>>, id: Id, m: Move, d: set<Id>)
    requires LogsAlike(a, b, d) && id in a
    ensures LogsAlike(a[id := a[id] + [m]], b[id := b[id] + [m]], d)
  {
    ForgetAppends(a[id], m, d);
    ForgetAppends(b[id], m, d);
  }

  lemma ReleaseKeepsAlike(a: map<Id, seq<Move>>, b: map<Id, seq<Move>>, rows: map<Id, Copy>, held: set<Id>,
                          d: set<Id>)
    requires LogsAlike(a, b, d)
    ensures LogsAlike(ReleaseLogs(a, rows, held), ReleaseLogs(b, rows, held), d)
  {
    forall c | c in a && c in held && c in rows
      ensures ForgetInLog(a[c] + [ReleaseEntry(rows[c])], d) == ForgetInLog(b[c] + [ReleaseEntry(rows[c])], d)
    {
      ForgetAppends(a[c], ReleaseEntry(rows[c]), d);
      ForgetAppends(b[c], ReleaseEntry(rows[c]), d);
    }
  }

  /** Finishing a deletion forgets the decks for good, so they need no longer be set aside. */
  lemma ForgetKeepsAlike(a: map<Id, seq<Move>>, b: map<Id, seq<Move>>, gone: set<Id>, d: set<Id>)
    requires LogsAlike(a, b, d)
    ensures LogsAlike(ForgetInLogs(a, gone), ForgetInLogs(b, gone), d - gone)
  {
    forall c | c in a
      ensures ForgetInLog(ForgetInLog(a[c], gone), d - gone) == ForgetInLog(ForgetInLog(b[c], gone), d - gone)
    {
      ForgetTwice(a[c], gone, d - gone);
      ForgetTwice(b[c], gone, d - gone);
      assert gone + (d - gone) == gone + d;
      AlikeForMore(a[c], b[c], d, gone + d);
    }
  }

  lemma BinderNames(log: seq<Move>, binder: Id, d: set<Id>)
    ensures NamesBinder(ForgetInLog(log, d), binder) <==> NamesBinder(log, binder)
  {
    assert forall i | 0 <= i < |log| ::
        ForgetInLog(log, d)[i].from.binder == log[i].from.binder && ForgetInLog(log, d)[i].to.binder == log[i].to.binder;
  }

  /** Which binders the logs pin does not depend on their deck columns. */
  lemma PinnedAlike(s: State, t: State, binder: Id, d: set<Id>)
    requires Alike(s, t, d)
    ensures BinderPinned(s, binder) <==> BinderPinned(t, binder)
  {
    forall c | c in s.moves ensures NamesBinder(s.moves[c], binder) <==> NamesBinder(t.moves[c], binder) {
      BinderNames(s.moves[c], binder, d);
      BinderNames(t.moves[c], binder, d);
    }
  }

  lemma AddAlike(cardOf: map<string, string>, s: State, t: State, d: set<Id>, copy: NewCopy)
    requires Alike(s, t, d)
    ensures Alike(Add(cardOf, s, copy).0, Add(cardOf, t, copy).0, d)
  {
  }

  lemma RowsAlike(s: State, t: State, d: set<Id>, id: Id, edit: CopyEdit, status: string, note: Option<string>)
    requires Alike(s, t, d)
    ensures Alike(Update(s, id, edit).0, Update(t, id, edit).0, d)
    ensures Alike(SetStatus(s, id, status, note).0, SetStatus(t, id, status, note).0, d)
  {
  }

  lemma PrintingAlike(cardOf: map<string, string>, s: State, t: State, d: set<Id>, id: Id, printing: string)
    requires Alike(s, t, d)
    ensures Alike(ChangePrinting(cardOf, s, id, printing).0, ChangePrinting(cardOf, t, id, printing).0, d)
  {
  }

  lemma MoveAlike(s: State, t: State, d: set<Id>, id: Id, to: Place, note: Option<string>)
    requires Alike(s, t, d)
    ensures Alike(MoveTo(s, id, to.binder, to.deck, note).0, MoveTo(t, id, to.binder, to.deck, note).0, d)
  {
    assert Place(to.binder, to.deck) == to;
    if MoveRefusal(s, id, to).None? {
      AppendKeepsAlike(s.moves, t.moves, id, Move(s.copies[id].place, to, note), d);
    }
  }

  lemma DeleteAlike(s: State, t: State, d: set<Id>, id: Id)
    requires Alike(s, t, d)
    ensures Alike(Delete(s, id).0, Delete(t, id).0, d)
  {
  }

  lemma LatestAlike(s: State, t: State, d: set<Id>, printing: string)
    requires Alike(s, t, d)
    ensures Alike(DeleteLatest(s, printing).0, DeleteLatest(t, printing).0, d)
  {
    forall id ensures IsLatest(s, printing, id) <==> IsLatest(t, printing, id) {}
    if exists id :: IsLatest(s, printing, id) {
      var i :| IsLatest(s, printing, i) && DeleteLatest(s, printing) == Delete(s, i);
      var j :| IsLatest(t, printing, j) && DeleteLatest(t, printing) == Delete(t, j);
      assert i <= j && j <= i;
      DeleteAlike(s, t, d, i);
    }
  }

  lemma NewDeckAlike(s: State, t: State, d: set<Id>, name: string, state: Option<string>, group: Option<Id>)
    requires Alike(s, t, d)
    ensures Alike(CreateDeck(s, name, state, group).0, CreateDeck(t, name, state, group).0, d)
  {
  }

  lemma DecksAlike(s: State, t: State, d: set<Id>, id: Id, name: Option<string>, state: Option<string>,
                   group: Option<Id>)
    requires Alike(s, t, d)
    ensures Alike(UpdateDeck(s, id, name, state).0, UpdateDeck(t, id, name, state).0, d)
    ensures Alike(SetGroup(s, id, group).0, SetGroup(t, id, group).0, d)
  {
  }

  lemma NewGroupAlike(s: State, t: State, d: set<Id>, name: string)
    requires Alike(s, t, d)
    ensures Alike(CreateGroup(s, name).0, CreateGroup(t, name).0, d)
  {
  }

  lemma GroupsAlike(s: State, t: State, d: set<Id>, id: Id, name: Option<string>)
    requires Alike(s, t, d)
    ensures Alike(UpdateGroup(s, id, name).0, UpdateGroup(t, id, name).0, d)
  {
  }

  lemma ReleaseAlike(s: State, t: State, d: set<Id>, held: set<Id>)
    requires Alike(s, t, d)
    ensures Alike(Release(s, held), Release(t, held), d)
  {
    ReleaseKeepsAlike(s.moves, t.moves, s.copies, held, d);
  }

  lemma ForgetAlike(s: State, t: State, d: set<Id>, gone: set<Id>)
    requires Alike(s, t, d)
    ensures Alike(ForgetDecks(s, gone), ForgetDecks(t, gone), d - gone)
  {
    ForgetKeepsAlike(s.moves, t.moves, gone, d);
  }

  lemma GroupDeletionAlike(s: State, t: State, d: set<Id>, id: Id, mode: DeleteMode)
    requires Alike(s, t, d)
    ensures var gone := if mode.Decks? && id in s.groups then DecksOf(s, id) else {};
            Alike(DeleteGroup(s, id, mode).0, DeleteGroup(t, id, mode).0, d - gone)
  {
    if mode.Decks? && id in s.groups {
      var decks := DecksOf(s, id);
      var held := CopiesIn(s, decks);
      ReleaseAlike(s, t, d, held);
      ForgetAlike(Release(s, held), Release(t, held), d, decks);
    } else {
      assert d - {} == d;
    }
  }

  lemma BinderDeletionAlike(s: State, t: State, d: set<Id>, id: Id)
    requires Alike(s, t, d)
    ensures Alike(DeleteBinder(s, id).0, DeleteBinder(t, id).0, d)
  {
    PinnedAlike(s, t, id, d);
  }

  lemma NewRowsAlike(s: State, t: State, d: set<Id>, batch: Batch)
    requires Alike(s, t, d)
    ensures Alike(CreateBinder(s).0, CreateBinder(t).0, d)
    ensures Alike(CreateBatch(s, batch).0, CreateBatch(t, batch).0, d)
  {
  }

  // ----- Over a run -----

  predicate DeletesDecks(op: Op) {
    op.OpDeleteDeck? || (op.OpDeleteGroup? && op.mode.Decks?)
  }

  lemma NoDeckGoes(cardOf: map<string, string>, s: State, op: Op)
    requires !DeletesDecks(op)
    ensures s.decks.Keys <= Step(cardOf, s, op).decks.Keys
  {
  }

  lemma RowStepAlike(cardOf: map<string, string>, s: State, t: State, d: set<Id>, op: Op)
    requires Alike(s, t, d)
    requires op.OpAdd? || op.OpUpdate? || op.OpSetStatus? || op.OpMoveTo? || op.OpDelete? || op.OpDeleteLatest?
          || op.OpChangePrinting?
    ensures Alike(Step(cardOf, s, op), Step(cardOf, t, op), d)
  {
    match op
    case OpAdd(copy) => AddAlike(cardOf, s, t, d, copy);
    case OpUpdate(id, edit) => RowsAlike(s, t, d, id, edit, "", None);
    case OpSetStatus(id, status, note) =>
      RowsAlike(s, t, d, id, CopyEdit(None, None, None, None, None, None, None, None, None, None), status, note);
    case OpMoveTo(id, binder, deck, note) => MoveAlike(s, t, d, id, Place(binder, deck), note);
    case OpDelete(id) => DeleteAlike(s, t, d, id);
    case OpDeleteLatest(printing) => LatestAlike(s, t, d, printing);
    case OpChangePrinting(id, printing) => PrintingAlike(cardOf, s, t, d, id, printing);
  }

  predicate OnDecks(op: Op) {
    op.OpCreateDeck? || op.OpUpdateDeck? || op.OpSetGroup?
  }

  predicate OnGroups(op: Op) {
    op.OpCreateGroup? || op.OpUpdateGroup? || op.OpReleaseAll? || (op.OpDeleteGroup? && op.mode.Ungroup?)
  }

  lemma DeckStepAlike(cardOf: map<string, string>, s: State, t: State, d: set<Id>, op: Op)
    requires Alike(s, t, d) && OnDecks(op)
    ensures Alike(Step(cardOf, s, op), Step(cardOf, t, op), d)
  {
    match op
    case OpCreateDeck(name, state, group) => NewDeckAlike(s, t, d, name, state, group);
    case OpUpdateDeck(id, name, state) => DecksAlike(s, t, d, id, name, state, None);
    case OpSetGroup(id, group) => DecksAlike(s, t, d, id, None, None, group);
  }

  lemma UngroupStepAlike(cardOf: map<string, string>, s: State, t: State, d: set<Id>, id: Id)
    requires Alike(s, t, d)
    ensures Alike(Step(cardOf, s, OpDeleteGroup(id, Ungroup)), Step(cardOf, t, OpDeleteGroup(id, Ungroup)), d)
  {
    GroupDeletionAlike(s, t, d, id, Ungroup);
    assert d - {} == d;
  }

  lemma ReleaseStepAlike(cardOf: map<string, string>, s: State, t: State, d: set<Id>, id: Id)
    requires Alike(s, t, d)
    ensures Alike(Step(cardOf, s, OpReleaseAll(id)), Step(cardOf, t, OpReleaseAll(id)), d)
  {
    ReleaseAlike(s, t, d, CopiesIn(s, DecksOf(s, id)));
  }

  lemma GroupStepAlike(cardOf: map<string, string>, s: State, t: State, d: set<Id>, op: Op)
    requires Alike(s, t, d) && OnGroups(op)
    ensures Alike(Step(cardOf, s, op), Step(cardOf, t, op), d)
  {
    match op
    case OpCreateGroup(name) => NewGroupAlike(s, t, d, name);
    case OpUpdateGroup(id, name) => GroupsAlike(s, t, d, id, name);
    case OpReleaseAll(id) => ReleaseStepAlike(cardOf, s, t, d, id);
    case OpDeleteGroup(id, mode) => UngroupStepAlike(cardOf, s, t, d, id);
  }

  lemma NewRowStepsAlike(cardOf: map<string, string>, s: State, t: State, d: set<Id>, batch: Batch)
    requires Alike(s, t, d)
    ensures Alike(Step(cardOf, s, OpCreateBinder), Step(cardOf, t, OpCreateBinder), d)
    ensures Alike(Step(cardOf, s, OpCreateBatch(batch)), Step(cardOf, t, OpCreateBatch(batch)), d)
  {
    NewRowsAlike(s, t, d, batch);
  }

  lemma BinderStepAlike(cardOf: map<string, string>, s: State, t: State, d: set<Id>, id: Id)
    requires Alike(s, t, d)
    ensures Alike(Step(cardOf, s, OpDeleteBinder(id)), Step(cardOf, t, OpDeleteBinder(id)), d)
  {
    BinderDeletionAlike(s, t, d, id);
  }

  lemma DeletingStepAlike(cardOf: map<string, string>, s: State, t: State, d: set<Id>, op: Op)
    requires Alike(s, t, d) && DeletesDecks(op)
    ensures Alike(Step(cardOf, s, op), Step(cardOf, t, op), Begun(cardOf, s, d, Whole(op)))
  {
    var s', t' := Step(cardOf, s, op), Step(cardOf, t, op);
    var left := Begun(cardOf, s, d, Whole(op));
    if op.OpDeleteDeck? {
      ForgetAlike(s, t, d, {op.id});
      assert d - {op.id} <= left;
      AlikeGrows(s'.moves, t'.moves, d - {op.id}, left);
    } else {
      var gone := if op.id in s.groups then DecksOf(s, op.id) else {};
      GroupDeletionAlike(s, t, d, op.id, op.mode);
      if op.id in s.groups {
        GroupDeletionTables(s, op.id, op.mode);
      }
      assert d - gone <= left;
      AlikeGrows(s'.moves, t'.moves, d - gone, left);
    }
  }

  lemma NextAlike(cardOf: map<string, string>, s: State, t: State, d: set<Id>, op: Op)
    requires Alike(s, t, d)
    ensures Alike(Step(cardOf, s, op), Step(cardOf, t, op), Begun(cardOf, s, d, Whole(op)))
  {
    if DeletesDecks(op) {
      DeletingStepAlike(cardOf, s, t, d, op);
    } else {
      NoDeckGoes(cardOf, s, op);
      if op.OpCreateBinder? || op.OpCreateBatch? {
        NewRowStepsAlike(cardOf, s, t, d, if op.OpCreateBatch? then op.batch else Batch("", None, None));
      } else if op.OpDeleteBinder? {
        BinderStepAlike(cardOf, s, t, d, op.id);
      } else if OnDecks(op) {
        DeckStepAlike(cardOf, s, t, d, op);
      } else if OnGroups(op) {
        GroupStepAlike(cardOf, s, t, d, op);
      } else {
        RowStepAlike(cardOf, s, t, d, op);
      }
      assert Begun(cardOf, s, d, Whole(op)) == d;
    }
  }

  lemma DeathAlike(s: State, t: State, d: set<Id>, deck: Id, both: bool)
    requires Alike(s, t, d)
    ensures Alike(s.(moves := BlankLogs(s.moves, deck, both)), t, d + {deck})
  {
    BlankingIsInvisible(s.moves, deck, both, d + {deck});
    AlikeGrows(s.moves, t.moves, d, d + {deck});
    AlikeChains(BlankLogs(s.moves, deck, both), s.moves, t.moves, d + {deck});
  }

  /** A run in which deck deletions die differs from the same run without those deaths in nothing but the
      deck columns, for decks whose deletion is still unfinished, of the log. */
  lemma {:induction false} DeathsFade(cardOf: map<string, string>, s: State, t: State, d: set<Id>, events: seq<Event>)
    requires Alike(s, t, d)
    ensures Alike(RunThrough(cardOf, s, events), Run(cardOf, t, Undisturbed(events)),
                  Unfinished(cardOf, s, d, events))
    decreases |events|
  {
    if events != [] {
      var e := events[0];
      var s', d' := Next(cardOf, s, e), Begun(cardOf, s, d, e);
      match e {
        case Whole(op) =>
          NextAlike(cardOf, s, t, d, op);
          DeathsFade(cardOf, s', Step(cardOf, t, op), d', events[1..]);
          assert ([op] + Undisturbed(events[1..]))[1..] == Undisturbed(events[1..]);
        case DiedAfterOne(deck) =>
          DeathAlike(s, t, d, deck, false);
          DeathsFade(cardOf, s', t, d', events[1..]);
          assert [] + Undisturbed(events[1..]) == Undisturbed(events[1..]);
        case DiedAfterTwo(deck) =>
          DeathAlike(s, t, d, deck, true);
          DeathsFade(cardOf, s', t, d', events[1..]);
          assert [] + Undisturbed(events[1..]) == Undisturbed(events[1..]);
      }
    }
  }

  lemma ForgottenChain(log: seq<Move>, place: Place, decks: set<Id>)
    requires Chain(log, place)
    ensures Chain(ForgetInLog(log, decks), place.Forget({}, decks))
  {
  }

  /** From a new collection, over every run in which deck deletions may die between any two of their
      statements: each copy's log is still a chain once the decks with an unfinished deletion are left out
      of it, and is a whole chain again when every deletion that died has been repeated. */
  lemma TheLogHeals(cardOf: map<string, string>, orders: set<Id>, events: seq<Event>, c: Id)
    requires c in RunThrough(cardOf, Fresh(orders), events).copies
    ensures var s, open := RunThrough(cardOf, Fresh(orders), events),
                           Unfinished(cardOf, Fresh(orders), {}, events);
            && c in s.moves
            && Chain(ForgetInLog(s.moves[c], open), s.copies[c].place.Forget({}, open))
            && (open == {} ==> Chain(s.moves[c], s.copies[c].place))
  {
    var s, t := RunThrough(cardOf, Fresh(orders), events), Run(cardOf, Fresh(orders), Undisturbed(events));
    var open := Unfinished(cardOf, Fresh(orders), {}, events);
    DeathsFade(cardOf, Fresh(orders), Fresh(orders), {}, events);
    LogIsTheTrail(cardOf, orders, Undisturbed(events), c);
    ForgottenChain(t.moves[c], t.copies[c].place, open);
    ForgettingNone(s.moves[c], s.copies[c].place);
  }

  lemma ForgettingNone(log: seq<Move>, place: Place)
    ensures ForgetInLog(log, {}) == log && place.Forget({}, {}) == place
  {
    forall p: Place ensures p.Forget({}, {}) == p {}
  }

  // ----- Repeating the deletion -----

  /** A deletion repeated after a death is the deletion without the death. */
  lemma RetryFinishes(cardOf: map<string, string>, s: State, deck: Id)
    ensures DeleteDeck(Next(cardOf, s, DiedAfterOne(deck)), deck) == DeleteDeck(s, deck)
    ensures DeleteDeck(Next(cardOf, s, DiedAfterTwo(deck)), deck) == DeleteDeck(s, deck)
  {
    forall both: bool ensures ForgetInLogs(BlankLogs(s.moves, deck, both), {deck}) == ForgetInLogs(s.moves, {deck}) {
      BlankingIsInvisible(s.moves, deck, both, {deck});
    }
  }

  /** Decks forgotten one after another are forgotten together. */
  lemma ForgettingAddsUp(s: State, d: set<Id>, id: Id)
    ensures DeleteDeck(ForgetDecks(s, d), id).0 == ForgetDecks(s, d + {id})
  {
    forall c | c in s.moves ensures ForgetInLog(ForgetInLog(s.moves[c], d), {id}) == ForgetInLog(s.moves[c], d + {id}) {
      ForgetTwice(s.moves[c], d, {id});
    }
    forall p: Place ensures p.Forget({}, d).Forget({}, {id}) == p.Forget({}, d + {id}) {}
    var once, both := ForgetDecks(s, d + {id}), DeleteDeck(ForgetDecks(s, d), id).0;
    assert once.copies == both.copies;
    assert once.moves == both.moves;
    assert once.decks == both.decks;
  }

  function Deletions(decks: seq<Id>): seq<Op> {
    seq(|decks|, i requires 0 <= i < |decks| => OpDeleteDeck(decks[i]))
  }

  function AmongThem(decks: seq<Id>): (r: set<Id>)
    ensures forall d :: d in r <==> d in decks
  {
    set d | d in decks
  }

  lemma OneMoreDeck(decks: seq<Id>)
    requires decks != []
    ensures var front, last := decks[..|decks| - 1], decks[|decks| - 1];
            && Deletions(decks) == Deletions(front) + [OpDeleteDeck(last)]
            && AmongThem(decks) == AmongThem(front) + {last}
  {
    var front, last := decks[..|decks| - 1], decks[|decks| - 1];
    assert decks == front + [last];
  }

  lemma DeletionStep(cardOf: map<string, string>, s: State, id: Id)
    ensures Step(cardOf, s, OpDeleteDeck(id)) == DeleteDeck(s, id).0
  {
  }

  lemma {:induction false} DeletionsForget(cardOf: map<string, string>, s: State, decks: seq<Id>)
    ensures Run(cardOf, s, Deletions(decks)) == ForgetDecks(s, AmongThem(decks))
  {
    if decks == [] {
      ForgettingNoDeck(s);
      assert AmongThem(decks) == {} && Deletions(decks) == [];
    } else {
      var front, last := decks[..|decks| - 1], decks[|decks| - 1];
      OneMoreDeck(decks);
      DeletionsForget(cardOf, s, front);
      RunSnoc(cardOf, s, Deletions(front), OpDeleteDeck(last));
      DeletionStep(cardOf, ForgetDecks(s, AmongThem(front)), last);
      ForgettingAddsUp(s, AmongThem(front), last);
    }
  }

  lemma ForgettingNoDeck(s: State)
    ensures ForgetDecks(s, {}) == s
  {
    forall c | c in s.moves ensures ForgetInLog(s.moves[c], {}) == s.moves[c] {
      ForgettingNone(s.moves[c], LOOSE);
    }
    forall p: Place ensures p.Forget({}, {}) == p {}
    assert ForgetInRows(s.copies, {}, {}) == s.copies;
    assert ForgetInLogs(s.moves, {}) == s.moves;
    assert s.decks - {} == s.decks;
  }

  lemma RunStartsWith(cardOf: map<string, string>, s: State, op: Op, ops: seq<Op>)
    ensures Run(cardOf, s, [op] + ops) == Run(cardOf, Step(cardOf, s, op), ops)
  {
    assert ([op] + ops)[1..] == ops;
  }

  /** A group deletion that takes its decks along is a release, the deletions of the group's decks in any
      order, and the removal of the group: dying between two of them leaves what those before it do. */
  lemma GroupDeletionIsARun(cardOf: map<string, string>, s: State, id: Id, decks: seq<Id>)
    requires id in s.groups && AmongThem(decks) == DecksOf(s, id)
    ensures DeleteGroup(s, id, Decks).0 == DropGroup(Run(cardOf, s, [OpReleaseAll(id)] + Deletions(decks)), id)
  {
    RunStartsWith(cardOf, s, OpReleaseAll(id), Deletions(decks));
    ReleaseStep(cardOf, s, id);
    DeletionsForget(cardOf, ReleaseAll(s, id).0, decks);
    DeletionClears(s, id);
  }

  lemma ReleaseStep(cardOf: map<string, string>, s: State, id: Id)
    ensures Step(cardOf, s, OpReleaseAll(id)) == ReleaseAll(s, id).0
  {
  }

  lemma DeletionClears(s: State, id: Id)
    requires id in s.groups
    ensures DeleteGroup(s, id, Decks).0 == DropGroup(ForgetDecks(ReleaseAll(s, id).0, DecksOf(s, id)), id)
  {
  }

  // ----- The broken states are reached -----

  function Plain(printing: string): NewCopy {
    NewCopy(printing, None, None, None, None, "manual", None, None, None, None, None, None)
  }

  /** Make a deck, add a copy, put it into the deck and, perhaps, take it out again. */
  function Prefix(printing: string, back: bool): seq<Event> {
    [Whole(OpCreateDeck("deck", None, None)), Whole(OpAdd(Plain(printing))),
     Whole(OpMoveTo(1, None, Some(1), None))]
    + if back then [Whole(OpMoveTo(1, None, None, None))] else []
  }

  ghost predicate Broken(s: State, c: Id) {
    c in s.copies && c in s.moves && !Chain(s.moves[c], s.copies[c].place)
  }

  lemma {:induction false} RunThroughSplits(cardOf: map<string, string>, s: State, xs: seq<Event>, ys: seq<Event>)
    ensures RunThrough(cardOf, s, xs + ys) == RunThrough(cardOf, RunThrough(cardOf, s, xs), ys)
    decreases |xs|
  {
    if xs == [] {
      assert xs + ys == ys;
    } else {
      assert (xs + ys)[1..] == xs[1..] + ys;
      RunThroughSplits(cardOf, Next(cardOf, s, xs[0]), xs[1..], ys);
    }
  }

  lemma RunOne(cardOf: map<string, string>, s: State, e: Event)
    ensures RunThrough(cardOf, s, [e]) == Next(cardOf, s, e)
  {
    assert [e][1..] == [];
    assert RunThrough(cardOf, Next(cardOf, s, e), []) == Next(cardOf, s, e);
  }

  lemma InTheDeck(cardOf: map<string, string>, orders: set<Id>, printing: string)
    requires printing in cardOf
    ensures var s := RunThrough(cardOf, Fresh(orders), Prefix(printing, false));
            && 1 in s.copies && 1 in s.moves && s.copies[1].place == Place(None, Some(1))
            && s.moves[1] == [Move(LOOSE, Place(None, Some(1)), None)]
  {
    var s1 := CreateDeck(Fresh(orders), "deck", None, None).0;
    var s2 := Add(cardOf, s1, Plain(printing)).0;
    var s3 := MoveTo(s2, 1, None, Some(1), None).0;
    assert s2.copies[1].place == LOOSE && s2.moves[1] == [] && 1 in s2.decks;
    var e := Prefix(printing, false);
    assert e[0] == Whole(OpCreateDeck("deck", None, None));
    assert e[1..][0] == Whole(OpAdd(Plain(printing))) && e[1..][1..] == [e[2]];
    RunOne(cardOf, s2, e[2]);
    assert RunThrough(cardOf, Fresh(orders), e) == RunThrough(cardOf, s1, e[1..]);
  }

  lemma TakenOutAgain(cardOf: map<string, string>, orders: set<Id>, printing: string)
    requires printing in cardOf
    ensures var s := RunThrough(cardOf, Fresh(orders), Prefix(printing, true));
            && 1 in s.copies && 1 in s.moves && s.copies[1].place == LOOSE
            && s.moves[1] == [Move(LOOSE, Place(None, Some(1)), None), Move(Place(None, Some(1)), LOOSE, None)]
  {
    InTheDeck(cardOf, orders, printing);
    var out := Whole(OpMoveTo(1, None, None, None));
    var s := RunThrough(cardOf, Fresh(orders), Prefix(printing, false));
    assert Prefix(printing, true) == Prefix(printing, false) + [out];
    RunThroughSplits(cardOf, Fresh(orders), Prefix(printing, false), [out]);
    RunOne(cardOf, s, out);
    assert Place(None, None) == LOOSE;
  }

  lemma OneMoreEvent(cardOf: map<string, string>, s: State, events: seq<Event>, e: Event)
    ensures RunThrough(cardOf, s, events + [e]) == Next(cardOf, RunThrough(cardOf, s, events), e)
  {
    RunThroughSplits(cardOf, s, events, [e]);
    RunOne(cardOf, RunThrough(cardOf, s, events), e);
  }

  /** What a death does to the log of one copy. */
  lemma DeathBreaks(cardOf: map<string, string>, s: State, deck: Id, c: Id)
    requires c in s.copies && c in s.moves
    ensures Broken(Next(cardOf, s, DiedAfterOne(deck)), c)
       <==> !Chain(BlankedFrom(s.moves[c], deck), s.copies[c].place)
    ensures Broken(Next(cardOf, s, DiedAfterTwo(deck)), c)
       <==> !Chain(BlankedBoth(s.moves[c], deck), s.copies[c].place)
  {
  }

  lemma InTheDeckBreaks(cardOf: map<string, string>, s: State)
    requires 1 in s.copies && 1 in s.moves && s.copies[1].place == Place(None, Some(1))
    requires s.moves[1] == [Move(LOOSE, Place(None, Some(1)), None)]
    ensures !Broken(Next(cardOf, s, DiedAfterOne(1)), 1) && Broken(Next(cardOf, s, DiedAfterTwo(1)), 1)
  {
    DeathBreaks(cardOf, s, 1, 1);
    DeathAfterOneUpdate(s.moves[1], s.copies[1].place, 1);
    DeathAfterTwoUpdates(s.moves[1], s.copies[1].place, 1);
  }

  lemma TakenOutBreaks(cardOf: map<string, string>, s: State)
    requires 1 in s.copies && 1 in s.moves && s.copies[1].place == LOOSE
    requires s.moves[1] == [Move(LOOSE, Place(None, Some(1)), None), Move(Place(None, Some(1)), LOOSE, None)]
    ensures Broken(Next(cardOf, s, DiedAfterOne(1)), 1) && !Broken(Next(cardOf, s, DiedAfterTwo(1)), 1)
  {
    DeathBreaks(cardOf, s, 1, 1);
    DeathAfterOneUpdate(s.moves[1], s.copies[1].place, 1);
    assert s.moves[1][1].from.deck == Some(1);
    DeathAfterTwoUpdates(s.moves[1], s.copies[1].place, 1);
  }

  /** A copy taken out of a deck has a broken log when the deck's deletion dies after its first UPDATE,
      and not when it dies after its second; a copy still in the deck has one when it dies after its
      second, and not when it dies after its first. */
  lemma BrokenLogsAreReached(cardOf: map<string, string>, orders: set<Id>, printing: string)
    requires printing in cardOf
    ensures Broken(RunThrough(cardOf, Fresh(orders), Prefix(printing, true) + [DiedAfterOne(1)]), 1)
    ensures !Broken(RunThrough(cardOf, Fresh(orders), Prefix(printing, true) + [DiedAfterTwo(1)]), 1)
    ensures !Broken(RunThrough(cardOf, Fresh(orders), Prefix(printing, false) + [DiedAfterOne(1)]), 1)
    ensures Broken(RunThrough(cardOf, Fresh(orders), Prefix(printing, false) + [DiedAfterTwo(1)]), 1)
  {
    var loose, inside := Prefix(printing, true), Prefix(printing, false);
    OneMoreEvent(cardOf, Fresh(orders), loose, DiedAfterOne(1));
    OneMoreEvent(cardOf, Fresh(orders), loose, DiedAfterTwo(1));
    OneMoreEvent(cardOf, Fresh(orders), inside, DiedAfterOne(1));
    OneMoreEvent(cardOf, Fresh(orders), inside, DiedAfterTwo(1));
    InTheDeck(cardOf, orders, printing);
    InTheDeckBreaks(cardOf, RunThrough(cardOf, Fresh(orders), inside));
    TakenOutAgain(cardOf, orders, printing);
    TakenOutBreaks(cardOf, RunThrough(cardOf, Fresh(orders), loose));
  }
}
