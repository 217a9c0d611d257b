/** The collection database as the repository code works on it: tables updated in place, one
    statement after another. Each method is proved to do to the tables exactly what the function of
    the same name in `Holdings` does to their value. */
module HoldingsStore {
  import opened Wrappers
  import H = Holdings
  import HoldingsAudit
  import HoldingsInvariant
  import Text
  import opened LogTable

  type Id = H.Id
  type DbError = H.DbError

  function MapRows<T>(log: Table<T>, f: T -> T): (r: Table<T>)
    ensures |r| == |log|
    ensures forall i | 0 <= i < |log| :: r[i] == (log[i].0, f(log[i].1))
  {
    seq(|log|, i requires 0 <= i < |log| => (log[i].0, f(log[i].1)))
  }

  lemma {:induction false} RowsAfterBlanking(log: Table<H.Move>, deck: Id, copy: Id)
    ensures RowsFor(MapRows(MapRows(log, m => H.BlankFrom(m, deck)), m => H.BlankTo(m, deck)), copy)
         == H.ForgetInLog(RowsFor(log, copy), {deck})
  {
    var from := MapRows(log, m => H.BlankFrom(m, deck));
    var both := MapRows(from, m => H.BlankTo(m, deck));
    if log != [] {
      var rest := log[..|log| - 1];
      var last := log[|log| - 1];
      RowsAfterBlanking(rest, deck, copy);
      assert from[..|log| - 1] == MapRows(rest, m => H.BlankFrom(m, deck));
      assert both[..|log| - 1] == MapRows(MapRows(rest, m => H.BlankFrom(m, deck)), m => H.BlankTo(m, deck));
      assert H.BlankTo(H.BlankFrom(last.1, deck), deck) == last.1.ForgetDecks({deck});
    }
  }

  lemma LogsAfterBlanking(log: Table<H.Move>, copies: set<Id>, deck: Id)
    ensures var blanked := MapRows(MapRows(log, m => H.BlankFrom(m, deck)), m => H.BlankTo(m, deck));
            && Logs(blanked, copies) == H.ForgetInLogs(Logs(log, copies), {deck})
            && (RefersInto(log, copies) ==> RefersInto(blanked, copies))
  {
    forall c | c in copies {
      RowsAfterBlanking(log, deck, c);
    }
  }

  class Database {
    const cardOf: map<string, string>
    const orders: set<Id>
    var copies: map<Id, H.Copy>
    var movementLog: Table<H.Move>
    var statusLog: Table<H.StatusChange>
    var decks: map<Id, H.Deck>
    var groups: map<Id, string>
    var binders: set<Id>
    var batches: map<Id, H.Batch>
    var nextCopy: Id
    var nextDeck: Id
    var nextGroup: Id
    var nextBinder: Id
    var nextBatch: Id

    /** The operations that went through, oldest first. */
    ghost var history: seq<H.Op>

    /** The log tables hold rows of live copies only, and ids are not reused. */
    ghost predicate Tables()
      reads this
    {
      && RefersInto(movementLog, copies.Keys)
      && RefersInto(statusLog, copies.Keys)
      && forall c | c in copies :: c < nextCopy
    }

    /** The value of the tables. */
    ghost function View(): H.State
      reads this
    {
      H.State(copies, Logs(movementLog, copies.Keys), Logs(statusLog, copies.Keys), decks, groups, binders, batches,
              orders, nextCopy, nextDeck, nextGroup, nextBinder, nextBatch)
    }

    /** The tables are what the operations on record make of a new collection. */
    ghost predicate Valid()
      reads this
    {
      Tables() && View() == H.Run(cardOf, H.Fresh(orders), history)
    }

    /** So whatever every run keeps holds of the tables, */
    lemma KeepsInv()
      requires Valid()
      ensures HoldingsInvariant.Inv(cardOf, View())
    {
      HoldingsInvariant.RunKeepsInv(cardOf, H.Fresh(orders), history);
    }

    lemma IdsAreFresh()
      requires Valid()
      ensures nextDeck !in decks && nextGroup !in groups && nextBinder !in binders && nextBatch !in batches
    {
      KeepsInv();
    }

    /** and each copy's rows of `movement_log` are a chain that ends where the copy is. */
    lemma KeepsTheTrail(c: Id)
      requires Valid() && c in copies
      ensures HoldingsAudit.Chain(RowsFor(movementLog, c), copies[c].place)
    {
      HoldingsAudit.LogIsTheTrail(cardOf, orders, history, c);
    }

    constructor (cardOf: map<string, string>, orders: set<Id>)
      ensures Valid() && View() == H.Fresh(orders) && this.cardOf == cardOf
    {
      this.cardOf, this.orders := cardOf, orders;
      copies, decks, groups, batches, binders := map[], map[], map[], map[], {};
      movementLog, statusLog, history := [], [], [];
      nextCopy, nextDeck, nextGroup, nextBinder, nextBatch := 1, 1, 1, 1, 1;
    }

    method Add(copy: H.NewCopy) returns (r: Result<Id, DbError>)
      requires Valid()
      modifies this
      ensures Valid()
      ensures (View(), r) == H.Add(cardOf, old(View()), copy)
      ensures r.Ok? ==> r.value !in old(copies)
    {
      if copy.printing !in cardOf {
        return Err(H.NotFound);
      }
      if copy.binder.Some? && copy.deck.Some? {
        return Err(H.Conflict);
      }
      var row := H.NewRow(copy);
      if row.None? || !H.Fits(binders, decks.Keys, orders, batches.Keys, row.value) {
        return Err(H.Constraint);
      }
      var id := nextCopy;
      InsertRow(row.value);
      history := history + [H.OpAdd(copy)];
      Extends(cardOf, orders, old(history), old(View()), H.OpAdd(copy), View());
      r := Ok(id);
    }

    /** The row and the log entry that opens its history, in one transaction. */
    method InsertRow(row: H.Copy)
      requires Tables()
      modifies this`copies, this`statusLog, this`nextCopy
      ensures Tables()
      ensures View() == H.Insert(old(View()), row)
    {
      var opening := H.Opening(row);
      LogsWithANewcomer(movementLog, copies.Keys, nextCopy);
      LogsWithAFirstEntry(statusLog, copies.Keys, nextCopy, opening);
      NewestKey(copies, nextCopy, row);
      statusLog := statusLog + [(nextCopy, opening)];
      copies, nextCopy := copies[nextCopy := row], nextCopy + 1;
    }

    method Update(id: Id, edit: H.CopyEdit) returns (r: Result<bool, DbError>)
      requires Valid()
      modifies this
      ensures Valid()
      ensures (View(), r) == H.Update(old(View()), id, edit)
    {
      if id !in copies {
        return Ok(false);
      }
      var row := H.Edited(copies[id], edit);
      if row.None? {
        return Err(H.Constraint);
      }
      copies := copies[id := row.value];
      assert copies.Keys == old(copies).Keys;
      history := history + [H.OpUpdate(id, edit)];
      Extends(cardOf, orders, old(history), old(View()), H.OpUpdate(id, edit), View());
      r := Ok(true);
    }

    method SetStatus(id: Id, status: string, note: Option<string>) returns (r: Result<bool, DbError>)
      requires Valid()
      modifies this
      ensures Valid()
      ensures (View(), r) == H.SetStatus(old(View()), id, status, note)
    {
      if id !in copies {
        return Err(H.NotFound);
      }
      var to := H.ParseStatus(status);
      if to.None? {
        return Err(H.Constraint);
      }
      PutStatus(id, to.value, note);
      history := history + [H.OpSetStatus(id, status, note)];
      Extends(cardOf, orders, old(history), old(View()), H.OpSetStatus(id, status, note), View());
      r := Ok(true);
    }

    /** The row and its log entry, in one transaction. */
    method PutStatus(id: Id, to: H.Status, note: Option<string>)
      requires Tables() && id in copies
      modifies this`copies, this`statusLog
      ensures Tables()
      ensures View() == H.WithStatus(old(View()), id, to, note)
    {
      var from := copies[id].status;
      copies := copies[id := copies[id].(status := to)];
      assert copies.Keys == old(copies).Keys;
      var change := H.StatusChange(Some(from), to, note);
      LogsAfterAppend(statusLog, copies.Keys, id, change);
      AppendRefersInto(statusLog, copies.Keys, id, change);
      statusLog := statusLog + [(id, change)];
    }

    method MoveTo(id: Id, binder: Option<Id>, deck: Option<Id>, note: Option<string>)
      returns (r: Result<bool, DbError>)
      requires Valid()
      modifies this
      ensures Valid()
      ensures (View(), r) == H.MoveTo(old(View()), id, binder, deck, note)
      ensures r == Ok(true) ==>
                && id in copies && id in old(copies) && copies[id].place == H.Place(binder, deck)
                && movementLog == old(movementLog) + [(id, H.Move(old(copies)[id].place, H.Place(binder, deck), note))]
      ensures r != Ok(true) ==> copies == old(copies) && movementLog == old(movementLog)
    {
      MoveOutcome(cardOf, View(), id, binder, deck, note);
      if binder.Some? && deck.Some? {
        return Err(H.Conflict);
      }
      if id !in copies {
        return Err(H.NotFound);
      }
      if !H.Live(binder, binders) || !H.Live(deck, decks.Keys) {
        return Err(H.Constraint);
      }
      PutPlace(id, H.Place(binder, deck), note);
      history := history + [H.OpMoveTo(id, binder, deck, note)];
      Extends(cardOf, orders, old(history), old(View()), H.OpMoveTo(id, binder, deck, note), View());
      r := Ok(true);
    }

    /** The row and its log entry, in one transaction. */
    method PutPlace(id: Id, to: H.Place, note: Option<string>)
      requires Tables() && id in copies
      modifies this`copies, this`movementLog
      ensures Tables()
      ensures View() == H.WithPlace(old(View()), id, to, note)
      ensures id in copies && copies[id].place == to
      ensures movementLog == old(movementLog) + [(id, H.Move(old(copies)[id].place, to, note))]
    {
      var from := copies[id].place;
      copies := copies[id := copies[id].(place := to)];
      assert copies.Keys == old(copies).Keys;
      var move := H.Move(from, to, note);
      LogsAfterAppend(movementLog, copies.Keys, id, move);
      AppendRefersInto(movementLog, copies.Keys, id, move);
      movementLog := movementLog + [(id, move)];
    }

    method Delete(id: Id) returns (r: Result<bool, DbError>)
      requires Valid()
      modifies this
      ensures Valid()
      ensures (View(), r) == H.Delete(old(View()), id)
    {
      r := Ok(id in copies);
      LogsAfterCascade(movementLog, copies.Keys, id);
      LogsAfterCascade(statusLog, copies.Keys, id);
      copies := copies - {id};
      movementLog, statusLog := Without(movementLog, id), Without(statusLog, id);
      assert copies.Keys == old(copies).Keys - {id};
      history := history + [H.OpDelete(id)];
      Extends(cardOf, orders, old(history), old(View()), H.OpDelete(id), View());
    }

    method DeleteLatest(printing: string) returns (r: Result<bool, DbError>)
      requires Valid()
      modifies this
      ensures Valid()
      ensures (View(), r) == H.DeleteLatest(old(View()), printing)
    {
      var rest := set c | c in copies && copies[c].printing == printing;
      ghost var all := rest;
      assert forall c :: c in all <==> c in View().copies && View().copies[c].printing == printing;
      if rest == {} {
        return Ok(false);
      }
      var id :| id in rest;
      rest := rest - {id};
      while rest != {}
        invariant id in all && rest <= all
        invariant forall c | c in all :: c in rest || c <= id
      {
        var c :| c in rest;
        if id < c {
          id := c;
        }
        rest := rest - {c};
      }
      assert H.IsLatest(View(), printing, id);
      r := Delete(id);
    }

    method ChangePrinting(id: Id, printing: string) returns (r: Result<bool, DbError>)
      requires Valid()
      modifies this
      ensures Valid()
      ensures (View(), r) == H.ChangePrinting(cardOf, old(View()), id, printing)
    {
      if id !in copies {
        return Err(H.NotFound);
      }
      if printing !in cardOf {
        return Err(H.NotFound);
      }
      if H.CardOf(cardOf, copies[id].printing) != H.CardOf(cardOf, printing) {
        return Err(H.Conflict);
      }
      copies := copies[id := copies[id].(printing := printing)];
      assert copies.Keys == old(copies).Keys;
      history := history + [H.OpChangePrinting(id, printing)];
      Extends(cardOf, orders, old(history), old(View()), H.OpChangePrinting(id, printing), View());
      r := Ok(true);
    }

    method CreateDeck(name: string, state: Option<string>, group: Option<Id>)
      returns (r: Result<Id, DbError>)
      requires Valid()
      modifies this
      ensures Valid()
      ensures (View(), r) == H.CreateDeck(old(View()), name, state, group)
      ensures r.Ok? ==> r.value !in old(decks)
    {
      IdsAreFresh();
      var parsed := H.Checked(state, H.ParseDeckState, H.Idea);
      if parsed.None? || !H.Live(group, groups.Keys) {
        return Err(H.Constraint);
      }
      r := Ok(nextDeck);
      decks := decks[nextDeck := H.Deck(name, parsed.value, group)];
      nextDeck := nextDeck + 1;
      history := history + [H.OpCreateDeck(name, state, group)];
      Extends(cardOf, orders, old(history), old(View()), H.OpCreateDeck(name, state, group), View());
    }

    method UpdateDeck(id: Id, name: Option<string>, state: Option<string>)
      returns (r: Result<bool, DbError>)
      requires Valid()
      modifies this
      ensures Valid()
      ensures (View(), r) == H.UpdateDeck(old(View()), id, name, state)
    {
      if id !in decks {
        return Ok(false);
      }
      var parsed := H.Checked(state, H.ParseDeckState, decks[id].state);
      if parsed.None? {
        return Err(H.Constraint);
      }
      decks := decks[id := H.Deck(name.GetOr(decks[id].name), parsed.value, decks[id].group)];
      history := history + [H.OpUpdateDeck(id, name, state)];
      Extends(cardOf, orders, old(history), old(View()), H.OpUpdateDeck(id, name, state), View());
      r := Ok(true);
    }

    method SetGroup(id: Id, group: Option<Id>) returns (r: Result<bool, DbError>)
      requires Valid()
      modifies this
      ensures Valid()
      ensures (View(), r) == H.SetGroup(old(View()), id, group)
    {
      if group.Some? && group.value !in groups {
        return Err(H.NotFound);
      }
      if id !in decks {
        return Ok(false);
      }
      decks := decks[id := decks[id].(group := group)];
      history := history + [H.OpSetGroup(id, group)];
      Extends(cardOf, orders, old(history), old(View()), H.OpSetGroup(id, group), View());
      r := Ok(true);
    }

    /** The two UPDATE statements. */
    method BlankInLog(id: Id)
      requires Tables()
      modifies this`movementLog
      ensures Tables()
      ensures Logs(movementLog, copies.Keys) == H.ForgetInLogs(old(View()).moves, {id})
    {
      LogsAfterBlanking(movementLog, copies.Keys, id);
      movementLog := MapRows(movementLog, m => H.BlankFrom(m, id));
      movementLog := MapRows(movementLog, m => H.BlankTo(m, id));
    }

    method RemoveDeck(id: Id)
      requires Tables()
      modifies this`decks, this`copies
      ensures Tables()
      ensures View() == old(View()).(decks := old(decks) - {id}, copies := H.ForgetInRows(old(copies), {}, {id}))
    {
      decks := decks - {id};
      copies := H.ForgetInRows(copies, {}, {id});
      assert copies.Keys == old(copies).Keys;
    }

    /** Blanks the deck in both columns of the log, then removes its row; the copies' own column is
        set to NULL by the foreign key. */
    method DeleteDeck(id: Id) returns (r: Result<bool, DbError>)
      requires Valid()
      modifies this
      ensures Valid()
      ensures (View(), r) == H.DeleteDeck(old(View()), id)
    {
      r := Ok(id in decks);
      BlankInLog(id);
      RemoveDeck(id);
      history := history + [H.OpDeleteDeck(id)];
      Extends(cardOf, orders, old(history), old(View()), H.OpDeleteDeck(id), View());
    }

    method CreateGroup(name: string) returns (r: Result<Id, DbError>)
      requires Valid()
      modifies this
      ensures Valid()
      ensures (View(), r) == H.CreateGroup(old(View()), name)
      ensures r.Ok? ==> r.value !in old(groups)
    {
      IdsAreFresh();
      var problem := CheckName(name, None);
      Text.BlankText(name);
      if problem.Some? {
        return Err(problem.value);
      }
      r := Ok(nextGroup);
      groups, nextGroup := groups[nextGroup := name], nextGroup + 1;
      history := history + [H.OpCreateGroup(name)];
      Extends(cardOf, orders, old(history), old(View()), H.OpCreateGroup(name), View());
    }

    /** A name is refused as invalid when trimming leaves nothing of it, as a conflict when another group
        has it, and otherwise accepted. */
    method CheckName(name: string, except: Option<Id>) returns (problem: Option<DbError>)
      ensures problem == Some(H.Invalid) <==> Text.Trim(name) == ""
      ensures problem == Some(H.Conflict)
         <==> Text.Trim(name) != "" && exists g | g in groups :: groups[g] == name && Some(g) != except
      ensures problem.Some? ==> problem.value in {H.Invalid, H.Conflict}
    {
      if Text.Trim(name) == "" {
        return Some(H.Invalid);
      }
      if exists g | g in groups :: groups[g] == name && Some(g) != except {
        return Some(H.Conflict);
      }
      problem := None;
    }

    method UpdateGroup(id: Id, name: Option<string>) returns (r: Result<bool, DbError>)
      requires Valid()
      modifies this
      ensures Valid()
      ensures (View(), r) == H.UpdateGroup(old(View()), id, name)
    {
      if name.Some? {
        var problem := CheckName(name.value, Some(id));
        Text.BlankText(name.value);
        if problem.Some? {
          return Err(problem.value);
        }
      }
      if id !in groups {
        return Ok(false);
      }
      groups := groups[id := name.GetOr(groups[id])];
      history := history + [H.OpUpdateGroup(id, name)];
      Extends(cardOf, orders, old(history), old(View()), H.OpUpdateGroup(id, name), View());
      r := Ok(true);
    }

    /** The INSERT ... SELECT of a release: one log row a copy, in whatever order the engine visits
        them. */
    method LogRelease(held: set<Id>)
      requires Tables() && held <= copies.Keys
      modifies this`movementLog
      ensures Tables()
      ensures Logs(movementLog, copies.Keys) == H.ReleaseLogs(old(View()).moves, copies, held)
    {
      ghost var before := Logs(movementLog, copies.Keys);
      ghost var logged: set<Id> := {};
      var rest := held;
      while rest != {}
        invariant logged + rest == held && logged !! rest
        invariant RefersInto(movementLog, copies.Keys)
        invariant Logs(movementLog, copies.Keys) == H.ReleaseLogs(before, copies, logged)
      {
        var c :| c in rest;
        ReleasingOneMore(before, copies, logged, c);
        LogsAfterAppend(movementLog, copies.Keys, c, H.ReleaseEntry(copies[c]));
        AppendRefersInto(movementLog, copies.Keys, c, H.ReleaseEntry(copies[c]));
        movementLog := movementLog + [(c, H.ReleaseEntry(copies[c]))];
        logged, rest := logged + {c}, rest - {c};
      }
      assert logged == held;
    }

    /** The log rows, then the copies' own column. */
    method Release(held: set<Id>)
      requires Tables() && held <= copies.Keys
      modifies this`movementLog, this`copies
      ensures Tables()
      ensures View() == H.Release(old(View()), held)
    {
      LogRelease(held);
      copies := H.ReleaseRows(copies, held);
      assert copies.Keys == old(copies).Keys;
    }

    method ReleaseAll(id: Id) returns (r: Result<nat, DbError>)
      requires Valid()
      modifies this
      ensures Valid()
      ensures (View(), r) == H.ReleaseAll(old(View()), id)
    {
      if id !in groups {
        return Err(H.NotFound);
      }
      var n := ReleaseGroup(id);
      history := history + [H.OpReleaseAll(id)];
      Extends(cardOf, orders, old(history), old(View()), H.OpReleaseAll(id), View());
      r := Ok(n);
    }

    method ReleaseGroup(id: Id) returns (n: nat)
      requires Tables() && id in groups
      modifies this`movementLog, this`copies
      ensures Tables()
      ensures (View(), Ok(n)) == H.ReleaseAll(old(View()), id)
    {
      var inGroup := set d | d in decks && decks[d].group == Some(id);
      var held := set c | c in copies && copies[c].place.deck.Some? && copies[c].place.deck.value in inGroup;
      ReleasingTheGroup(View(), id, inGroup, held);
      Release(held);
      n := |held|;
    }

    /** One deck after another, in the order the query gives them. */
    method DeleteDecks(ids: set<Id>)
      requires Valid()
      modifies this
      ensures Valid()
      ensures View() == H.ForgetDecks(old(View()), ids)
    {
      ghost var before := View();
      var rest := ids;
      ForgettingNoDecks(before);
      assert ids - rest == {};
      while rest != {}
        invariant rest <= ids && Valid()
        invariant View() == H.ForgetDecks(before, ids - rest)
      {
        var d :| d in rest;
        ForgettingInTurn(before, ids - rest, d);
        var _ := DeleteDeck(d);
        assert ids - rest + {d} == ids - (rest - {d});
        rest := rest - {d};
      }
      assert ids - rest == ids;
    }

    method DeleteGroup(id: Id, mode: H.DeleteMode) returns (r: Result<bool, DbError>)
      requires Valid()
      modifies this
      ensures Valid()
      ensures (View(), r) == H.DeleteGroup(old(View()), id, mode)
    {
      if id !in groups {
        return Ok(false);
      }
      if mode.Decks? {
        var _ := ReleaseAll(id);
        var ids := set d | d in decks && decks[d].group == Some(id);
        assert ids == H.DecksOf(old(View()), id);
        DeleteDecks(ids);
      }
      DropGroup(id);
      r := Ok(true);
    }

    method DropGroup(id: Id)
      requires Valid() && id in groups
      modifies this`groups, this`decks, this`history
      ensures Valid()
      ensures View() == H.DropGroup(old(View()), id)
    {
      groups := groups - {id};
      decks := H.Ungrouped(decks, id);
      history := history + [H.OpDeleteGroup(id, H.Ungroup)];
      Extends(cardOf, orders, old(history), old(View()), H.OpDeleteGroup(id, H.Ungroup), View());
    }

    method CreateBinder() returns (r: Result<Id, DbError>)
      requires Valid()
      modifies this
      ensures Valid()
      ensures (View(), r) == H.CreateBinder(old(View()))
      ensures r.Ok? ==> r.value !in old(binders)
    {
      IdsAreFresh();
      r := Ok(nextBinder);
      binders, nextBinder := binders + {nextBinder}, nextBinder + 1;
      history := history + [H.OpCreateBinder];
      Extends(cardOf, orders, old(history), old(View()), H.OpCreateBinder, View());
    }

    method RemoveBinder(id: Id)
      requires Tables()
      modifies this`binders, this`copies
      ensures Tables()
      ensures View() == old(View()).(binders := old(binders) - {id}, copies := H.ForgetInRows(old(copies), {id}, {}))
    {
      binders := binders - {id};
      copies := H.ForgetInRows(copies, {id}, {});
      assert copies.Keys == old(copies).Keys;
    }

    /** Refused while a log row or a batch still names the binder. */
    method DeleteBinder(id: Id) returns (r: Result<bool, DbError>)
      requires Valid()
      modifies this
      ensures Valid()
      ensures (View(), r) == H.DeleteBinder(old(View()), id)
    {
      if id !in binders {
        return Ok(false);
      }
      PinnedByTheLog(movementLog, copies.Keys, id);
      if NamedInLog(movementLog, id) || (exists b | b in batches :: batches[b].binder == Some(id)) {
        return Err(H.Constraint);
      }
      RemoveBinder(id);
      history := history + [H.OpDeleteBinder(id)];
      Extends(cardOf, orders, old(history), old(View()), H.OpDeleteBinder(id), View());
      r := Ok(true);
    }

    method CreateBatch(batch: H.Batch) returns (r: Result<Id, DbError>)
      requires Valid()
      modifies this
      ensures Valid()
      ensures (View(), r) == H.CreateBatch(old(View()), batch)
      ensures r.Ok? ==> r.value !in old(batches)
    {
      IdsAreFresh();
      if !H.Live(batch.order, orders) || !H.Live(batch.binder, binders) {
        return Err(H.Constraint);
      }
      r := Ok(nextBatch);
      batches, nextBatch := batches[nextBatch := batch], nextBatch + 1;
      history := history + [H.OpCreateBatch(batch)];
      Extends(cardOf, orders, old(history), old(View()), H.OpCreateBatch(batch), View());
    }
  }

  lemma Extends(cardOf: map<string, string>, orders: set<Id>, history: seq<H.Op>, before: H.State, op: H.Op,
                after: H.State)
    requires before == H.Run(cardOf, H.Fresh(orders), history) && after == H.Step(cardOf, before, op)
    ensures after == H.Run(cardOf, H.Fresh(orders), history + [op])
  {
    H.RunSnoc(cardOf, H.Fresh(orders), history, op);
  }

  lemma NewestKey(copies: map<Id, H.Copy>, id: Id, row: H.Copy)
    requires forall c | c in copies :: c < id
    ensures copies[id := row].Keys == copies.Keys + {id}
    ensures forall c | c in copies.Keys + {id} :: c < id + 1
  {
  }

  /** A move is refused with nothing changed, or puts the copy where it was asked to. */
  lemma MoveOutcome(cardOf: map<string, string>, s: H.State, id: Id, binder: Option<Id>, deck: Option<Id>,
                    note: Option<string>)
    requires s.moves.Keys == s.copies.Keys
    ensures var to := H.Place(binder, deck);
            H.MoveTo(s, id, binder, deck, note)
            == if binder.Some? && deck.Some? then (s, Err(H.Conflict))
               else if id !in s.copies then (s, Err(H.NotFound))
               else if !H.Live(binder, s.binders) || !H.Live(deck, s.decks.Keys) then (s, Err(H.Constraint))
               else (H.WithPlace(s, id, to, note), Ok(true))
    ensures H.Step(cardOf, s, H.OpMoveTo(id, binder, deck, note)) == H.MoveTo(s, id, binder, deck, note).0
  {
  }

  lemma ForgettingNoDecks(s: H.State)
    ensures H.ForgetDecks(s, {}) == s
  {
    forall p: H.Place ensures p.Forget({}, {}) == p {}
    forall c | c in s.moves ensures H.ForgetInLog(s.moves[c], {}) == s.moves[c] {}
  }

  /** Deleting decks one at a time forgets what deleting them together does. */
  lemma ForgettingInTurn(s: H.State, decks: set<Id>, d: Id)
    ensures H.ForgetDecks(H.ForgetDecks(s, decks), {d}) == H.ForgetDecks(s, decks + {d})
  {
    forall p: H.Place ensures p.Forget({}, decks).Forget({}, {d}) == p.Forget({}, decks + {d}) {}
    forall c | c in s.moves
      ensures H.ForgetInLog(H.ForgetInLog(s.moves[c], decks), {d}) == H.ForgetInLog(s.moves[c], decks + {d})
    {}
  }

  lemma ReleasingTheGroup(s: H.State, id: Id, inGroup: set<Id>, held: set<Id>)
    requires id in s.groups
    requires inGroup == set d | d in s.decks && s.decks[d].group == Some(id)
    requires held == set c | c in s.copies && s.copies[c].place.deck.Some? && s.copies[c].place.deck.value in inGroup
    ensures held <= s.copies.Keys
    ensures H.ReleaseAll(s, id) == (H.Release(s, held), Ok(|held|))
  {
    assert inGroup == H.DecksOf(s, id) && held == H.CopiesIn(s, inGroup);
  }

  lemma ReleasingOneMore(moves: map<Id, seq<H.Move>>, rows: map<Id, H.Copy>, done: set<Id>, c: Id)
    requires c in rows && c in moves && c !in done
    ensures H.ReleaseLogs(moves, rows, done + {c})
         == H.ReleaseLogs(moves, rows, done)[c := H.ReleaseLogs(moves, rows, done)[c] + [H.ReleaseEntry(rows[c])]]
  {}

  predicate NamedInLog(log: Table<H.Move>, binder: Id) {
    exists i | 0 <= i < |log| ::
      log[i].1.from.binder == Some(binder) || log[i].1.to.binder == Some(binder)
  }

  /** A log row names the binder exactly when some copy's rows do. */
  lemma PinnedByTheLog(log: Table<H.Move>, copies: set<Id>, binder: Id)
    requires RefersInto(log, copies)
    ensures NamedInLog(log, binder)
       <==> H.LogsName(Logs(log, copies), binder)
  {
    if NamedInLog(log, binder) {
      var i :| 0 <= i < |log| && (log[i].1.from.binder == Some(binder) || log[i].1.to.binder == Some(binder));
      RowIsListed(log, i);
      assert H.NamesBinder(Logs(log, copies)[log[i].0], binder);
    }
    if c :| c in copies && H.NamesBinder(RowsFor(log, c), binder) {
      var k :| 0 <= k < |RowsFor(log, c)| && (RowsFor(log, c)[k].from.binder == Some(binder)
                                              || RowsFor(log, c)[k].to.binder == Some(binder));
      ListedIsARow(log, c, RowsFor(log, c)[k]);
    }
  }

  lemma {:induction false} RowIsListed(log: Table<H.Move>, i: nat)
    requires i < |log|
    ensures log[i].1 in RowsFor(log, log[i].0)
  {
    if i < |log| - 1 {
      RowIsListed(log[..|log| - 1], i);
    }
  }

  lemma {:induction false} ListedIsARow(log: Table<H.Move>, c: Id, m: H.Move)
    requires m in RowsFor(log, c)
    ensures exists i | 0 <= i < |log| :: log[i].1 == m
  {
    if log != [] {
      if log[|log| - 1] == (c, m) {
      } else {
        ListedIsARow(log[..|log| - 1], c, m);
      }
    }
  }
}
