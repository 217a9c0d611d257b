/** The collection database as a value: the tables of a tenant's holdings, and one function for
    each repository operation, giving the new tables and what the caller is told.

    A failed operation leaves the tables alone, because each runs in one transaction. The log
    tables are seen here copy by copy: `moves[c]` and `statuses[c]` are the rows of
    `movement_log` and `status_log` whose `collection_id` is `c`, oldest first. */
module Holdings {
  import opened Wrappers
  import Text

  type Id = nat

  datatype DbError = NotFound | Conflict | Invalid | Constraint

  // The three text columns with a CHECK list. A text outside the list is refused on the way in.
  datatype Condition = NearMint | LightlyPlayed | ModeratelyPlayed | HeavilyPlayed | Damaged
  datatype Status = Owned | Ordered | Listed | Sold | Removed | Traded | Gifted | Lost
  datatype DeckState = Idea | Ready | Built

  function ParseCondition(text: string): Option<Condition> {
    match text
    case "Near Mint" => Some(NearMint)
    case "Lightly Played" => Some(LightlyPlayed)
    case "Moderately Played" => Some(ModeratelyPlayed)
    case "Heavily Played" => Some(HeavilyPlayed)
    case "Damaged" => Some(Damaged)
    case _ => None
  }

  function ParseStatus(text: string): Option<Status> {
    match text
    case "owned" => Some(Owned)
    case "ordered" => Some(Ordered)
    case "listed" => Some(Listed)
    case "sold" => Some(Sold)
    case "removed" => Some(Removed)
    case "traded" => Some(Traded)
    case "gifted" => Some(Gifted)
    case "lost" => Some(Lost)
    case _ => None
  }

  function ParseDeckState(text: string): Option<DeckState> {
    match text
    case "idea" => Some(Idea)
    case "ready" => Some(Ready)
    case "built" => Some(Built)
    case _ => None
  }

  /** A nullable text for a column with a default: absent means the default, and a text outside
      the CHECK list means the statement fails. */
  function Checked<T>(text: Option<string>, parse: string -> Option<T>, default: T): Option<T> {
    if text.Some? then parse(text.value) else Some(default)
  }

  /** The pair of container columns: (binder_id, deck_id). */
  datatype Place = Place(binder: Option<Id>, deck: Option<Id>) {
    predicate Exclusive() {
      binder.None? || deck.None?
    }

    /** This place once the given binders and decks no longer exist. */
    function Forget(binders: set<Id>, decks: set<Id>): Place {
      Place(if binder.Some? && binder.value in binders then None else binder,
            if deck.Some? && deck.value in decks then None else deck)
    }
  }

  const LOOSE := Place(None, None)

  datatype Grading = Grading(graded: bool, company: Option<string>, value: Option<int>, cert: Option<string>)

  const UNGRADED := Grading(false, None, None, None)

  datatype Copy = Copy(printing: string, condition: Condition, language: string,
                       purchasePrice: Option<int>, salePrice: Option<int>, acquiredAt: Option<string>,
                       source: string, status: Status, notes: Option<string>, tags: Option<string>,
                       grading: Grading, place: Place, order: Option<Id>, batch: Option<Id>)

  datatype NewCopy = NewCopy(printing: string, condition: Option<string>, language: Option<string>,
                             purchasePrice: Option<int>, acquiredAt: Option<string>, source: string,
                             status: Option<string>, notes: Option<string>, order: Option<Id>,
                             binder: Option<Id>, deck: Option<Id>, batch: Option<Id>)

  datatype CopyEdit = CopyEdit(condition: Option<string>, language: Option<string>,
                               purchasePrice: Option<int>, salePrice: Option<int>, notes: Option<string>,
                               tags: Option<string>, graded: Option<bool>, gradeCompany: Option<string>,
                               gradeValue: Option<int>, gradeCert: Option<string>)

  datatype Move = Move(from: Place, to: Place, note: Option<string>) {
    function ForgetDecks(decks: set<Id>): Move {
      Move(from.Forget({}, decks), to.Forget({}, decks), note)
    }
  }

  datatype StatusChange = StatusChange(from: Option<Status>, to: Status, note: Option<string>)

  datatype Deck = Deck(name: string, state: DeckState, group: Option<Id>)
  datatype Batch = Batch(kind: string, order: Option<Id>, binder: Option<Id>)
  datatype DeleteMode = Ungroup | Decks

  datatype State = State(copies: map<Id, Copy>, moves: map<Id, seq<Move>>,
                         statuses: map<Id, seq<StatusChange>>, decks: map<Id, Deck>,
                         groups: map<Id, string>, binders: set<Id>, batches: map<Id, Batch>,
                         orders: set<Id>, nextCopy: Id, nextDeck: Id, nextGroup: Id,
                         nextBinder: Id, nextBatch: Id)

  /** A nullable foreign key is satisfied. */
  predicate Live(key: Option<Id>, table: set<Id>) {
    key.Some? ==> key.value in table
  }

  // ----- collection.rs -----

  /** The row an add inserts, if its condition and status are on their lists. */
  function NewRow(copy: NewCopy): Option<Copy> {
    var condition := Checked(copy.condition, ParseCondition, NearMint);
    var status := Checked(copy.status, ParseStatus, Owned);
    if condition.None? || status.None? then None
    else
      Some(Copy(copy.printing, condition.value, copy.language.GetOr("English"), copy.purchasePrice, None,
                copy.acquiredAt, copy.source, status.value, copy.notes, None, UNGRADED,
                Place(copy.binder, copy.deck), copy.order, copy.batch))
  }

  /** The foreign keys and the binder/deck CHECK of the `collection` table. */
  predicate Fits(binders: set<Id>, decks: set<Id>, orders: set<Id>, batches: set<Id>, row: Copy) {
    && row.place.Exclusive()
    && Live(row.place.binder, binders)
    && Live(row.place.deck, decks)
    && Live(row.order, orders)
    && Live(row.batch, batches)
  }

  predicate RowFits(s: State, row: Copy) {
    Fits(s.binders, s.decks.Keys, s.orders, s.batches.Keys, row)
  }

  function Opening(row: Copy): StatusChange {
    StatusChange(None, row.status, Some("added"))
  }

  /** The new row and the `status_log` entry that opens its history. */
  function Insert(s: State, row: Copy): State {
    s.(copies := s.copies[s.nextCopy := row], moves := s.moves[s.nextCopy := []],
       statuses := s.statuses[s.nextCopy := [Opening(row)]],
       nextCopy := s.nextCopy + 1)
  }

  /** `cardOf` gives the card of every printing in the catalog or in `user_printings`. */
  function Add(cardOf: map<string, string>, s: State, copy: NewCopy): (State, Result<Id, DbError>) {
    if copy.printing !in cardOf then (s, Err(NotFound))
    else if copy.binder.Some? && copy.deck.Some? then (s, Err(Conflict))
    else
      match NewRow(copy)
      case None => (s, Err(Constraint))
      case Some(row) => if RowFits(s, row) then (Insert(s, row), Ok(s.nextCopy)) else (s, Err(Constraint))
  }

  /** COALESCE, column by column: an absent field keeps what is there. */
  function Edited(row: Copy, edit: CopyEdit): Option<Copy> {
    var condition := Checked(edit.condition, ParseCondition, row.condition);
    if condition.None? then None
    else
      Some(row.(condition := condition.value,
                language := edit.language.GetOr(row.language),
                purchasePrice := OrElse(edit.purchasePrice, row.purchasePrice),
                salePrice := OrElse(edit.salePrice, row.salePrice),
                notes := OrElse(edit.notes, row.notes),
                tags := OrElse(edit.tags, row.tags),
                grading := Grading(edit.graded.GetOr(row.grading.graded),
                                   OrElse(edit.gradeCompany, row.grading.company),
                                   OrElse(edit.gradeValue, row.grading.value),
                                   OrElse(edit.gradeCert, row.grading.cert))))
  }

  function Update(s: State, id: Id, edit: CopyEdit): (State, Result<bool, DbError>) {
    if id !in s.copies then (s, Ok(false))
    else
      match Edited(s.copies[id], edit)
      case None => (s, Err(Constraint))
      case Some(row) => (s.(copies := s.copies[id := row]), Ok(true))
  }

  function WithStatus(s: State, id: Id, to: Status, note: Option<string>): State
    requires id in s.copies && id in s.statuses
  {
    var change := StatusChange(Some(s.copies[id].status), to, note);
    s.(copies := s.copies[id := s.copies[id].(status := to)],
       statuses := s.statuses[id := s.statuses[id] + [change]])
  }

  function SetStatus(s: State, id: Id, status: string, note: Option<string>)
    : (State, Result<bool, DbError>)
  {
    if id !in s.copies || id !in s.statuses then (s, Err(NotFound))
    else
      match ParseStatus(status)
      case None => (s, Err(Constraint))
      case Some(to) => (WithStatus(s, id, to, note), Ok(true))
  }

  function WithPlace(s: State, id: Id, to: Place, note: Option<string>): State
    requires id in s.copies && id in s.moves
  {
    s.(copies := s.copies[id := s.copies[id].(place := to)],
       moves := s.moves[id := s.moves[id] + [Move(s.copies[id].place, to, note)]])
  }

  /** Why a move is refused, if it is. */
  function MoveRefusal(s: State, id: Id, to: Place): Option<DbError> {
    if !to.Exclusive() then Some(Conflict)
    else if id !in s.copies || id !in s.moves then Some(NotFound)
    else if !Live(to.binder, s.binders) || !Live(to.deck, s.decks.Keys) then Some(Constraint)
    else None
  }

  function MoveTo(s: State, id: Id, binder: Option<Id>, deck: Option<Id>, note: Option<string>)
    : (State, Result<bool, DbError>)
  {
    match MoveRefusal(s, id, Place(binder, deck))
    case Some(e) => (s, Err(e))
    case None => (WithPlace(s, id, Place(binder, deck), note), Ok(true))
  }

  /** Deleting a copy takes its log rows with it (ON DELETE CASCADE). */
  function Delete(s: State, id: Id): (State, Result<bool, DbError>) {
    (s.(copies := s.copies - {id}, moves := s.moves - {id}, statuses := s.statuses - {id}),
     Ok(id in s.copies))
  }

  ghost predicate IsLatest(s: State, printing: string, id: Id) {
    && id in s.copies
    && s.copies[id].printing == printing
    && forall other | other in s.copies && s.copies[other].printing == printing :: other <= id
  }

  ghost function DeleteLatest(s: State, printing: string): (State, Result<bool, DbError>) {
    if exists id :: IsLatest(s, printing, id) then
      var id :| IsLatest(s, printing, id);
      Delete(s, id)
    else (s, Ok(false))
  }

  function CardOf(cardOf: map<string, string>, printing: string): Option<string> {
    if printing in cardOf then Some(cardOf[printing]) else None
  }

  function ChangePrinting(cardOf: map<string, string>, s: State, id: Id, printing: string)
    : (State, Result<bool, DbError>)
  {
    if id !in s.copies then (s, Err(NotFound))
    else if printing !in cardOf then (s, Err(NotFound))
    else if CardOf(cardOf, s.copies[id].printing) != CardOf(cardOf, printing) then (s, Err(Conflict))
    else (s.(copies := s.copies[id := s.copies[id].(printing := printing)]), Ok(true))
  }

  // ----- decks.rs -----

  function CreateDeck(s: State, name: string, state: Option<string>, group: Option<Id>)
    : (State, Result<Id, DbError>)
  {
    var parsed := Checked(state, ParseDeckState, Idea);
    if parsed.None? || !Live(group, s.groups.Keys) then (s, Err(Constraint))
    else
      (s.(decks := s.decks[s.nextDeck := Deck(name, parsed.value, group)], nextDeck := s.nextDeck + 1),
       Ok(s.nextDeck))
  }

  function UpdateDeck(s: State, id: Id, name: Option<string>, state: Option<string>)
    : (State, Result<bool, DbError>)
  {
    if id !in s.decks then (s, Ok(false))
    else
      var was := s.decks[id];
      var parsed := Checked(state, ParseDeckState, was.state);
      if parsed.None? then (s, Err(Constraint))
      else (s.(decks := s.decks[id := Deck(name.GetOr(was.name), parsed.value, was.group)]), Ok(true))
  }

  function SetGroup(s: State, id: Id, group: Option<Id>): (State, Result<bool, DbError>) {
    if !Live(group, s.groups.Keys) then (s, Err(NotFound))
    else if id !in s.decks then (s, Ok(false))
    else (s.(decks := s.decks[id := s.decks[id].(group := group)]), Ok(true))
  }

  /** `UPDATE movement_log SET from_deck_id = NULL WHERE from_deck_id = deck`, for one row. */
  function BlankFrom(m: Move, deck: Id): Move {
    if m.from.deck == Some(deck) then m.(from := m.from.(deck := None)) else m
  }

  function BlankTo(m: Move, deck: Id): Move {
    if m.to.deck == Some(deck) then m.(to := m.to.(deck := None)) else m
  }

  function ForgetInRows(rows: map<Id, Copy>, binders: set<Id>, decks: set<Id>): map<Id, Copy> {
    map c | c in rows :: rows[c].(place := rows[c].place.Forget(binders, decks))
  }

  function ForgetInLog(log: seq<Move>, decks: set<Id>): (r: seq<Move>)
    ensures |r| == |log|
    ensures forall i | 0 <= i < |log| :: r[i] == log[i].ForgetDecks(decks)
  {
    seq(|log|, i requires 0 <= i < |log| => log[i].ForgetDecks(decks))
  }

  function ForgetInLogs(moves: map<Id, seq<Move>>, decks: set<Id>): map<Id, seq<Move>> {
    map c | c in moves :: ForgetInLog(moves[c], decks)
  }

  /** Removes a set of decks, forgetting each of them in the log and on the rows alike. */
  function ForgetDecks(s: State, decks: set<Id>): State {
    s.(copies := ForgetInRows(s.copies, {}, decks),
       moves := ForgetInLogs(s.moves, decks),
       decks := s.decks - decks)
  }

  function DeleteDeck(s: State, id: Id): (State, Result<bool, DbError>) {
    (ForgetDecks(s, {id}), Ok(id in s.decks))
  }

  // ----- deck_groups.rs -----

  function NameProblem(s: State, name: string, except: Option<Id>): Option<DbError> {
    if forall i | 0 <= i < |name| :: Text.IsWhitespace(name[i]) then Some(Invalid)
    else if exists g | g in s.groups :: s.groups[g] == name && Some(g) != except then Some(Conflict)
    else None
  }

  function CreateGroup(s: State, name: string): (State, Result<Id, DbError>) {
    match NameProblem(s, name, None)
    case Some(e) => (s, Err(e))
    case None => (s.(groups := s.groups[s.nextGroup := name], nextGroup := s.nextGroup + 1),
                  Ok(s.nextGroup))
  }

  function UpdateGroup(s: State, id: Id, name: Option<string>): (State, Result<bool, DbError>) {
    var problem := if name.Some? then NameProblem(s, name.value, Some(id)) else None;
    if problem.Some? then (s, Err(problem.value))
    else if id !in s.groups then (s, Ok(false))
    else (s.(groups := s.groups[id := name.GetOr(s.groups[id])]), Ok(true))
  }

  function DecksOf(s: State, group: Id): set<Id> {
    set d | d in s.decks && s.decks[d].group == Some(group)
  }

  /** The copies in any deck of the given set. */
  function CopiesIn(s: State, decks: set<Id>): set<Id> {
    set c | c in s.copies && s.copies[c].place.deck.Some? && s.copies[c].place.deck.value in decks
  }

  /** `deck_groups.card_count`. */
  function CardCount(s: State, group: Id): nat {
    |CopiesIn(s, DecksOf(s, group))|
  }

  /** What `release_all` logs for a row. The binder columns are not in its column list. */
  function ReleaseEntry(row: Copy): Move {
    Move(Place(None, row.place.deck), LOOSE, Some("deck group released"))
  }

  function ReleaseRows(rows: map<Id, Copy>, held: set<Id>): map<Id, Copy> {
    map c | c in rows :: if c in held then rows[c].(place := rows[c].place.(deck := None)) else rows[c]
  }

  function ReleaseLogs(moves: map<Id, seq<Move>>, rows: map<Id, Copy>, held: set<Id>)
    : map<Id, seq<Move>>
  {
    map c | c in moves ::
      if c in held && c in rows then moves[c] + [ReleaseEntry(rows[c])] else moves[c]
  }

  function Release(s: State, held: set<Id>): State {
    s.(copies := ReleaseRows(s.copies, held), moves := ReleaseLogs(s.moves, s.copies, held))
  }

  function ReleaseAll(s: State, group: Id): (State, Result<nat, DbError>) {
    if group !in s.groups then (s, Err(NotFound))
    else (Release(s, CopiesIn(s, DecksOf(s, group))), Ok(CardCount(s, group)))
  }

  /** Removes the group row; its remaining decks belong to none (ON DELETE SET NULL). */
  function DropGroup(s: State, id: Id): State {
    s.(groups := s.groups - {id}, decks := Ungrouped(s.decks, id))
  }

  function Ungrouped(decks: map<Id, Deck>, group: Id): map<Id, Deck> {
    map d | d in decks :: if decks[d].group == Some(group) then decks[d].(group := None) else decks[d]
  }

  function DeleteGroup(s: State, id: Id, mode: DeleteMode): (State, Result<bool, DbError>) {
    if id !in s.groups then (s, Ok(false))
    else
      var cleared := if mode.Decks? then ForgetDecks(ReleaseAll(s, id).0, DecksOf(s, id)) else s;
      (DropGroup(cleared, id), Ok(true))
  }

  // ----- binders.rs and batches.rs -----

  function CreateBinder(s: State): (State, Result<Id, DbError>) {
    (s.(binders := s.binders + {s.nextBinder}, nextBinder := s.nextBinder + 1), Ok(s.nextBinder))
  }

  predicate NamesBinder(log: seq<Move>, binder: Id) {
    exists i | 0 <= i < |log| :: log[i].from.binder == Some(binder) || log[i].to.binder == Some(binder)
  }

  predicate LogsName(moves: map<Id, seq<Move>>, binder: Id) {
    exists c | c in moves :: NamesBinder(moves[c], binder)
  }

  /** `movement_log` and `batches` reference binders without an ON DELETE action, so a binder
      either of them still names cannot go. */
  predicate BinderPinned(s: State, binder: Id) {
    || LogsName(s.moves, binder)
    || (exists b | b in s.batches :: s.batches[b].binder == Some(binder))
  }

  function DeleteBinder(s: State, id: Id): (State, Result<bool, DbError>) {
    if id !in s.binders then (s, Ok(false))
    else if BinderPinned(s, id) then (s, Err(Constraint))
    else (s.(copies := ForgetInRows(s.copies, {id}, {}), binders := s.binders - {id}), Ok(true))
  }

  function CreateBatch(s: State, batch: Batch): (State, Result<Id, DbError>) {
    if !Live(batch.order, s.orders) || !Live(batch.binder, s.binders) then (s, Err(Constraint))
    else (s.(batches := s.batches[s.nextBatch := batch], nextBatch := s.nextBatch + 1), Ok(s.nextBatch))
  }

  // ----- Runs -----

  datatype Op =
    | OpAdd(copy: NewCopy)
    | OpUpdate(id: Id, edit: CopyEdit)
    | OpSetStatus(id: Id, status: string, note: Option<string>)
    | OpMoveTo(id: Id, binder: Option<Id>, deck: Option<Id>, note: Option<string>)
    | OpDelete(id: Id)
    | OpDeleteLatest(printing: string)
    | OpChangePrinting(id: Id, printing: string)
    | OpCreateDeck(name: string, state: Option<string>, group: Option<Id>)
    | OpUpdateDeck(id: Id, newName: Option<string>, newState: Option<string>)
    | OpSetGroup(id: Id, group: Option<Id>)
    | OpDeleteDeck(id: Id)
    | OpCreateGroup(name: string)
    | OpUpdateGroup(id: Id, newName: Option<string>)
    | OpReleaseAll(id: Id)
    | OpDeleteGroup(id: Id, mode: DeleteMode)
    | OpCreateBinder
    | OpDeleteBinder(id: Id)
    | OpCreateBatch(batch: Batch)

  ghost function Step(cardOf: map<string, string>, s: State, op: Op): State {
    match op
    case OpAdd(copy) => Add(cardOf, s, copy).0
    case OpUpdate(id, edit) => Update(s, id, edit).0
    case OpSetStatus(id, status, note) => SetStatus(s, id, status, note).0
    case OpMoveTo(id, binder, deck, note) => MoveTo(s, id, binder, deck, note).0
    case OpDelete(id) => Delete(s, id).0
    case OpDeleteLatest(printing) => DeleteLatest(s, printing).0
    case OpChangePrinting(id, printing) => ChangePrinting(cardOf, s, id, printing).0
    case OpCreateDeck(name, state, group) => CreateDeck(s, name, state, group).0
    case OpUpdateDeck(id, name, state) => UpdateDeck(s, id, name, state).0
    case OpSetGroup(id, group) => SetGroup(s, id, group).0
    case OpDeleteDeck(id) => DeleteDeck(s, id).0
    case OpCreateGroup(name) => CreateGroup(s, name).0
    case OpUpdateGroup(id, name) => UpdateGroup(s, id, name).0
    case OpReleaseAll(id) => ReleaseAll(s, id).0
    case OpDeleteGroup(id, mode) => DeleteGroup(s, id, mode).0
    case OpCreateBinder => CreateBinder(s).0
    case OpDeleteBinder(id) => DeleteBinder(s, id).0
    case OpCreateBatch(batch) => CreateBatch(s, batch).0
  }

  /** A new collection: no copies, decks, groups or binders. */
  function Fresh(orders: set<Id>): State {
    State(map[], map[], map[], map[], map[], {}, map[], orders, 1, 1, 1, 1, 1)
  }

  ghost function Run(cardOf: map<string, string>, s: State, ops: seq<Op>): State
    decreases |ops|
  {
    if ops == [] then s else Run(cardOf, Step(cardOf, s, ops[0]), ops[1..])
  }

  lemma {:induction false} RunSnoc(cardOf: map<string, string>, s: State, ops: seq<Op>, op: Op)
    ensures Run(cardOf, s, ops + [op]) == Step(cardOf, Run(cardOf, s, ops), op)
    decreases |ops|
  {
    if ops == [] {
      assert [op][1..] == [];
    } else {
      assert (ops + [op])[1..] == ops[1..] + [op];
      RunSnoc(cardOf, Step(cardOf, s, ops[0]), ops[1..], op);
    }
  }
}
