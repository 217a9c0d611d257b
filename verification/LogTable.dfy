/** A log table: rows in insertion order, each belonging to one copy. */
module LogTable {
  type Table<T> = seq<(nat, T)>

  /** The rows of one copy, oldest first. */
  function RowsFor<T>(log: Table<T>, copy: nat): seq<T> {
    if log == [] then []
    else
      var last := log[|log| - 1];
      var rest := RowsFor(log[..|log| - 1], copy);
      if last.0 == copy then rest + [last.1] else rest
  }

  /** ON DELETE CASCADE: every row of a copy goes. */
  function Without<T>(log: Table<T>, copy: nat): Table<T> {
    if log == [] then []
    else
      var last := log[|log| - 1];
      var rest := Without(log[..|log| - 1], copy);
      if last.0 == copy then rest else rest + [last]
  }

  predicate RefersInto<T>(log: Table<T>, copies: set<nat>) {
    forall i | 0 <= i < |log| :: log[i].0 in copies
  }

  lemma {:induction false} NoRowsForAStranger<T>(log: Table<T>, copies: set<nat>, copy: nat)
    requires RefersInto(log, copies) && copy !in copies
    ensures RowsFor(log, copy) == []
  {
    if log != [] {
      NoRowsForAStranger(log[..|log| - 1], copies, copy);
    }
  }

  /** An appended row is seen by its own copy, last, and by no other. */
  lemma RowsAfterAppend<T>(log: Table<T>, row: (nat, T), copy: nat)
    ensures RowsFor(log + [row], copy)
         == if row.0 == copy then RowsFor(log, copy) + [row.1] else RowsFor(log, copy)
  {
    assert (log + [row])[..|log|] == log;
  }

  lemma {:induction false} RowsAfterCascade<T>(log: Table<T>, gone: nat, copy: nat)
    ensures RowsFor(Without(log, gone), copy) == if copy == gone then [] else RowsFor(log, copy)
  {
    if log != [] {
      var rest := log[..|log| - 1];
      var last := log[|log| - 1];
      RowsAfterCascade(rest, gone, copy);
      if last.0 != gone {
        RowsAfterAppend(Without(rest, gone), last, copy);
      }
    }
  }

  lemma {:induction false} CascadeRefersInto<T>(log: Table<T>, copies: set<nat>, gone: nat)
    requires RefersInto(log, copies)
    ensures RefersInto(Without(log, gone), copies - {gone})
  {
    if log != [] {
      CascadeRefersInto(log[..|log| - 1], copies, gone);
    }
  }

  // ----- The whole table, copy by copy -----

  function Logs<T>(log: Table<T>, copies: set<nat>): map<nat, seq<T>> {
    map c | c in copies :: RowsFor(log, c)
  }

  lemma LogsAfterAppend<T>(log: Table<T>, copies: set<nat>, copy: nat, entry: T)
    requires copy in copies
    ensures Logs(log + [(copy, entry)], copies) == Logs(log, copies)[copy := RowsFor(log, copy) + [entry]]
  {
    forall c | c in copies
      ensures RowsFor(log + [(copy, entry)], c)
           == if c == copy then RowsFor(log, copy) + [entry] else RowsFor(log, c)
    {
      RowsAfterAppend(log, (copy, entry), c);
    }
  }

  lemma AppendRefersInto<T>(log: Table<T>, copies: set<nat>, copy: nat, entry: T)
    requires copy in copies && RefersInto(log, copies)
    ensures RefersInto(log + [(copy, entry)], copies)
  {}

  lemma LogsWithANewcomer<T>(log: Table<T>, copies: set<nat>, copy: nat)
    requires RefersInto(log, copies) && copy !in copies
    ensures Logs(log, copies + {copy}) == Logs(log, copies)[copy := []]
    ensures RefersInto(log, copies + {copy}) && RowsFor(log, copy) == []
  {
    NoRowsForAStranger(log, copies, copy);
  }

  lemma LogsWithAFirstEntry<T>(log: Table<T>, copies: set<nat>, copy: nat, entry: T)
    requires RefersInto(log, copies) && copy !in copies
    ensures Logs(log + [(copy, entry)], copies + {copy}) == Logs(log, copies)[copy := [entry]]
    ensures RefersInto(log + [(copy, entry)], copies + {copy})
  {
    LogsWithANewcomer(log, copies, copy);
    LogsAfterAppend(log, copies + {copy}, copy, entry);
    assert RowsFor(log, copy) + [entry] == [entry];
  }

  lemma LogsAfterCascade<T>(log: Table<T>, copies: set<nat>, gone: nat)
    requires RefersInto(log, copies)
    ensures Logs(Without(log, gone), copies - {gone}) == Logs(log, copies) - {gone}
    ensures RefersInto(Without(log, gone), copies - {gone})
  {
    forall c {
      RowsAfterCascade(log, gone, c);
    }
    CascadeRefersInto(log, copies, gone);
  }
}
