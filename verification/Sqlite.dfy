/**
  SQLite as far as the storage engine sees it: committed rows, an optional open transaction
  with its pending rows, and a fault oracle that may refuse any call.  A refused statement may
  also end the transaction (SQLite rolls back on its own after some errors).
 */
module Sqlite {
  import opened Wrappers
  import opened Frames

  datatype Answer = Granted | Refused | RefusedAndRolledBack

  /** The answer the library gives to its n-th call. */
  type Oracle = nat -> Answer

  datatype Database = Database(committed: seq<Row>, transaction: Option<seq<Row>>, calls: nat)

  function Abandon(d: Database, a: Answer): Database {
    if a.RefusedAndRolledBack? then d.(transaction := None) else d
  }

  /** A statement without effect on rows: open, PRAGMA, CREATE TABLE, prepare. */
  function Plain(d: Database, o: Oracle): (Database, bool) {
    (d.(calls := d.calls + 1), o(d.calls).Granted?)
  }

  /** BEGIN is an error inside an open transaction. */
  function Begin(d: Database, o: Oracle): (Database, bool) {
    var d' := d.(calls := d.calls + 1);
    if d.transaction.Some? then (Abandon(d', o(d.calls)), false)
    else if o(d.calls).Granted? then (d'.(transaction := Some([])), true)
    else (d', false)
  }

  /** sqlite3_step on the INSERT: pending inside a transaction, committed at once outside. */
  function StepInsert(d: Database, o: Oracle, row: Row): (Database, bool) {
    var d' := d.(calls := d.calls + 1);
    if !o(d.calls).Granted? then (Abandon(d', o(d.calls)), false)
    else if d.transaction.Some? then (d'.(transaction := Some(d.transaction.value + [row])), true)
    else (d'.(committed := d.committed + [row]), true)
  }

  /** COMMIT is an error outside a transaction; a refused COMMIT may leave the transaction open. */
  function Commit(d: Database, o: Oracle): (Database, bool) {
    var d' := d.(calls := d.calls + 1);
    if d.transaction.None? then (d', false)
    else if o(d.calls).Granted? then
      (d'.(committed := d.committed + d.transaction.value, transaction := None), true)
    else (Abandon(d', o(d.calls)), false)
  }

  function Rollback(d: Database, o: Oracle): (Database, bool) {
    var d' := d.(calls := d.calls + 1);
    if d.transaction.None? then (d', false)
    else if o(d.calls).Granted? then (d'.(transaction := None), true)
    else (Abandon(d', o(d.calls)), false)
  }

  /** Closing the connection discards an open transaction. */
  function Disconnect(d: Database): Database {
    d.(transaction := None)
  }
}
