/**
  storage::StorageEngine as a value: what each stay under db_mutex_ and each public call does to
  the engine's fields and to the database, and what that guarantees under every fault pattern.
 */
module StorageSpec {
  import opened Wrappers
  import opened Frames
  import opened Sqlite

  /** `handle` and `statement` say that db_ and insert_stmt_ are non-null, `initRan` that
      init_flag_ was used, and `opens` counts the calls of sqlite3_open. */
  datatype Engine = Engine(
    database: Database,
    handle: bool,
    statement: bool,
    isInitialized: bool,
    initFailed: bool,
    initRan: bool,
    opens: nat)

  function Fresh(d: Database): Engine {
    Engine(d, false, false, false, false, false, 0)
  }

  function CloseInternal(e: Engine): Engine {
    e.(database := if e.handle then Disconnect(e.database) else e.database,
       handle := false, statement := false, isInitialized := false)
  }

  function Close(e: Engine): Engine {
    CloseInternal(e).(initFailed := false)
  }

  /** Two PRAGMAs, then the schema: stops at the first refusal. */
  function Configure(d: Database, o: Oracle): (Database, bool) {
    var (d1, wal) := Plain(d, o);
    if !wal then (d1, false)
    else
      var (d2, sync) := Plain(d1, o);
      if !sync then (d2, false) else Plain(d2, o)
  }

  function InitFailure(e: Engine): Engine {
    CloseInternal(e.(initFailed := true))
  }

  function InitInternal(e: Engine, o: Oracle): Engine {
    if e.isInitialized then e
    else
      var (d1, granted) := Plain(e.database, o);
      // a failed sqlite3_open may still hand out a connection
      var e1 := e.(initFailed := false, database := d1, opens := e.opens + 1,
                   handle := !o(e.database.calls).RefusedAndRolledBack?);
      if !granted then InitFailure(e1)
      else
        var (d2, configured) := Configure(d1, o);
        if !configured then InitFailure(e1.(database := d2))
        else
          var (d3, prepared) := Plain(d2, o);
          if !prepared then InitFailure(e1.(database := d3))
          else e1.(database := d3, statement := true, isInitialized := true)
  }

  /** std::call_once (section 32.5.6.2 of ISO C++20): init_internal runs in the first call only. */
  function EnsureInitialized(e: Engine, o: Oracle): Engine {
    if e.initRan then e else InitInternal(e, o).(initRan := true)
  }

  /** insert_telemetry under the lock.  A null statement is misuse: nothing is written. */
  function InsertSection(e: Engine, o: Oracle, row: Row): (Engine, bool) {
    if !e.statement then (e, false)
    else
      var (d, ok) := StepInsert(e.database, o, row);
      (e.(database := d), ok)
  }

  /** The loop of insert_batch: stops at the first item that fails. */
  function InsertAll(d: Database, o: Oracle, rows: seq<Row>): (Database, bool) {
    if rows == [] then (d, true)
    else
      var (d1, ok) := InsertAll(d, o, rows[..|rows|-1]);
      if ok then StepInsert(d1, o, rows[|rows|-1]) else (d1, false)
  }

  /** BEGIN, the items, then COMMIT or ROLLBACK. */
  function RunBatch(d: Database, o: Oracle, rows: seq<Row>): (Database, bool) {
    var (d1, begun) := Begin(d, o);
    if !begun then (d1, false)
    else
      var (d2, success) := InsertAll(d1, o, rows);
      if success then Commit(d2, o) else (Rollback(d2, o).0, false)
  }

  function BatchSection(e: Engine, o: Oracle, rows: seq<Row>): (Engine, bool) {
    if !e.handle then (e, false)
    else
      var (d, ok) := RunBatch(e.database, o, rows);
      (e.(database := d), ok)
  }

  /** The calls of the public interface, each run to its end without interruption. */
  function InsertTelemetry(e: Engine, o: Oracle, row: Row): (Engine, bool) {
    var e1 := EnsureInitialized(e, o);
    if !e1.isInitialized then (e1, false) else InsertSection(e1, o, row)
  }

  function InsertBatch(e: Engine, o: Oracle, rows: seq<Row>): (Engine, bool) {
    var e1 := EnsureInitialized(e, o);
    if !e1.isInitialized then (e1, false)
    else if rows == [] then (e1, true)
    else BatchSection(e1, o, rows)
  }

  // ---------- Facts about the sections ----------

  /** Whenever db_mutex_ is free: flag, connection and statement agree, the database is opened
      at most once, and only by call_once. */
  ghost predicate Consistent(e: Engine) {
    && (e.isInitialized <==> e.handle)
    && (e.isInitialized <==> e.statement)
    && (e.isInitialized ==> e.initRan)
    && e.opens == (if e.initRan then 1 else 0)
  }

  lemma {:induction false} EnsureInitializedKeeps(e: Engine, o: Oracle)
    requires Consistent(e)
    ensures var e1 := EnsureInitialized(e, o);
            && Consistent(e1) && e1.initRan
            && e1.database.committed == e.database.committed
            && (e.initRan ==> e1 == e)
            && (e.database.transaction.None? ==> e1.database.transaction.None?)
  {
  }

  /** What the batch loop has done: everything went to the pending rows, or it failed and at most
      the transaction is gone. */
  lemma {:induction false} InsertAllPending(d: Database, o: Oracle, rows: seq<Row>)
    requires d.transaction.Some?
    ensures var (d', ok) := InsertAll(d, o, rows);
            && d'.committed == d.committed
            && (ok ==> d'.transaction == Some(d.transaction.value + rows))
  {
    if rows != [] {
      InsertAllPending(d, o, rows[..|rows|-1]);
      assert d.transaction.value + rows == d.transaction.value + rows[..|rows|-1] + [rows[|rows|-1]];
    } else {
      assert d.transaction.value + rows == d.transaction.value;
    }
  }

  /** insert_batch is all or nothing under every pattern of faults: it answers true exactly when
      the whole batch was committed, in order; otherwise not one row was. */
  lemma {:induction false} BatchAllOrNothing(e: Engine, o: Oracle, rows: seq<Row>)
    requires Consistent(e)
    ensures var (e', ok) := InsertBatch(e, o, rows);
            && e'.database.committed == e.database.committed + (if ok then rows else [])
            && (rows != [] ==> (ok <==> e'.database.committed == e.database.committed + rows))
            && (rows == [] ==> (ok <==> EnsureInitialized(e, o).isInitialized))
  {
    var e1 := EnsureInitialized(e, o);
    EnsureInitializedKeeps(e, o);
    if e1.isInitialized && rows != [] {
      RunBatchEffect(e1.database, o, rows);
    }
  }

  lemma {:induction false} RunBatchEffect(d: Database, o: Oracle, rows: seq<Row>)
    ensures var (d', ok) := RunBatch(d, o, rows);
            && d'.committed == d.committed + (if ok then rows else [])
            && (ok ==> d.transaction.None? && d'.transaction.None?)
  {
    var (d1, begun) := Begin(d, o);
    if begun {
      InsertAllPending(d1, o, rows);
      assert [] + rows == rows;
    }
  }

  lemma {:induction false} InsertSectionEffect(e: Engine, o: Oracle, row: Row)
    ensures var (e', ok) := InsertSection(e, o, row);
            && e' == e.(database := e'.database)
            && (ok ==> e.statement)
            && (e.database.transaction.None? ==>
                  && e'.database.transaction.None?
                  && e'.database.committed == e.database.committed + (if ok then [row] else []))
  {
  }

  /** insert_telemetry answering true means the row is durable exactly when no transaction was
      left open by an earlier failed COMMIT or ROLLBACK. */
  lemma {:induction false} InsertDurable(e: Engine, o: Oracle, row: Row)
    requires Consistent(e)
    ensures var (e', ok) := InsertTelemetry(e, o, row);
            && (ok ==>
                  (e'.database.committed == e.database.committed + [row]
                   <==> EnsureInitialized(e, o).database.transaction.None?))
            && (!ok ==> e'.database.committed == e.database.committed)
  {
    EnsureInitializedKeeps(e, o);
    assert |e.database.committed + [row]| == |e.database.committed| + 1;
  }

  /** An acknowledged row can be lost: the COMMIT of a batch is refused, an insert is then
      acknowledged into the transaction left open, and closing discards it. */
  lemma {:induction false} AcknowledgedButLost(first: Row, second: Row)
    ensures var o: Oracle := n => if n == 7 then Refused else Granted;
            var (e1, ok1) := InsertBatch(Fresh(Database([], None, 0)), o, [first]);
            var (e2, ok2) := InsertTelemetry(e1, o, second);
            !ok1 && ok2 && Close(e2).database.committed == []
  {
    var o: Oracle := n => if n == 7 then Refused else Granted;
    var e0 := EnsureInitialized(Fresh(Database([], None, 0)), o);
    assert e0.database.calls == 5 && e0.isInitialized;
    var d1 := Begin(e0.database, o).0;
    assert d1 == Database([], Some([]), 6);
    var items := [first];
    InsertAllStep(d1, o, items, 0);
    assert items[..0] == [] && items[..0+1] == items && [] + items == items;
    assert InsertAll(d1, o, [first]) == (Database([], Some([first]), 7), true);
    assert RunBatch(e0.database, o, [first]) == (Database([], Some([first]), 8), false);
  }

  lemma {:induction false} InsertTelemetryKeeps(e: Engine, o: Oracle, row: Row)
    requires Consistent(e)
    ensures Consistent(InsertTelemetry(e, o, row).0)
  {
    EnsureInitializedKeeps(e, o);
    InsertSectionEffect(EnsureInitialized(e, o), o, row);
  }

  lemma {:induction false} InsertBatchKeeps(e: Engine, o: Oracle, rows: seq<Row>)
    requires Consistent(e)
    ensures Consistent(InsertBatch(e, o, rows).0)
  {
    EnsureInitializedKeeps(e, o);
  }

  // ---------- Exactly when the calls succeed ----------

  /** The next `n` calls of the library are granted. */
  ghost predicate GrantedFrom(o: Oracle, from: nat, n: nat) {
    forall k :: from <= k < from + n ==> o(k).Granted?
  }

  /** Initialisation succeeds exactly when open, both PRAGMAs, the schema and the prepare do. */
  lemma {:induction false} InitSucceeds(d: Database, o: Oracle)
    ensures EnsureInitialized(Fresh(d), o).isInitialized <==> GrantedFrom(o, d.calls, 5)
  {
    var e := EnsureInitialized(Fresh(d), o);
    if GrantedFrom(o, d.calls, 5) {
      assert o(d.calls).Granted? && o(d.calls + 1).Granted? && o(d.calls + 2).Granted?;
      assert o(d.calls + 3).Granted? && o(d.calls + 4).Granted?;
    }
    if e.isInitialized {
      assert o(d.calls).Granted? && o(d.calls + 1).Granted? && o(d.calls + 2).Granted?;
      forall k | d.calls <= k < d.calls + 5 ensures o(k).Granted? {
        assert k == d.calls || k == d.calls + 1 || k == d.calls + 2 || k == d.calls + 3 || k == d.calls + 4;
      }
    }
  }

  /** After the first call init_failed_ tells that initialisation failed; closing clears it, releases
      connection and statement, discards an open transaction and leaves the table alone. */
  lemma {:induction false} FailureIsRecorded(d: Database, o: Oracle)
    ensures var e := EnsureInitialized(Fresh(d), o); e.initFailed <==> !e.isInitialized
  {
  }

  lemma {:induction false} CloseReleases(e: Engine)
    requires Consistent(e)
    ensures var c := Close(e);
            && !c.isInitialized && !c.handle && !c.statement && !c.initFailed
            && c.initRan == e.initRan && c.opens == e.opens
            && c.database.committed == e.database.committed
            && (e.handle ==> c.database.transaction.None?)
  {
  }

  /** On a ready engine an insert answers what its one sqlite3_step does. */
  lemma {:induction false} InsertSucceeds(e: Engine, o: Oracle, row: Row)
    requires Consistent(e) && e.initRan
    ensures InsertTelemetry(e, o, row).1 <==> e.isInitialized && o(e.database.calls).Granted?
  {
  }

  /** How many calls in a row are granted from `from` on, at most `n`. */
  ghost function GrantedRun(o: Oracle, from: nat, n: nat): (k: nat)
    ensures k <= n && GrantedFrom(o, from, k)
    ensures k < n ==> !o(from + k).Granted?
  {
    if n == 0 then 0
    else
      var k := GrantedRun(o, from, n - 1);
      if k == n - 1 && o(from + k).Granted? then n else k
  }

  lemma {:induction false} StepOutcome(d: Database, o: Oracle, row: Row)
    ensures var (d', ok) := StepInsert(d, o, row);
            && d'.calls == d.calls + 1 && (ok <==> o(d.calls).Granted?)
            && (d.transaction.Some? ==> (d'.transaction.Some? <==> !o(d.calls).RefusedAndRolledBack?))
  {
  }

  /** The batch loop goes on to the first item that is not granted. */
  lemma {:induction false} InsertAllRun(d: Database, o: Oracle, rows: seq<Row>)
    ensures var (d', ok) := InsertAll(d, o, rows);
            var k := GrantedRun(o, d.calls, |rows|);
            && (ok <==> k == |rows|)
            && d'.calls == d.calls + (if ok then k else k + 1)
            && (d.transaction.Some? ==> (d'.transaction.Some? <==> ok || o(d.calls + k).Refused?))
  {
    if rows == [] {
    } else {
      var n := |rows| - 1;
      InsertAllRun(d, o, rows[..n]);
      StepOutcome(InsertAll(d, o, rows[..n]).0, o, rows[n]);
    }
  }

  /** On a ready engine a non-empty batch succeeds exactly when no transaction was left open and
      BEGIN, every item and COMMIT are granted. */
  lemma {:induction false} BatchSucceeds(e: Engine, o: Oracle, rows: seq<Row>)
    requires Consistent(e) && e.isInitialized && rows != []
    ensures InsertBatch(e, o, rows).1
       <==> e.database.transaction.None? && GrantedFrom(o, e.database.calls, |rows| + 2)
  {
    var n := e.database.calls;
    var (d1, begun) := Begin(e.database, o);
    if begun {
      InsertAllRun(d1, o, rows);
      InsertAllPending(d1, o, rows);
      if GrantedFrom(o, n + 1, |rows|) && o(n).Granted? && o(n + 1 + |rows|).Granted? {
        assert GrantedFrom(o, n, |rows| + 2);
      }
    }
  }

  /** The answers to a batch of `n` items leave its transaction open: BEGIN is granted, and either
      all items are and COMMIT is refused, or the first item that fails is refused and the
      ROLLBACK after it is refused too.  A refusal on which SQLite rolls back leaves nothing open. */
  ghost predicate LeavesOpen(o: Oracle, from: nat, n: nat) {
    var k := GrantedRun(o, from + 1, n);
    && o(from).Granted?
    && (k == n ==> o(from + 1 + n).Refused?)
    && (k < n ==> o(from + 1 + k).Refused? && o(from + 2 + k).Refused?)
  }

  /** A batch ends with its transaction open exactly when the answers leave it open. */
  lemma {:induction false} LeftOpenExactly(d: Database, o: Oracle, rows: seq<Row>)
    requires d.transaction.None?
    ensures RunBatch(d, o, rows).0.transaction.Some? <==> LeavesOpen(o, d.calls, |rows|)
  {
    var (d1, begun) := Begin(d, o);
    if begun {
      InsertAllRun(d1, o, rows);
    }
  }

  // ---------- Batching and single inserts ----------

  /** A loop of insert_telemetry. */
  function InsertEach(e: Engine, o: Oracle, rows: seq<Row>): Engine {
    if rows == [] then e
    else InsertTelemetry(InsertEach(e, o, rows[..|rows|-1]), o, rows[|rows|-1]).0
  }

  ghost predicate NoFaults(o: Oracle) {
    forall n :: o(n).Granted?
  }

  /** Without faults a batch commits all its rows, unless the engine is out of use. */
  lemma {:induction false} BatchCommits(e: Engine, o: Oracle, rows: seq<Row>)
    requires NoFaults(o) && Consistent(e) && e.database.transaction.None?
    ensures var e' := InsertBatch(e, o, rows).0;
            && Consistent(e') && e'.database.transaction.None?
            && EnsureInitialized(e', o).isInitialized == EnsureInitialized(e, o).isInitialized
            && e'.database.committed
               == e.database.committed + (if EnsureInitialized(e, o).isInitialized then rows else [])
  {
    var e1 := EnsureInitialized(e, o);
    EnsureInitializedKeeps(e, o);
    if e1.isInitialized && rows != [] {
      BatchSucceeds(e1, o, rows);
      RunBatchEffect(e1.database, o, rows);
    }
  }

  lemma {:induction false} InsertCommits(e: Engine, o: Oracle, row: Row)
    requires NoFaults(o) && Consistent(e) && e.database.transaction.None?
    ensures var e' := InsertTelemetry(e, o, row).0;
            && Consistent(e') && e'.database.transaction.None?
            && EnsureInitialized(e', o).isInitialized == EnsureInitialized(e, o).isInitialized
            && e'.database.committed
               == e.database.committed + (if EnsureInitialized(e, o).isInitialized then [row] else [])
  {
    var e1 := EnsureInitialized(e, o);
    EnsureInitializedKeeps(e, o);
    InsertSectionEffect(e1, o, row);
  }

  lemma {:induction false} EachCommits(e: Engine, o: Oracle, rows: seq<Row>)
    requires NoFaults(o) && Consistent(e) && e.database.transaction.None?
    ensures var e' := InsertEach(e, o, rows);
            && Consistent(e') && e'.database.transaction.None?
            && EnsureInitialized(e', o).isInitialized == EnsureInitialized(e, o).isInitialized
            && e'.database.committed
               == e.database.committed + (if EnsureInitialized(e, o).isInitialized then rows else [])
  {
    if rows == [] {
    } else {
      var init, last := rows[..|rows|-1], rows[|rows|-1];
      EachCommits(e, o, init);
      InsertCommits(InsertEach(e, o, init), o, last);
      CommittedSnoc(e.database.committed, init, last);
      assert rows == init + [last];
    }
  }

  lemma {:induction false} CommittedSnoc(base: seq<Row>, rows: seq<Row>, row: Row)
    ensures base + (rows + [row]) == base + rows + [row]
    ensures base + [] == base
  {
  }

  /** Batching refines single inserts, and batches compose, on every engine without an open
      transaction, whether it is new, ready or out of use. */
  lemma {:induction false} BatchingRefines(e: Engine, o: Oracle, a: seq<Row>, b: seq<Row>)
    requires NoFaults(o) && Consistent(e) && e.database.transaction.None?
    ensures InsertBatch(e, o, a).0.database.committed == InsertEach(e, o, a).database.committed
    ensures InsertBatch(InsertBatch(e, o, a).0, o, b).0.database.committed
         == InsertBatch(e, o, a + b).0.database.committed
  {
    BatchCommits(e, o, a);
    EachCommits(e, o, a);
    BatchCommits(InsertBatch(e, o, a).0, o, b);
    BatchCommits(e, o, a + b);
    assert e.database.committed + (a + b) == e.database.committed + a + b;
  }

  lemma {:induction false} InsertAllStep(d: Database, o: Oracle, rows: seq<Row>, i: nat)
    requires i < |rows| && InsertAll(d, o, rows[..i]).1
    ensures InsertAll(d, o, rows[..i+1]) == StepInsert(InsertAll(d, o, rows[..i]).0, o, rows[i])
  {
    assert rows[..i+1][..i] == rows[..i];
  }

  /** Items after the first failing one change nothing. */
  lemma {:induction false} LoopStops(d: Database, o: Oracle, rows: seq<Row>, i: nat)
    requires i <= |rows| && !InsertAll(d, o, rows[..i]).1
    ensures InsertAll(d, o, rows) == InsertAll(d, o, rows[..i])
    decreases |rows|
  {
    if i == |rows| {
      assert rows[..i] == rows;
    } else {
      assert rows[..|rows|-1][..i] == rows[..i];
      LoopStops(d, o, rows[..|rows|-1], i);
    }
  }
}
