/** storage::StorageEngine in its own form: fields updated in place, checked against StorageSpec. */
module Storage {
  import opened Frames
  import opened PayloadText
  import opened Sqlite
  import Spec = StorageSpec

  class StorageEngine {
    const oracle: Oracle
    var database: Database
    var db: bool
    var insertStmt: bool
    var isInitialized: bool
    var initFailed: bool
    var initFlag: bool
    var opens: nat

    function View(): Spec.Engine
      reads this
    {
      Spec.Engine(database, db, insertStmt, isInitialized, initFailed, initFlag, opens)
    }

    constructor (oracle: Oracle, database: Database)
      ensures View() == Spec.Fresh(database) && this.oracle == oracle
    {
      this.oracle := oracle;
      this.database := database;
      db, insertStmt, isInitialized, initFailed, initFlag := false, false, false, false, false;
      opens := 0;
    }

    method CloseInternal()
      modifies this
      ensures View() == Spec.CloseInternal(old(View()))
    {
      if insertStmt {
        insertStmt := false;
      }
      if db {
        database := Disconnect(database);
        db := false;
      }
      isInitialized := false;
    }

    method Close()
      modifies this
      ensures View() == Spec.Close(old(View()))
    {
      CloseInternal();
      initFailed := false;
    }

    method Exec() returns (ok: bool)
      modifies this
      ensures (View(), ok) == (var (d, ok') := Plain(old(database), oracle); (old(View()).(database := d), ok'))
    {
      var (d, granted) := Plain(database, oracle);
      database := d;
      ok := granted;
    }

    method EnableWalMode() returns (ok: bool)
      modifies this
      ensures View() == old(View()).(database := database)
      ensures var (d1, wal) := Plain(old(database), oracle);
              (database, ok) == if wal then Plain(d1, oracle) else (d1, false)
    {
      ok := Exec();
      if !ok {
        return false;
      }
      ok := Exec();
    }

    method FailInit()
      modifies this
      ensures View() == Spec.InitFailure(old(View()))
    {
      initFailed := true;
      CloseInternal();
    }

    /** The two PRAGMAs of enable_wal_mode, then create_schema. */
    method Configure() returns (ok: bool)
      modifies this
      ensures View() == old(View()).(database := database)
      ensures (database, ok) == Spec.Configure(old(database), oracle)
    {
      ok := EnableWalMode();
      if ok {
        ok := Exec();
      }
    }

    method InitInternal() returns (ok: bool)
      modifies this
      ensures View() == Spec.InitInternal(old(View()), oracle)
      ensures ok == isInitialized
    {
      if isInitialized {
        return true;
      }
      initFailed := false;
      var handedOut := !oracle(database.calls).RefusedAndRolledBack?;
      var rc := Exec();
      opens := opens + 1;
      db := handedOut;
      if !rc {
        FailInit();
        return false;
      }
      var ready := Configure();
      if !ready {
        FailInit();
        return false;
      }
      rc := Exec();
      if !rc {
        FailInit();
        return false;
      }
      insertStmt := true;
      isInitialized := true;
      return true;
    }

    method EnsureInitialized()
      modifies this
      ensures View() == Spec.EnsureInitialized(old(View()), oracle)
    {
      if !initFlag {
        var _ := InitInternal();
        initFlag := true;
      }
    }

    method Init() returns (ok: bool)
      modifies this
      ensures View() == Spec.EnsureInitialized(old(View()), oracle)
      ensures ok == isInitialized
    {
      EnsureInitialized();
      ok := isInitialized;
    }

    /** Binds one frame and steps the prepared statement. */
    method Step(data: Frame) returns (ok: bool)
      modifies this
      ensures View() == old(View()).(database := database)
      ensures (database, ok) == StepInsert(old(database), oracle, RowOf(data))
    {
      var payloadJson := PrintPayload(data.payloadValues);
      var row := Row(CStr(data.robotId), CStr(data.sensorType),
                     ToInt64(data.timestampNs), ToInt64(data.sequenceId), CStr(payloadJson));
      var (d, done) := StepInsert(database, oracle, row);
      database := d;
      ok := done;
    }

    method InsertTelemetry(data: Frame) returns (ok: bool)
      requires Spec.Consistent(View())
      modifies this
      ensures Spec.Consistent(View())
      ensures (View(), ok) == Spec.InsertTelemetry(old(View()), oracle, RowOf(data))
    {
      Spec.InsertTelemetryKeeps(View(), oracle, RowOf(data));
      Spec.EnsureInitializedKeeps(View(), oracle);
      EnsureInitialized();
      if !isInitialized {
        return false;
      }
      ok := Step(data);
    }

    /** The loop of insert_batch, which stops at the first item that fails. */
    method InsertItems(batch: seq<Frame>) returns (success: bool)
      modifies this
      ensures View() == old(View()).(database := database)
      ensures (database, success) == Spec.InsertAll(old(database), oracle, RowsOf(batch))
    {
      ghost var e := View();
      ghost var rows := RowsOf(batch);
      success := true;
      var i := 0;
      while i < |batch|
        invariant i <= |batch| && success
        invariant View() == e.(database := database)
        invariant (database, true) == Spec.InsertAll(e.database, oracle, rows[..i])
      {
        Spec.InsertAllStep(e.database, oracle, rows, i);
        success := Step(batch[i]);
        i := i + 1;
        if !success {
          Spec.LoopStops(e.database, oracle, rows, i);
          return;
        }
      }
      assert rows[..i] == rows;
    }

    method InsertBatch(batch: seq<Frame>) returns (ok: bool)
      requires Spec.Consistent(View())
      modifies this
      ensures Spec.Consistent(View())
      ensures (View(), ok) == Spec.InsertBatch(old(View()), oracle, RowsOf(batch))
      ensures ok ==> isInitialized
      ensures batch == [] ==> ok == isInitialized
    {
      Spec.InsertBatchKeeps(View(), oracle, RowsOf(batch));
      Spec.EnsureInitializedKeeps(View(), oracle);
      EnsureInitialized();
      if !isInitialized {
        return false;
      }
      if batch == [] {
        return true;
      }
      var (begun, granted) := Begin(database, oracle);
      database := begun;
      if !granted {
        return false;
      }
      var success := InsertItems(batch);
      if success {
        var (closed, committed) := Commit(database, oracle);
        database := closed;
        if !committed {
          return false;
        }
      } else {
        database := Rollback(database, oracle).0;
      }
      return success;
    }
  }
}
