/**
  Every interleaving of calls on one StorageEngine, for any number of threads and any oracle.
  A call passes through call_once, then reads the atomic flag without the lock, then takes
  db_mutex_: three steps between which other threads may run.
 */
module StorageProtocol {
  import opened Wrappers
  import opened Tally
  import opened Frames
  import opened Sqlite
  import opened StorageSpec

  datatype Call = Init | Insert(row: Row) | Batch(rows: seq<Row>) | Query | Purge | CloseCall

  datatype Phase =
    | Called(call: Call)
    | Ensured(call: Call)
    | Checked(call: Call)
    | Finished(call: Call, ok: bool)

  /** `acknowledged` are the rows of the calls that answered true, in lock order, and `durable`
      those of them whose section began without an open transaction.  `leaked` tells that a
      section ever ended with its transaction left open, and `nullUses` counts sections that used
      a null statement or connection. */
  datatype System = System(
    engine: Engine,
    threads: map<Tid, Phase>,
    acknowledged: seq<Row>,
    durable: seq<Row>,
    leaked: bool,
    nullUses: nat)

  datatype Step = Start(t: Tid, call: Call) | Proceed(t: Tid)

  function Boot(d: Database): System {
    System(Fresh(d), map[], [], [], false, 0)
  }

  predicate Enabled(s: System, step: Step) {
    match step
    case Start(t, _) => t in s.threads ==> s.threads[t].Finished?
    case Proceed(t) => t in s.threads && !s.threads[t].Finished?
  }

  function WithThread(s: System, t: Tid, p: Phase): System {
    s.(threads := s.threads[t := p])
  }

  function RowsOfCall(call: Call): seq<Row> {
    match call
    case Insert(row) => [row]
    case Batch(rows) => rows
    case _ => []
  }

  /** The part of a call that runs under db_mutex_. */
  function Section(e: Engine, o: Oracle, call: Call): (Engine, bool) {
    match call
    case Insert(row) => InsertSection(e, o, row)
    case Batch(rows) => BatchSection(e, o, rows)
    case CloseCall => (Close(e), true)
    case _ => (e, true)
  }

  /** The unlocked part after call_once: decides the answer, or goes on to the lock. */
  function AfterCheck(e: Engine, call: Call): Phase {
    if call.Init? then Finished(call, e.isInitialized)
    else if !e.isInitialized then Finished(call, false)
    else if call == Batch([]) then Finished(call, true)
    else Checked(call)
  }

  function SectionStep(s: System, o: Oracle, t: Tid, call: Call): System {
    var (e, ok) := Section(s.engine, o, call);
    var rows := if ok then RowsOfCall(call) else [];
    System(e,
           s.threads[t := Finished(call, ok)],
           s.acknowledged + rows,
           s.durable + (if s.engine.database.transaction.None? then rows else []),
           s.leaked || e.database.transaction.Some?,
           s.nullUses + (if RowsOfCall(call) != [] && !s.engine.statement then 1 else 0))
  }

  function Apply(s: System, o: Oracle, step: Step): System
    requires Enabled(s, step)
  {
    match step
    case Start(t, call) => WithThread(s, t, Called(call))
    case Proceed(t) =>
      match s.threads[t]
      case Called(call) =>
        if call.CloseCall? then SectionStep(s, o, t, call)
        else WithThread(s, t, Ensured(call)).(engine := EnsureInitialized(s.engine, o))
      case Ensured(call) => WithThread(s, t, AfterCheck(s.engine, call))
      case Checked(call) => SectionStep(s, o, t, call)
  }

  ghost predicate Runs(s: System, o: Oracle, steps: seq<Step>)
    decreases |steps|
  {
    steps == [] || (Enabled(s, steps[0]) && Runs(Apply(s, o, steps[0]), o, steps[1..]))
  }

  ghost function After(s: System, o: Oracle, steps: seq<Step>): System
    requires Runs(s, o, steps)
    decreases |steps|
  {
    if steps == [] then s else After(Apply(s, o, steps[0]), o, steps[1..])
  }

  // ---------- What every step keeps ----------

  ghost predicate Inv(s: System, base: seq<Row>) {
    && Consistent(s.engine)
    && (forall t :: t in s.threads && (s.threads[t].Ensured? || s.threads[t].Checked?) ==>
          s.engine.initRan && !s.threads[t].call.CloseCall?)
    && (forall t :: t in s.threads && s.threads[t].Checked? ==> !s.threads[t].call.Init?)
    && s.engine.database.committed == base + s.durable
    && (!s.leaked ==> s.engine.database.transaction.None? && s.acknowledged == s.durable)
  }

  /** Effect of a locked section on the rows. */
  lemma {:induction false} SectionEffect(e: Engine, o: Oracle, call: Call)
    requires Consistent(e)
    ensures var (e', ok) := Section(e, o, call);
            && Consistent(e')
            && e'.initRan == e.initRan
            && e'.database.committed
               == e.database.committed + (if ok && e.database.transaction.None? then RowsOfCall(call) else [])
            && (e.database.transaction.Some? && call.Batch? ==> !ok)
  {
    match call {
      case Batch(rows) => RunBatchEffect(e.database, o, rows);
      case _ =>
    }
  }

  lemma {:induction false} InvSection(s: System, o: Oracle, t: Tid, call: Call, base: seq<Row>)
    requires Inv(s, base)
    ensures Inv(SectionStep(s, o, t, call), base)
  {
    SectionEffect(s.engine, o, call);
  }

  lemma {:induction false} InvStep(s: System, o: Oracle, step: Step, base: seq<Row>)
    requires Inv(s, base) && Enabled(s, step)
    ensures Inv(Apply(s, o, step), base)
  {
    if step.Proceed? {
      match s.threads[step.t] {
        case Called(call) =>
          EnsureInitializedKeeps(s.engine, o);
          InvSection(s, o, step.t, call, base);
        case Ensured(_) =>
        case Checked(call) => InvSection(s, o, step.t, call, base);
      }
    }
  }

  lemma {:induction false} InvRuns(s: System, o: Oracle, steps: seq<Step>, base: seq<Row>)
    requires Inv(s, base) && Runs(s, o, steps)
    ensures Inv(After(s, o, steps), base)
    decreases |steps|
  {
    if steps == [] {
    } else {
      InvStep(s, o, steps[0], base);
      InvRuns(Apply(s, o, steps[0]), o, steps[1..], base);
    }
  }

  // ---------- Acknowledged and durable ----------

  /** The step is the section of a batch whose transaction the library's answers leave open. */
  ghost predicate Leaks(s: System, o: Oracle, step: Step)
    requires Enabled(s, step)
  {
    && step.Proceed? && s.threads[step.t].Checked? && s.threads[step.t].call.Batch?
    && s.engine.handle
    && LeavesOpen(o, s.engine.database.calls, |s.threads[step.t].call.rows|)
  }

  ghost predicate SomeLeak(s: System, o: Oracle, steps: seq<Step>)
    requires Runs(s, o, steps)
    decreases |steps|
  {
    steps != [] && (Leaks(s, o, steps[0]) || SomeLeak(Apply(s, o, steps[0]), o, steps[1..]))
  }

  /** A transaction is left open exactly by a batch whose COMMIT, or whose item and ROLLBACK, were
      refused. */
  lemma {:induction false} LeaksExactly(s: System, o: Oracle, step: Step, base: seq<Row>)
    requires Inv(s, base) && Enabled(s, step)
    ensures Apply(s, o, step).leaked <==> s.leaked || Leaks(s, o, step)
  {
    EnsureInitializedKeeps(s.engine, o);
    if !s.leaked && step.Proceed? && s.threads[step.t].Checked? && s.threads[step.t].call.Batch? {
      LeftOpenExactly(s.engine.database, o, s.threads[step.t].call.rows);
    }
  }

  lemma {:induction false} LeakedExactly(s: System, o: Oracle, steps: seq<Step>, base: seq<Row>)
    requires Inv(s, base) && Runs(s, o, steps)
    ensures After(s, o, steps).leaked <==> s.leaked || SomeLeak(s, o, steps)
    decreases |steps|
  {
    if steps == [] {
    } else {
      LeaksExactly(s, o, steps[0], base);
      InvStep(s, o, steps[0], base);
      LeakedExactly(Apply(s, o, steps[0]), o, steps[1..], base);
    }
  }

  /** Over every run and every fault pattern: the table holds exactly the acknowledged rows whose
      call found no transaction left open.  As long as no batch leaves one open, these are all
      acknowledged rows, and no transaction is open between calls. */
  lemma {:induction false} AcknowledgedIsDurable(d: Database, o: Oracle, steps: seq<Step>)
    requires d.transaction.None? && Runs(Boot(d), o, steps)
    ensures var s := After(Boot(d), o, steps);
            && s.engine.database.committed == d.committed + s.durable
            && (!SomeLeak(Boot(d), o, steps) ==>
                  && s.engine.database.committed == d.committed + s.acknowledged
                  && s.engine.database.transaction.None?)
  {
    InvRuns(Boot(d), o, steps, d.committed);
    LeakedExactly(Boot(d), o, steps, d.committed);
  }

  lemma {:induction false} NoLeakWithoutRefusal(s: System, o: Oracle, steps: seq<Step>)
    requires Runs(s, o, steps) && forall n :: !o(n).Refused?
    ensures !SomeLeak(s, o, steps)
    decreases |steps|
  {
    if steps == [] {
    } else {
      NoLeakWithoutRefusal(Apply(s, o, steps[0]), o, steps[1..]);
    }
  }

  /** When every failing call makes SQLite roll back, acknowledged means durable. */
  lemma {:induction false} DurableWithoutRefusal(d: Database, o: Oracle, steps: seq<Step>)
    requires d.transaction.None? && Runs(Boot(d), o, steps) && forall n :: !o(n).Refused?
    ensures var s := After(Boot(d), o, steps);
            s.engine.database.committed == d.committed + s.acknowledged && s.engine.database.transaction.None?
  {
    NoLeakWithoutRefusal(Boot(d), o, steps);
    AcknowledgedIsDurable(d, o, steps);
  }

  /** The step acknowledges a single insert into a transaction left open. */
  ghost predicate Loses(s: System, o: Oracle, step: Step)
    requires Enabled(s, step)
  {
    && step.Proceed? && s.threads[step.t].Checked? && s.threads[step.t].call.Insert?
    && s.engine.statement && s.engine.database.transaction.Some?
    && o(s.engine.database.calls).Granted?
  }

  ghost function Losses(s: System, o: Oracle, steps: seq<Step>): nat
    requires Runs(s, o, steps)
    decreases |steps|
  {
    if steps == [] then 0
    else (if Loses(s, o, steps[0]) then 1 else 0) + Losses(Apply(s, o, steps[0]), o, steps[1..])
  }

  lemma {:induction false} LossStep(s: System, o: Oracle, step: Step, base: seq<Row>)
    requires Inv(s, base) && Enabled(s, step)
    ensures var s' := Apply(s, o, step);
            && |s'.acknowledged| + |s.durable|
               == |s.acknowledged| + |s'.durable| + (if Loses(s, o, step) then 1 else 0)
            && (s.acknowledged == s.durable && !Loses(s, o, step) ==> s'.acknowledged == s'.durable)
  {
    if step.Proceed? {
      SectionEffect(s.engine, o, s.threads[step.t].call);
    }
  }

  lemma {:induction false} LossRuns(s: System, o: Oracle, steps: seq<Step>, base: seq<Row>)
    requires Inv(s, base) && Runs(s, o, steps)
    ensures var s' := After(s, o, steps);
            && |s'.acknowledged| + |s.durable| == |s.acknowledged| + |s'.durable| + Losses(s, o, steps)
            && (s.acknowledged == s.durable && Losses(s, o, steps) == 0 ==> s'.acknowledged == s'.durable)
    decreases |steps|
  {
    if steps == [] {
    } else {
      LossStep(s, o, steps[0], base);
      InvStep(s, o, steps[0], base);
      LossRuns(Apply(s, o, steps[0]), o, steps[1..], base);
    }
  }

  /** Exactly the inserts that are acknowledged into an open transaction are lost: the table misses
      one acknowledged row for each of them, and without any it holds every acknowledged row. */
  lemma {:induction false} LostExactly(d: Database, o: Oracle, steps: seq<Step>)
    requires d.transaction.None? && Runs(Boot(d), o, steps)
    ensures var s := After(Boot(d), o, steps);
            && |d.committed + s.acknowledged| - |s.engine.database.committed| == Losses(Boot(d), o, steps)
            && (s.engine.database.committed == d.committed + s.acknowledged <==> Losses(Boot(d), o, steps) == 0)
  {
    InvRuns(Boot(d), o, steps, d.committed);
    LossRuns(Boot(d), o, steps, d.committed);
  }

  /** While a transaction is left open nothing reaches the table and no batch succeeds. */
  lemma {:induction false} OpenStep(s: System, o: Oracle, step: Step)
    requires Consistent(s.engine) && Enabled(s, step) && s.engine.database.transaction.Some?
    ensures Apply(s, o, step).engine.database.committed == s.engine.database.committed
    ensures step.Proceed? && s.threads[step.t].Checked? && s.threads[step.t].call.Batch?
        ==> Apply(s, o, step).threads[step.t] == Finished(s.threads[step.t].call, false)
  {
    if step.Proceed? {
      EnsureInitializedKeeps(s.engine, o);
      SectionEffect(s.engine, o, s.threads[step.t].call);
    }
  }

  /** The run keeps a transaction open before each of its steps. */
  ghost predicate StaysOpen(s: System, o: Oracle, steps: seq<Step>)
    requires Runs(s, o, steps)
    decreases |steps|
  {
    steps == [] || (s.engine.database.transaction.Some? && StaysOpen(Apply(s, o, steps[0]), o, steps[1..]))
  }

  lemma {:induction false} FrozenWhileOpen(s: System, o: Oracle, steps: seq<Step>, base: seq<Row>)
    requires Inv(s, base) && Runs(s, o, steps) && StaysOpen(s, o, steps)
    ensures After(s, o, steps).engine.database.committed == s.engine.database.committed
    ensures After(s, o, steps).durable == s.durable
    decreases |steps|
  {
    if steps == [] {
    } else {
      OpenStep(s, o, steps[0]);
      InvStep(s, o, steps[0], base);
      FrozenWhileOpen(Apply(s, o, steps[0]), o, steps[1..], base);
    }
  }

  // ---------- Lifecycle ----------

  /** In every reachable state the database was opened at most once, and flag, connection and
      statement agree. */
  lemma {:induction false} OpenedOnce(d: Database, o: Oracle, steps: seq<Step>)
    requires d.transaction.None? && Runs(Boot(d), o, steps)
    ensures var e := After(Boot(d), o, steps).engine;
            && e.opens <= 1
            && (e.isInitialized <==> e.handle && e.statement)
            && (e.isInitialized <==> e.handle || e.statement)
  {
    InvRuns(Boot(d), o, steps, d.committed);
  }

  /** The engine is out of use for good. */
  ghost predicate Dead(e: Engine) {
    e.initRan && !e.isInitialized
  }

  lemma {:induction false} DeadStaysDead(s: System, o: Oracle, steps: seq<Step>, base: seq<Row>)
    requires Inv(s, base) && Runs(s, o, steps) && Dead(s.engine)
    ensures Dead(After(s, o, steps).engine)
    decreases |steps|
  {
    if steps == [] {
    } else {
      InvStep(s, o, steps[0], base);
      DeadStaysDead(Apply(s, o, steps[0]), o, steps[1..], base);
    }
  }

  /** The flag's history is false* true* false*: after it fell it never rises again. */
  lemma {:induction false} FlagRisesOnce(s: System, o: Oracle, rise: seq<Step>, fall: seq<Step>, rest: seq<Step>,
                                         base: seq<Row>)
    requires Inv(s, base) && Runs(s, o, rise) && Runs(After(s, o, rise), o, fall)
    requires Runs(After(After(s, o, rise), o, fall), o, rest)
    requires After(s, o, rise).engine.isInitialized
    requires !After(After(s, o, rise), o, fall).engine.isInitialized
    ensures !After(After(After(s, o, rise), o, fall), o, rest).engine.isInitialized
  {
    var up := After(s, o, rise);
    InvRuns(s, o, rise, base);
    InitStays(up, o, fall, base);
    InvRuns(up, o, fall, base);
    DeadStaysDead(After(up, o, fall), o, rest, base);
  }

  lemma {:induction false} InitStays(s: System, o: Oracle, steps: seq<Step>, base: seq<Row>)
    requires Inv(s, base) && Runs(s, o, steps) && s.engine.initRan
    ensures After(s, o, steps).engine.initRan
    decreases |steps|
  {
    if steps == [] {
    } else {
      InvStep(s, o, steps[0], base);
      InitStays(Apply(s, o, steps[0]), o, steps[1..], base);
    }
  }

  /** Whether a call answers true on an engine that is out of use: only a purge or query that
      passed its ready check in time does (a query's answer is the empty list either way). */
  predicate Spared(p: Phase) {
    match p
    case Checked(call) => call.Purge? || call.Query?
    case Finished(_, ok) => ok
    case _ => false
  }

  lemma {:induction false} DeadAnswer(s: System, o: Oracle, t: Tid, base: seq<Row>)
    requires Inv(s, base) && Dead(s.engine) && Enabled(s, Proceed(t)) && !s.threads[t].call.CloseCall?
    ensures var p := Apply(s, o, Proceed(t)).threads[t];
            && (p.Finished? ==>
                  (p.ok <==> s.threads[t].Checked? && (s.threads[t].call.Purge? || s.threads[t].call.Query?)))
            && (Spared(p) <==> Spared(s.threads[t]))
            && p.call == s.threads[t].call && (p.Checked? ==> s.threads[t].Checked?)
  {
  }

  /** After a failed init, or a close that followed init, a call answers true if and only if it is
      a purge or query that was past its ready check by then; close itself is not concerned. */
  lemma {:induction false} DeadAnswers(s: System, o: Oracle, steps: seq<Step>, base: seq<Row>, t: Tid)
    requires Inv(s, base) && Runs(s, o, steps) && Dead(s.engine) && t in s.threads
    requires !s.threads[t].call.CloseCall?
    requires forall i :: 0 <= i < |steps| ==> !(steps[i].Start? && steps[i].t == t)
    ensures var p := After(s, o, steps).threads;
            && t in p && p[t].call == s.threads[t].call
            && (p[t].Finished? ==> (p[t].ok <==> Spared(s.threads[t])))
            && (p[t].Checked? ==> s.threads[t].Checked?)
    decreases |steps|
  {
    if steps == [] {
    } else {
      if steps[0] == Proceed(t) {
        DeadAnswer(s, o, t, base);
      }
      InvStep(s, o, steps[0], base);
      DeadStaysDead(s, o, [steps[0]], base);
      DeadAnswers(Apply(s, o, steps[0]), o, steps[1..], base, t);
    }
  }

  /** No insert and no batch succeeds any more, not even one that was past its ready check. */
  lemma {:induction false} DeadAcknowledgesNothing(s: System, o: Oracle, steps: seq<Step>, base: seq<Row>)
    requires Inv(s, base) && Runs(s, o, steps) && Dead(s.engine)
    ensures After(s, o, steps).acknowledged == s.acknowledged
    ensures After(s, o, steps).engine.database.committed == s.engine.database.committed
    decreases |steps|
  {
    if steps == [] {
    } else {
      InvStep(s, o, steps[0], base);
      DeadStaysDead(s, o, [steps[0]], base);
      DeadAcknowledgesNothing(Apply(s, o, steps[0]), o, steps[1..], base);
    }
  }

  lemma {:induction false} RunsAppend(s: System, o: Oracle, a: seq<Step>, b: seq<Step>)
    requires Runs(s, o, a) && Runs(After(s, o, a), o, b)
    ensures Runs(s, o, a + b) && After(s, o, a + b) == After(After(s, o, a), o, b)
    decreases |a|
  {
    if a == [] {
      assert a + b == b;
    } else {
      assert (a + b)[1..] == a[1..] + b;
      RunsAppend(Apply(s, o, a[0]), o, a[1..], b);
    }
  }

  /** Thread 0 passes the ready check of `call`. */
  function Check(call: Call): seq<Step> {
    [Start(0, call), Proceed(0), Proceed(0)]
  }

  /** Thread 1 closes the engine, then thread 0 goes on to its section. */
  function CloseThenGoOn(): seq<Step> {
    [Start(1, CloseCall), Proceed(1), Proceed(0)]
  }

  lemma {:induction false} RunsCons(s: System, o: Oracle, step: Step, rest: seq<Step>)
    requires Enabled(s, step) && Runs(Apply(s, o, step), o, rest)
    ensures Runs(s, o, [step] + rest) && After(s, o, [step] + rest) == After(Apply(s, o, step), o, rest)
  {
    assert ([step] + rest)[1..] == rest;
  }

  lemma {:induction false} ThreeSteps(s: System, o: Oracle, a: Step, b: Step, c: Step)
    requires Enabled(s, a) && Enabled(Apply(s, o, a), b) && Enabled(Apply(Apply(s, o, a), o, b), c)
    ensures Runs(s, o, [a, b, c])
    ensures After(s, o, [a, b, c]) == Apply(Apply(Apply(s, o, a), o, b), o, c)
  {
    var s1 := Apply(s, o, a);
    RunsCons(Apply(s1, o, b), o, c, []);
    RunsCons(s1, o, b, [c] + []);
    RunsCons(s, o, a, [b] + ([c] + []));
    assert [a, b, c] == [a] + ([b] + ([c] + []));
  }

  function OpenEngine(): Engine {
    Engine(Database([], None, 5), true, true, true, false, true, 1)
  }

  lemma {:induction false} FaultlessInit(o: Oracle)
    requires forall n :: o(n).Granted?
    ensures EnsureInitialized(Fresh(Database([], None, 0)), o) == OpenEngine()
  {
  }

  lemma {:induction false} Checks(o: Oracle, call: Call)
    requires (forall n :: o(n).Granted?) && (call.Insert? || call.Purge? || call.Query?)
    ensures var s := Boot(Database([], None, 0));
            Runs(s, o, Check(call))
            && After(s, o, Check(call)) == System(OpenEngine(), map[0 := Checked(call)], [], [], false, 0)
  {
    FaultlessInit(o);
    var s := Boot(Database([], None, 0));
    var s1 := WithThread(s, 0, Called(call));
    var s2 := WithThread(s1, 0, Ensured(call)).(engine := OpenEngine());
    assert Apply(s1, o, Proceed(0)) == s2;
    assert Apply(s2, o, Proceed(0)) == WithThread(s2, 0, Checked(call));
    ThreeSteps(s, o, Start(0, call), Proceed(0), Proceed(0));
  }

  lemma {:induction false} GoesOn(o: Oracle, call: Call, s: System)
    requires call.Insert? || call.Purge? || call.Query?
    requires s == System(OpenEngine(), map[0 := Checked(call)], [], [], false, 0)
    ensures Runs(s, o, CloseThenGoOn())
    ensures var s' := After(s, o, CloseThenGoOn());
            && Dead(s'.engine)
            && 0 in s'.threads && s'.threads[0] == Finished(call, !call.Insert?)
            && s'.nullUses == (if call.Insert? then 1 else 0)
  {
    var s1 := WithThread(s, 1, Called(CloseCall));
    var s2 := SectionStep(s1, o, 1, CloseCall);
    assert s2.engine == Engine(Database([], None, 5), false, false, false, false, true, 1);
    assert s2.threads[0] == Checked(call) && s2.nullUses == 0;
    assert Apply(s2, o, Proceed(0)) == SectionStep(s2, o, 0, call);
    ThreeSteps(s, o, Start(1, CloseCall), Proceed(1), Proceed(0));
  }

  /** Without faults, when a close comes between the ready check of a call and its section, a purge
      or query answers true on the closed engine, and an insert uses a null statement. */
  lemma {:induction false} ClosedInBetween(o: Oracle, call: Call)
    requires (forall n :: o(n).Granted?) && (call.Insert? || call.Purge? || call.Query?)
    ensures var steps := Check(call) + CloseThenGoOn();
            && Runs(Boot(Database([], None, 0)), o, steps)
            && var s := After(Boot(Database([], None, 0)), o, steps);
               && Dead(s.engine)
               && 0 in s.threads && s.threads[0] == Finished(call, !call.Insert?)
               && s.nullUses == (if call.Insert? then 1 else 0)
  {
    var s := Boot(Database([], None, 0));
    Checks(o, call);
    GoesOn(o, call, After(s, o, Check(call)));
    RunsAppend(s, o, Check(call), CloseThenGoOn());
  }

  // ---------- The unlocked ready check ----------

  /** Some step of the run is the locked section of a close. */
  ghost predicate Closes(s: System, o: Oracle, steps: seq<Step>)
    requires Runs(s, o, steps)
    decreases |steps|
  {
    steps != [] &&
    ((steps[0].Proceed? && s.threads[steps[0].t] == Called(CloseCall))
     || Closes(Apply(s, o, steps[0]), o, steps[1..]))
  }

  lemma {:induction false} FallsOnlyByClose(s: System, o: Oracle, step: Step, base: seq<Row>)
    requires Inv(s, base) && Enabled(s, step) && s.engine.initRan
    ensures Apply(s, o, step).engine.isInitialized
       <==> s.engine.isInitialized && !(step.Proceed? && s.threads[step.t] == Called(CloseCall))
  {
  }

  /** Between its ready check and its section a call is exposed: the statement it is about to use
      is non-null exactly when no close took the lock in between. */
  lemma {:induction false} CheckThenLock(s: System, o: Oracle, steps: seq<Step>, base: seq<Row>)
    requires Inv(s, base) && Runs(s, o, steps) && s.engine.initRan && s.engine.isInitialized
    ensures After(s, o, steps).engine.statement <==> !Closes(s, o, steps)
    decreases |steps|
  {
    if steps == [] {
    } else {
      var s1 := Apply(s, o, steps[0]);
      FallsOnlyByClose(s, o, steps[0], base);
      InvStep(s, o, steps[0], base);
      if s1.engine.isInitialized {
        CheckThenLock(s1, o, steps[1..], base);
      } else {
        DeadStaysDead(s1, o, steps[1..], base);
        InvRuns(s1, o, steps[1..], base);
      }
    }
  }

  lemma {:induction false} NullUseIffClosed(s: System, o: Oracle, t: Tid, between: seq<Step>, base: seq<Row>)
    requires Inv(s, base) && Enabled(s, Proceed(t)) && s.threads[t].Ensured?
    requires var checked := Apply(s, o, Proceed(t));
             && checked.threads[t].Checked? && RowsOfCall(checked.threads[t].call) != []
             && Runs(checked, o, between)
             && forall i :: 0 <= i < |between| ==> between[i].t != t
    ensures var checked := Apply(s, o, Proceed(t));
            var s' := After(checked, o, between);
            && Enabled(s', Proceed(t))
            && (Apply(s', o, Proceed(t)).nullUses > s'.nullUses <==> Closes(checked, o, between))
  {
    var checked := Apply(s, o, Proceed(t));
    InvStep(s, o, Proceed(t), base);
    CheckThenLock(checked, o, between, base);
    OthersKeepPhase(checked, o, between, t);
  }

  lemma {:induction false} OthersKeepPhase(s: System, o: Oracle, steps: seq<Step>, t: Tid)
    requires Runs(s, o, steps) && t in s.threads
    requires forall i :: 0 <= i < |steps| ==> steps[i].t != t
    ensures t in After(s, o, steps).threads && After(s, o, steps).threads[t] == s.threads[t]
    decreases |steps|
  {
    if steps == [] {
    } else {
      OthersKeepPhase(Apply(s, o, steps[0]), o, steps[1..], t);
    }
  }

  // ---------- Calls that are not interrupted ----------

  /** A call that runs alone: its three steps, or two when the ready check decides. */
  function Alone(s: System, o: Oracle, t: Tid, call: Call): System
    requires Enabled(s, Start(t, call)) && !call.CloseCall?
  {
    var ensured := Apply(Apply(s, o, Start(t, call)), o, Proceed(t));
    var checked := Apply(ensured, o, Proceed(t));
    if checked.threads[t].Finished? then checked else Apply(checked, o, Proceed(t))
  }

  lemma {:induction false} CallIsFixed(s: System, o: Oracle, steps: seq<Step>, t: Tid)
    requires Runs(s, o, steps) && t in s.threads
    requires forall i :: 0 <= i < |steps| ==> !(steps[i].Start? && steps[i].t == t)
    ensures t in After(s, o, steps).threads && After(s, o, steps).threads[t].call == s.threads[t].call
    decreases |steps|
  {
    if steps == [] {
    } else {
      CallIsFixed(Apply(s, o, steps[0]), o, steps[1..], t);
    }
  }

  /** What is called is what runs: until its next call a thread is inside the call it started. */
  lemma {:induction false} CallsAreKept(s: System, o: Oracle, t: Tid, call: Call, rest: seq<Step>)
    requires t in s.threads ==> s.threads[t].Finished?
    requires Runs(Apply(s, o, Start(t, call)), o, rest)
    requires forall i :: 0 <= i < |rest| ==> !(rest[i].Start? && rest[i].t == t)
    ensures var s' := After(Apply(s, o, Start(t, call)), o, rest);
            t in s'.threads && s'.threads[t].call == call
  {
    CallIsFixed(Apply(s, o, Start(t, call)), o, rest, t);
  }

  /** Run alone, init, purge and query initialise the engine if nobody did, answer whether it is
      ready, and touch no row; close is one stay under the lock. */
  lemma {:induction false} AloneAnswers(s: System, o: Oracle, t: Tid, call: Call)
    requires (t in s.threads ==> s.threads[t].Finished?) && (call.Init? || call.Purge? || call.Query?)
    ensures var e := EnsureInitialized(s.engine, o);
            var s' := Alone(s, o, t, call);
            && s'.engine == e && s'.threads[t] == Finished(call, e.isInitialized)
            && s'.acknowledged == s.acknowledged && s'.nullUses == s.nullUses
    ensures var closing := Apply(s, o, Start(t, CloseCall));
            && Enabled(closing, Proceed(t))
            && Apply(closing, o, Proceed(t)).engine == Close(s.engine)
            && Apply(closing, o, Proceed(t)).threads[t] == Finished(CloseCall, true)
  {
  }

  /** A purge or query answers whether the engine was ready at its check, whatever happens between
      check and section. */
  lemma {:induction false} ReadersAnswerTheCheck(s: System, o: Oracle, t: Tid, between: seq<Step>)
    requires Enabled(s, Proceed(t)) && s.threads[t].Ensured?
    requires s.threads[t].call.Purge? || s.threads[t].call.Query?
    requires var checked := Apply(s, o, Proceed(t));
             Runs(checked, o, between) && forall i :: 0 <= i < |between| ==> between[i].t != t
    ensures var s' := After(Apply(s, o, Proceed(t)), o, between);
            && t in s'.threads
            && (!s.engine.isInitialized ==> s'.threads[t] == Finished(s.threads[t].call, false))
            && (s.engine.isInitialized ==>
                  && Enabled(s', Proceed(t))
                  && Apply(s', o, Proceed(t)).threads[t] == Finished(s.threads[t].call, true))
  {
    OthersKeepPhase(Apply(s, o, Proceed(t)), o, between, t);
  }

  /** Run alone, the steps of insert_telemetry and insert_batch make up the public calls. */
  lemma {:induction false} AloneIsThePublicCall(s: System, o: Oracle, t: Tid, row: Row, rows: seq<Row>)
    requires Enabled(s, Start(t, Insert(row)))
    ensures var (e, ok) := InsertTelemetry(s.engine, o, row);
            var s' := Alone(s, o, t, Insert(row));
            s'.engine == e && s'.threads[t] == Finished(Insert(row), ok)
    ensures var (e, ok) := InsertBatch(s.engine, o, rows);
            var s' := Alone(s, o, t, Batch(rows));
            s'.engine == e && s'.threads[t] == Finished(Batch(rows), ok)
  {
  }
}
