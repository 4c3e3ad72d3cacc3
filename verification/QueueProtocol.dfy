/**
  Every interleaving of push, pop, pop_for and shutdown on utils::ConcurrentQueue, for any
  number of threads.  A stay under mutex_ is one step; each notify_one and notify_all is a
  step of its own, after the lock was dropped.  Condition variables follow ISO C++20 section
  32.6.3: notify_one releases one parked thread if there is any, notify_all releases all,
  and a parked thread may be released spuriously or by its timeout.
 */
module QueueProtocol {
  import opened Wrappers
  import opened Tally
  import opened QueueSpec

  datatype CondVar = NotEmpty | NotFull

  /** Where a thread is inside its current (or last) operation.  `since` is the length of the
      log when the operation was called and `at` the place of its event in the log. */
  datatype Phase<T> =
    | Entering(op: Op<T>, since: nat)
    | Parked(op: Op<T>, since: nat)
    | Released(op: Op<T>, since: nat)
    | OwesNotifyOne(op: Op<T>, ret: Ret<T>, since: nat, at: nat)
    | OwesBothNotifyAll(op: Op<T>, ret: Ret<T>, since: nat, at: nat)
    | OwesLastNotifyAll(op: Op<T>, ret: Ret<T>, since: nat, at: nat)
    | Returned(op: Op<T>, ret: Ret<T>, since: nat, at: nat)
  {
    predicate Finished() {
      OwesNotifyOne? || OwesBothNotifyAll? || OwesLastNotifyAll? || Returned?
    }
  }

  datatype State<T> = State(shared: Shared<T>, threads: map<Tid, Phase<T>>, log: seq<Event<T>>)

  datatype Step<T> =
    | Call(t: Tid, op: Op<T>)
    | Lock(t: Tid, expired: bool)
    | NotifyOne(t: Tid, chosen: Option<Tid>)
    | NotifyAll(t: Tid)
    | SpuriousWakeup(t: Tid)
    | Timeout(t: Tid)

  function Init<T>(capacity: nat): State<T> {
    State(Shared(capacity, [], false), map[], [])
  }

  /** The condition variable an operation waits on, and the one it signals. */
  function WaitsOn<T>(op: Op<T>): CondVar {
    if op.Push? then NotFull else NotEmpty
  }

  function Signals<T>(op: Op<T>): CondVar {
    if op.Push? then NotEmpty else NotFull
  }

  predicate ParkedOn<T>(p: Phase<T>, cv: CondVar) {
    p.Parked? && WaitsOn(p.op) == cv
  }

  ghost predicate SomeoneParked<T>(threads: map<Tid, Phase<T>>, cv: CondVar) {
    exists t :: t in threads && ParkedOn(threads[t], cv)
  }

  ghost predicate Enabled<T>(s: State<T>, step: Step<T>) {
    match step
    case Call(t, _) => t in s.threads ==> s.threads[t].Returned?
    case Lock(t, expired) =>
      && t in s.threads
      && (s.threads[t].Entering? || s.threads[t].Released?)
      && (expired ==> s.threads[t].Released? && s.threads[t].op.PopFor?)
    case NotifyOne(t, chosen) =>
      && t in s.threads && s.threads[t].OwesNotifyOne?
      && (match chosen
          case Some(u) => u in s.threads && ParkedOn(s.threads[u], Signals(s.threads[t].op))
          case None => !SomeoneParked(s.threads, Signals(s.threads[t].op)))
    case NotifyAll(t) => t in s.threads && (s.threads[t].OwesBothNotifyAll? || s.threads[t].OwesLastNotifyAll?)
    case SpuriousWakeup(t) => t in s.threads && s.threads[t].Parked?
    case Timeout(t) => t in s.threads && s.threads[t].Parked? && s.threads[t].op.PopFor?
  }

  function Release<T>(p: Phase<T>): Phase<T>
    requires p.Parked?
  {
    Released(p.op, p.since)
  }

  function ReleaseAll<T>(threads: map<Tid, Phase<T>>, cv: CondVar): map<Tid, Phase<T>> {
    map t | t in threads :: if ParkedOn(threads[t], cv) then Release(threads[t]) else threads[t]
  }

  /** What is left to do once the lock is dropped. */
  function AfterSection<T>(op: Op<T>, ret: Ret<T>, since: nat, at: nat): Phase<T> {
    match ret
    case Accepted => OwesNotifyOne(op, ret, since, at)
    case Item(_) => OwesNotifyOne(op, ret, since, at)
    case Flagged => OwesBothNotifyAll(op, ret, since, at)
    case _ => Returned(op, ret, since, at)
  }

  function With<T>(s: State<T>, t: Tid, p: Phase<T>): State<T> {
    s.(threads := s.threads[t := p])
  }

  /** How a stay under the lock of the operation at `p` ends. */
  function Settle<T>(s: State<T>, t: Tid, p: Phase<T>, shared: Shared<T>, out: Outcome<T>): State<T> {
    match out
    case MustWait => With(s, t, Parked(p.op, p.since))
    case Done(ret) =>
      With(State(shared, s.threads, s.log + [Event(t, p.op, ret)]), t, AfterSection(p.op, ret, p.since, |s.log|))
  }

  /** One stay of thread `t` under the lock. */
  function LockStep<T>(s: State<T>, t: Tid, expired: bool): State<T>
    requires t in s.threads
  {
    var (shared, out) := Section(s.shared, s.threads[t].op, expired);
    Settle(s, t, s.threads[t], shared, out)
  }

  function NotifyAllStep<T>(s: State<T>, t: Tid): State<T>
    requires t in s.threads && (s.threads[t].OwesBothNotifyAll? || s.threads[t].OwesLastNotifyAll?)
  {
    var p := s.threads[t];
    if p.OwesBothNotifyAll? then
      With(s.(threads := ReleaseAll(s.threads, NotEmpty)), t, OwesLastNotifyAll(p.op, p.ret, p.since, p.at))
    else
      With(s.(threads := ReleaseAll(s.threads, NotFull)), t, Returned(p.op, p.ret, p.since, p.at))
  }

  ghost function Apply<T>(s: State<T>, step: Step<T>): State<T>
    requires Enabled(s, step)
  {
    match step
    case Call(t, op) => With(s, t, Entering(op, |s.log|))
    case Lock(t, expired) => LockStep(s, t, expired)
    case NotifyOne(t, chosen) =>
      var p := s.threads[t];
      var notified := With(s, t, Returned(p.op, p.ret, p.since, p.at));
      if chosen.None? then notified else With(notified, chosen.value, Release(s.threads[chosen.value]))
    case NotifyAll(t) => NotifyAllStep(s, t)
    case SpuriousWakeup(t) => With(s, t, Release(s.threads[t]))
    case Timeout(t) => With(s, t, Release(s.threads[t]))
  }

  ghost predicate Runs<T>(s: State<T>, steps: seq<Step<T>>)
    decreases |steps|
  {
    steps == [] || (Enabled(s, steps[0]) && Runs(Apply(s, steps[0]), steps[1..]))
  }

  ghost function After<T>(s: State<T>, steps: seq<Step<T>>): State<T>
    requires Runs(s, steps)
    decreases |steps|
  {
    if steps == [] then s else After(Apply(s, steps[0]), steps[1..])
  }

  // ---------- Invariant 1: the history is one of the abstract queue ----------

  ghost predicate ThreadLogged<T>(log: seq<Event<T>>, t: Tid, p: Phase<T>) {
    && p.since <= |log|
    && (p.Finished() ==> p.since <= p.at < |log| && log[p.at] == Event(t, p.op, p.ret))
    && (p.OwesNotifyOne? ==> p.ret.Accepted? || p.ret.Item?)
    && (p.OwesBothNotifyAll? || p.OwesLastNotifyAll? ==> p.ret.Flagged?)
    && (p.Parked? || p.Released? ==> !p.op.Shutdown?)
  }

  ghost predicate Logged<T>(s: State<T>) {
    && Replay(s.shared.capacity, s.log) == Some(s.shared)
    && forall t :: t in s.threads ==> ThreadLogged(s.log, t, s.threads[t])
  }

  lemma {:induction false} LogGrows<T>(log: seq<Event<T>>, e: Event<T>, t: Tid, p: Phase<T>)
    requires ThreadLogged(log, t, p)
    ensures ThreadLogged(log + [e], t, p)
  {
  }

  lemma {:induction false} AllLogged<T>(s: State<T>, t: Tid, p: Phase<T>, log: seq<Event<T>>,
                                        threads: map<Tid, Phase<T>>)
    requires Logged(s) && (log == s.log || (|log| == |s.log| + 1 && log == s.log + [log[|s.log|]]))
    requires ThreadLogged(log, t, p) && threads == s.threads[t := p]
    ensures forall u :: u in threads ==> ThreadLogged(log, u, threads[u])
  {
    forall u | u in threads ensures ThreadLogged(log, u, threads[u]) {
      if u != t && log != s.log {
        LogGrows(s.log, log[|s.log|], u, s.threads[u]);
      }
    }
  }

  lemma {:induction false} ReplaySnoc<T>(capacity: nat, log: seq<Event<T>>, e: Event<T>)
    requires Replay(capacity, log).Some?
    ensures Replay(capacity, log + [e]) == Next(Replay(capacity, log).value, e)
  {
    assert (log + [e])[..|log|] == log;
  }

  /** A stay that finishes appends its event and leaves the other threads as they are. */
  lemma {:induction false} LoggedDone<T>(s: State<T>, t: Tid, p: Phase<T>, shared: Shared<T>, ret: Ret<T>)
    requires Logged(s) && p.since <= |s.log|
    requires Next(s.shared, Event(t, p.op, ret)) == Some(shared) && shared.capacity == s.shared.capacity
    ensures Logged(Settle(s, t, p, shared, Done(ret)))
  {
    var e := Event(t, p.op, ret);
    var log := s.log + [e];
    ReplaySnoc(s.shared.capacity, s.log, e);
    assert log[|s.log|] == e;
    AllLogged(s, t, AfterSection(p.op, ret, p.since, |s.log|), log, Settle(s, t, p, shared, Done(ret)).threads);
  }

  lemma {:induction false} NextKeepsCapacity<T>(q: Shared<T>, e: Event<T>)
    ensures Next(q, e).Some? ==> Next(q, e).value.capacity == q.capacity
  {
  }

  lemma {:induction false} LoggedSettle<T>(s: State<T>, t: Tid, p: Phase<T>, shared: Shared<T>, out: Outcome<T>)
    requires Logged(s) && p.since <= |s.log|
    requires if out.Done? then Next(s.shared, Event(t, p.op, out.ret)) == Some(shared) else !p.op.Shutdown?
    ensures Logged(Settle(s, t, p, shared, out))
    ensures s.log <= Settle(s, t, p, shared, out).log
  {
    match out {
      case Done(ret) =>
        NextKeepsCapacity(s.shared, Event(t, p.op, ret));
        LoggedDone(s, t, p, shared, ret);
      case MustWait => AllLogged(s, t, Parked(p.op, p.since), s.log, Settle(s, t, p, shared, out).threads);
    }
  }

  lemma {:induction false} LoggedLock<T>(s: State<T>, t: Tid, expired: bool)
    requires Logged(s) && t in s.threads && (s.threads[t].Entering? || s.threads[t].Released?)
    ensures Logged(LockStep(s, t, expired))
    ensures s.log <= LockStep(s, t, expired).log && LockStep(s, t, expired).shared.capacity == s.shared.capacity
  {
    var p := s.threads[t];
    var (shared, out) := Section(s.shared, p.op, expired);
    SectionExplained(s.shared, t, p.op, expired);
    LoggedSettle(s, t, p, shared, out);
  }

  lemma {:induction false} LoggedStep<T>(s: State<T>, step: Step<T>)
    requires Logged(s) && Enabled(s, step)
    ensures Logged(Apply(s, step))
    ensures s.log <= Apply(s, step).log && Apply(s, step).shared.capacity == s.shared.capacity
  {
    match step {
      case Lock(t, expired) => LoggedLock(s, t, expired);
      case Call(_, _) =>
      case NotifyOne(_, _) =>
      case NotifyAll(_) =>
      case SpuriousWakeup(_) =>
      case Timeout(_) =>
    }
  }

  // ---------- Invariant 2: wakeups are not lost ----------

  predicate OwesOn<T>(p: Phase<T>, cv: CondVar) {
    p.OwesNotifyOne? && Signals(p.op) == cv
  }

  predicate AwakeOn<T>(p: Phase<T>, cv: CondVar) {
    p.Released? && WaitsOn(p.op) == cv
  }

  /** Threads that still owe `cv` a notify_one. */
  ghost function Owing<T>(threads: map<Tid, Phase<T>>, cv: CondVar): set<Tid> {
    set t | t in threads && OwesOn(threads[t], cv)
  }

  /** Threads released from `cv` that have not looked at the queue again. */
  ghost function Awake<T>(threads: map<Tid, Phase<T>>, cv: CondVar): set<Tid> {
    set t | t in threads && AwakeOn(threads[t], cv)
  }

  /** How many waiters of `cv` could go on right now: items to take, or free places to fill. */
  ghost function Demand<T>(s: State<T>, cv: CondVar): int {
    if cv == NotEmpty then |s.shared.queue| else s.shared.capacity - |s.shared.queue|
  }

  ghost predicate Covered<T>(s: State<T>, cv: CondVar) {
    SomeoneParked(s.threads, cv) && !s.shared.shutdown ==>
      Demand(s, cv) <= |Owing(s.threads, cv)| + |Awake(s.threads, cv)|
  }

  function One(b: bool): nat {
    if b then 1 else 0
  }

  lemma {:induction false} ToggleSize(before: set<Tid>, after: set<Tid>, t: Tid)
    requires forall u :: u != t ==> (u in before <==> u in after)
    ensures |after| == |before| - One(t in before) + One(t in after)
  {
    assert before - {t} == after - {t};
    assert |before| == |before - {t}| + One(t in before);
    assert |after| == |after - {t}| + One(t in after);
  }

  lemma {:induction false} OwingOfUpdate<T>(m: map<Tid, Phase<T>>, t: Tid, p: Phase<T>, cv: CondVar)
    ensures |Owing(m[t := p], cv)| == |Owing(m, cv)| - One(t in Owing(m, cv)) + One(OwesOn(p, cv))
  {
    ToggleSize(Owing(m, cv), Owing(m[t := p], cv), t);
  }

  lemma {:induction false} AwakeOfUpdate<T>(m: map<Tid, Phase<T>>, t: Tid, p: Phase<T>, cv: CondVar)
    ensures |Awake(m[t := p], cv)| == |Awake(m, cv)| - One(t in Awake(m, cv)) + One(AwakeOn(p, cv))
  {
    ToggleSize(Awake(m, cv), Awake(m[t := p], cv), t);
  }

  /** Updating one thread moves the two counts by that thread's change. */
  lemma {:induction false} CoverageOfUpdate<T>(m: map<Tid, Phase<T>>, t: Tid, p: Phase<T>, cv: CondVar)
    ensures |Owing(m[t := p], cv)| == |Owing(m, cv)| - One(t in Owing(m, cv)) + One(OwesOn(p, cv))
    ensures |Awake(m[t := p], cv)| == |Awake(m, cv)| - One(t in Awake(m, cv)) + One(AwakeOn(p, cv))
    ensures SomeoneParked(m[t := p], cv) && !ParkedOn(p, cv) ==> SomeoneParked(m, cv)
  {
    OwingOfUpdate(m, t, p, cv);
    AwakeOfUpdate(m, t, p, cv);
    if SomeoneParked(m[t := p], cv) && !ParkedOn(p, cv) {
      var u :| u in m[t := p] && ParkedOn(m[t := p][u], cv);
      assert u in m && ParkedOn(m[u], cv);
    }
  }

  /** Only a shutdown call whose flag is already set owes a notify_all. */
  lemma {:induction false} OwersOfAllAreFlagged<T>(s: State<T>, t: Tid)
    requires Logged(s) && t in s.threads && (s.threads[t].OwesBothNotifyAll? || s.threads[t].OwesLastNotifyAll?)
    ensures s.shared.shutdown
  {
    Fifo(s.shared.capacity, s.log);
    assert s.log[s.threads[t].at].ret.Flagged?;
  }

  lemma {:induction false} CoveredLock<T>(s: State<T>, t: Tid, expired: bool, cv: CondVar)
    requires |s.shared.queue| <= s.shared.capacity && Covered(s, cv)
    requires t in s.threads && (s.threads[t].Entering? || s.threads[t].Released?)
    ensures Covered(LockStep(s, t, expired), cv)
  {
    CoverageOfUpdate(s.threads, t, LockStep(s, t, expired).threads[t], cv);
  }

  lemma {:induction false} CoveredNotifyOne<T>(s: State<T>, t: Tid, chosen: Option<Tid>, cv: CondVar)
    requires Covered(s, cv) && Enabled(s, NotifyOne(t, chosen))
    ensures Covered(Apply(s, NotifyOne(t, chosen)), cv)
  {
    var p := s.threads[t];
    var returned := Returned(p.op, p.ret, p.since, p.at);
    CoverageOfUpdate(s.threads, t, returned, cv);
    if chosen.Some? {
      var u := chosen.value;
      CoverageOfUpdate(s.threads[t := returned], u, Release(s.threads[u]), cv);
    }
  }

  lemma {:induction false} CoveredStep<T>(s: State<T>, step: Step<T>, cv: CondVar)
    requires Logged(s) && Covered(s, cv) && Enabled(s, step)
    ensures Covered(Apply(s, step), cv)
  {
    match step {
      case Lock(t, expired) =>
        Fifo(s.shared.capacity, s.log);
        CoveredLock(s, t, expired, cv);
      case NotifyOne(t, chosen) => CoveredNotifyOne(s, t, chosen, cv);
      case NotifyAll(t) => OwersOfAllAreFlagged(s, t);
      case Call(t, op) => CoverageOfUpdate(s.threads, t, Entering(op, |s.log|), cv);
      case SpuriousWakeup(t) => CoverageOfUpdate(s.threads, t, Release(s.threads[t]), cv);
      case Timeout(t) => CoverageOfUpdate(s.threads, t, Release(s.threads[t]), cv);
    }
  }

  // ---------- Invariant 3: whoever is parked at shutdown has a notify_all coming ----------

  /** Whether this shutdown call has still to signal everybody waiting on `cv`. */
  predicate OwesAllOn<T>(p: Phase<T>, cv: CondVar) {
    p.OwesBothNotifyAll? || (p.OwesLastNotifyAll? && cv == NotFull)
  }

  ghost predicate Promised<T>(s: State<T>, cv: CondVar) {
    s.shared.shutdown && SomeoneParked(s.threads, cv) ==> exists t :: t in s.threads && OwesAllOn(s.threads[t], cv)
  }

  /** Everybody parked in `s'` was parked there in `s` already. */
  ghost predicate NobodyNewParked<T>(s: State<T>, s': State<T>) {
    forall t :: t in s'.threads && s'.threads[t].Parked? ==> t in s.threads && s.threads[t] == s'.threads[t]
  }

  lemma {:induction false} ShutdownParksNobody<T>(s: State<T>, step: Step<T>)
    requires s.shared.shutdown && Enabled(s, step)
    ensures Apply(s, step).shared.shutdown && NobodyNewParked(s, Apply(s, step))
  {
    match step {
      case Lock(t, expired) => assert Section(s.shared, s.threads[t].op, expired).1.Done?;
      case Call(_, _) =>
      case NotifyOne(_, _) =>
      case NotifyAll(_) =>
      case SpuriousWakeup(_) =>
      case Timeout(_) =>
    }
  }

  /** A shutdown call keeps its debt to `cv` as long as somebody is parked there. */
  lemma {:induction false} DebtStays<T>(s: State<T>, step: Step<T>, cv: CondVar, u: Tid, w: Tid)
    requires s.shared.shutdown && Enabled(s, step)
    requires w in s.threads && OwesAllOn(s.threads[w], cv)
    requires u in Apply(s, step).threads && ParkedOn(Apply(s, step).threads[u], cv)
    ensures w in Apply(s, step).threads && OwesAllOn(Apply(s, step).threads[w], cv)
  {
    match step {
      case NotifyAll(t) => assert u != t && ParkedOn(s.threads[u], cv);
      case Lock(_, _) =>
      case Call(_, _) =>
      case NotifyOne(_, _) =>
      case SpuriousWakeup(_) =>
      case Timeout(_) =>
    }
  }

  lemma {:induction false} PromisedStep<T>(s: State<T>, step: Step<T>, cv: CondVar)
    requires Promised(s, cv) && Enabled(s, step)
    ensures Promised(Apply(s, step), cv)
  {
    var s' := Apply(s, step);
    if s'.shared.shutdown && SomeoneParked(s'.threads, cv) {
      var u :| u in s'.threads && ParkedOn(s'.threads[u], cv);
      if s.shared.shutdown {
        ShutdownParksNobody(s, step);
        assert ParkedOn(s.threads[u], cv);
        var w :| w in s.threads && OwesAllOn(s.threads[w], cv);
        DebtStays(s, step, cv, u, w);
      } else {
        assert step.Lock? && OwesAllOn(s'.threads[step.t], cv);
      }
    }
  }

  // ---------- Every reachable state ----------

  ghost predicate Inv<T>(s: State<T>) {
    && Logged(s)
    && Covered(s, NotEmpty) && Covered(s, NotFull)
    && Promised(s, NotEmpty) && Promised(s, NotFull)
  }

  lemma {:induction false} InvRuns<T>(s: State<T>, steps: seq<Step<T>>)
    requires Inv(s) && Runs(s, steps)
    ensures Inv(After(s, steps))
    ensures s.log <= After(s, steps).log && After(s, steps).shared.capacity == s.shared.capacity
    decreases |steps|
  {
    if steps == [] {
    } else {
      LoggedStep(s, steps[0]);
      CoveredStep(s, steps[0], NotEmpty);
      CoveredStep(s, steps[0], NotFull);
      PromisedStep(s, steps[0], NotEmpty);
      PromisedStep(s, steps[0], NotFull);
      InvRuns(Apply(s, steps[0]), steps[1..]);
    }
  }

  /** No lost wakeups: while shutdown is unset and a consumer is parked, every queued item is
      matched by a pusher that still owes a notify_one or by a released consumer that will look
      again; the same for free places and parked producers. */
  lemma {:induction false} NoLostWakeups<T>(capacity: nat, steps: seq<Step<T>>)
    requires Runs(Init(capacity), steps)
    ensures var s := After(Init(capacity), steps);
            !s.shared.shutdown ==>
              && (SomeoneParked(s.threads, NotEmpty) ==>
                    |s.shared.queue| <= |Owing(s.threads, NotEmpty)| + |Awake(s.threads, NotEmpty)|)
              && (SomeoneParked(s.threads, NotFull) ==>
                    capacity - |s.shared.queue| <= |Owing(s.threads, NotFull)| + |Awake(s.threads, NotFull)|)
  {
    InvRuns(Init(capacity), steps);
  }

  /** Nobody is forgotten by a shutdown: whenever somebody is parked although the flag is set, some
      shutdown call has still to send the notify_all that is meant for them. */
  lemma {:induction false} ShutdownIsPromised<T>(capacity: nat, steps: seq<Step<T>>, cv: CondVar)
    requires Runs(Init(capacity), steps)
    ensures var s := After(Init(capacity), steps);
            s.shared.shutdown && SomeoneParked(s.threads, cv) ==>
              exists t :: t in s.threads && OwesAllOn(s.threads[t], cv)
  {
    InvRuns(Init(capacity), steps);
  }

  /** Linearizability: in every interleaving the log is a history of the sequential bounded FIFO
      queue ending in the current contents, and each operation that has finished is in that
      history with the answer it gave, at a place after its call. */
  lemma {:induction false} Linearizable<T>(capacity: nat, steps: seq<Step<T>>)
    requires Runs(Init(capacity), steps)
    ensures var s := After(Init(capacity), steps);
            && Replay(capacity, s.log) == Some(s.shared)
            && Pushed(s.log) == Popped(s.log) + s.shared.queue
            && |s.shared.queue| <= capacity
            && forall t :: t in s.threads && s.threads[t].Finished() ==>
                 var p := s.threads[t];
                 p.since <= p.at < |s.log| && s.log[p.at] == Event(t, p.op, p.ret)
  {
    InvRuns(Init(capacity), steps);
    Fifo(capacity, After(Init(capacity), steps).log);
  }

  lemma {:induction false} CallIsFixed<T>(s: State<T>, steps: seq<Step<T>>, u: Tid)
    requires Runs(s, steps) && u in s.threads
    requires forall i :: 0 <= i < |steps| ==> !(steps[i].Call? && steps[i].t == u)
    ensures var p := After(s, steps).threads;
            u in p && p[u].since == s.threads[u].since && p[u].op == s.threads[u].op
    decreases |steps|
  {
    if steps == [] {
    } else {
      CallIsFixed(Apply(s, steps[0]), steps[1..], u);
    }
  }

  /** What is called is what runs: until its next call a thread is inside the operation it called,
      and once finished this operation stands in the history, with its answer, after the call. */
  lemma {:induction false} CallsAreAnswered<T>(s: State<T>, u: Tid, op: Op<T>, rest: seq<Step<T>>)
    requires Inv(s) && Enabled(s, Call(u, op)) && Runs(Apply(s, Call(u, op)), rest)
    requires forall i :: 0 <= i < |rest| ==> !(rest[i].Call? && rest[i].t == u)
    ensures var s' := After(Apply(s, Call(u, op)), rest);
            && u in s'.threads && s'.threads[u].op == op
            && (s'.threads[u].Finished() ==>
                  && |s.log| <= s'.threads[u].at < |s'.log|
                  && s'.log[s'.threads[u].at] == Event(u, op, s'.threads[u].ret))
  {
    var called := Apply(s, Call(u, op));
    CallIsFixed(called, rest, u);
    InvRuns(s, [Call(u, op)]);
    assert After(s, [Call(u, op)]) == called;
    InvRuns(called, rest);
  }

  /** A thread that is back can call any operation, and the first stay under the lock does at once
      what the queue allows: refuse, append, take the front, give up, set the flag, or wait. */
  lemma {:induction false} FirstStay<T>(s: State<T>, u: Tid, op: Op<T>)
    requires u in s.threads ==> s.threads[u].Returned?
    ensures Enabled(s, Call(u, op)) && Enabled(Apply(s, Call(u, op)), Lock(u, false))
    ensures var s' := Apply(Apply(s, Call(u, op)), Lock(u, false));
            var p := s'.threads[u];
            var q := s.shared;
            && p.op == op
            && (p.Parked? <==> !q.shutdown && ((op.Push? && |q.queue| >= q.capacity)
                                               || ((op.Pop? || op.PopFor?) && q.queue == [])))
            && (p.Finished() && p.ret.Accepted? <==> op.Push? && !q.shutdown && |q.queue| < q.capacity)
            && (p.Finished() && p.ret.Refused? <==> op.Push? && q.shutdown)
            && (p.Finished() && p.ret.Item? <==> (op.Pop? || op.PopFor?) && q.queue != [])
            && (p.Finished() && p.ret.Nothing? <==> (op.Pop? || op.PopFor?) && q.queue == [] && q.shutdown)
            && (p.Finished() && p.ret.Flagged? <==> op.Shutdown?)
            && (if p.Finished() && p.ret.Item? then [p.ret.item] else []) + s'.shared.queue
               == q.queue + (if p.Finished() && p.ret.Accepted? then [op.item] else [])
            && s'.shared.shutdown == (q.shutdown || op.Shutdown?) && s'.shared.capacity == q.capacity
  {
    if s.shared.queue != [] && (op.Pop? || op.PopFor?) {
      assert s.shared.queue == [s.shared.queue[0]] + s.shared.queue[1..];
    }
  }

  /** A spurious wakeup is always possible, and harmless: a thread that still has to wait goes back
      to where it was, and nothing else has changed. */
  lemma {:induction false} SpuriousIsHarmless<T>(s: State<T>, t: Tid)
    requires t in s.threads && s.threads[t].Parked?
    ensures Enabled(s, SpuriousWakeup(t)) && Enabled(Apply(s, SpuriousWakeup(t)), Lock(t, false))
    ensures WaitsForOthers(s.shared, s.threads[t]) && !s.shared.shutdown ==>
              Apply(Apply(s, SpuriousWakeup(t)), Lock(t, false)) == s
  {
    var woken := Apply(s, SpuriousWakeup(t));
    assert woken.threads[t := s.threads[t]] == s.threads;
  }

  /** The history respects real time: an operation called after another one finished comes later in it. */
  lemma {:induction false} RealTimeOrder<T>(s: State<T>, t: Tid, u: Tid, op: Op<T>, rest: seq<Step<T>>)
    requires Inv(s) && t in s.threads && s.threads[t].Finished()
    requires Enabled(s, Call(u, op)) && Runs(Apply(s, Call(u, op)), rest)
    requires forall i :: 0 <= i < |rest| ==> !(rest[i].Call? && rest[i].t == u)
    ensures var s' := After(Apply(s, Call(u, op)), rest);
            u in s'.threads && (s'.threads[u].Finished() ==> s.threads[t].at < s'.threads[u].at)
  {
    var called := Apply(s, Call(u, op));
    CallIsFixed(called, rest, u);
    InvRuns(s, [Call(u, op)]);
    assert After(s, [Call(u, op)]) == called;
    InvRuns(called, rest);
  }

  // ---------- Where a run can come to rest ----------

  /** No started operation can move, spurious wakeups aside. */
  ghost predicate Stuck<T(!new)>(s: State<T>) {
    forall step: Step<T> :: !step.Call? && !step.SpuriousWakeup? ==> !Enabled(s, step)
  }

  predicate Resting<T>(p: Phase<T>) {
    p.Returned? || (p.Parked? && !p.op.PopFor?)
  }

  /** A thread that is neither back nor in an untimed wait can always move. */
  lemma {:induction false} CanMove<T>(s: State<T>, t: Tid) returns (step: Step<T>)
    requires t in s.threads && !Resting(s.threads[t])
    ensures Enabled(s, step) && !step.Call? && !step.SpuriousWakeup?
    ensures step.Timeout? ==> s.threads[t].Parked?
  {
    match s.threads[t] {
      case Entering(_, _) => step := Lock(t, false);
      case Released(_, _) => step := Lock(t, false);
      case Parked(_, _) => step := Timeout(t);
      case OwesNotifyOne(op, _, _, _) =>
        if u :| u in s.threads && ParkedOn(s.threads[u], Signals(op)) {
          step := NotifyOne(t, Some(u));
        } else {
          step := NotifyOne(t, None);
        }
      case OwesBothNotifyAll(_, _, _, _) => step := NotifyAll(t);
      case OwesLastNotifyAll(_, _, _, _) => step := NotifyAll(t);
    }
  }

  lemma {:induction false} StuckThread<T(!new)>(s: State<T>, t: Tid)
    requires Stuck(s) && t in s.threads
    ensures Resting(s.threads[t])
  {
    if !Resting(s.threads[t]) {
      var step := CanMove(s, t);
      assert false;
    }
  }

  /** An untimed consumer that has nothing to take, or a producer that has no place to put. */
  predicate WaitsRightly<T>(q: Shared<T>, p: Phase<T>) {
    p.Parked? && ((p.op.Pop? && q.queue == []) || (p.op.Push? && |q.queue| == q.capacity))
  }

  /** Without shutdown the only resting states are the intended ones: everybody is back, or is
      an untimed consumer on an empty queue or a producer on a full one, and never both kinds
      when there is room for at least one item. */
  lemma {:induction false} StuckExactly<T(!new)>(s: State<T>)
    requires Inv(s) && !s.shared.shutdown
    ensures Stuck(s) <==> forall t :: t in s.threads ==> s.threads[t].Returned? || WaitsRightly(s.shared, s.threads[t])
    ensures Stuck(s) && s.shared.capacity > 0 ==>
              !(SomeoneParked(s.threads, NotEmpty) && SomeoneParked(s.threads, NotFull))
  {
    if Stuck(s) {
      forall t | t in s.threads ensures s.threads[t].Returned? || WaitsRightly(s.shared, s.threads[t]) {
        StuckThread(s, t);
        if s.threads[t].Parked? {
          var cv := WaitsOn(s.threads[t].op);
          assert ParkedOn(s.threads[t], cv);
          NobodyCovers(s, cv);
          Fifo(s.shared.capacity, s.log);
        }
      }
    }
  }

  lemma {:induction false} NobodyCovers<T(!new)>(s: State<T>, cv: CondVar)
    requires Stuck(s)
    ensures Owing(s.threads, cv) == {} && Awake(s.threads, cv) == {}
  {
    forall t | t in s.threads ensures !OwesOn(s.threads[t], cv) && !AwakeOn(s.threads[t], cv) {
      StuckThread(s, t);
    }
  }

  /** A timed consumer can always give up: its timeout is enabled while it is parked, and the stay
      under the lock that follows ends the operation, with the front item if there is one. */
  lemma {:induction false} TimedPopReturns<T>(s: State<T>, t: Tid)
    requires t in s.threads && s.threads[t].Parked? && s.threads[t].op.PopFor?
    ensures Enabled(s, Timeout(t))
    ensures var s1 := Apply(s, Timeout(t));
            && Enabled(s1, Lock(t, true))
            && var p := Apply(s1, Lock(t, true)).threads[t];
               p.Finished() && p.ret == if s.shared.queue == [] then Nothing else Item(s.shared.queue[0])
  {
  }

  // ---------- Without shutdown every run settles ----------

  /** Weight of a thread: each of its own steps gives some of it back, a wakeup costs two. */
  function Weight<T>(p: Phase<T>): nat {
    match p
    case Entering(_, _) => 5
    case Released(_, _) => 4
    case OwesNotifyOne(_, _, _, _) => 3
    case Parked(_, _) => 2
    case _ => 0
  }

  ghost function Load<T>(s: State<T>): nat {
    Sum(s.threads, Weight)
  }

  /** The end of a wait that nobody signalled. */
  predicate IsWakeup<T>(step: Step<T>) {
    step.SpuriousWakeup? || step.Timeout?
  }

  function Price<T>(step: Step<T>): nat {
    if step.Call? then 5 else if IsWakeup(step) then 2 else 0
  }

  predicate Own<T>(step: Step<T>) {
    !step.Call? && !IsWakeup(step)
  }

  lemma {:induction false} LoadOfUpdate<T>(s: State<T>, t: Tid, p: Phase<T>)
    ensures Load(With(s, t, p)) + (if t in s.threads then Weight(s.threads[t]) else 0) == Load(s) + Weight(p)
  {
    SumUpdate(s.threads, t, p, Weight);
  }

  lemma {:induction false} LoadAfterLock<T>(s: State<T>, t: Tid, expired: bool)
    requires t in s.threads && (s.threads[t].Entering? || s.threads[t].Released?)
    requires !LockStep(s, t, expired).shared.shutdown
    ensures Load(LockStep(s, t, expired)) < Load(s)
  {
    var s' := LockStep(s, t, expired);
    var locked := State(s'.shared, s.threads, s'.log);
    assert s' == With(locked, t, s'.threads[t]);
    LoadOfUpdate(locked, t, s'.threads[t]);
  }

  lemma {:induction false} LoadAfterNotifyOne<T>(s: State<T>, t: Tid, chosen: Option<Tid>)
    requires Enabled(s, NotifyOne(t, chosen))
    ensures Load(Apply(s, NotifyOne(t, chosen))) < Load(s)
  {
    var p := s.threads[t];
    var returned := Returned(p.op, p.ret, p.since, p.at);
    LoadOfUpdate(s, t, returned);
    if chosen.Some? {
      LoadOfUpdate(With(s, t, returned), chosen.value, Release(s.threads[chosen.value]));
    }
  }

  lemma {:induction false} LoadStep<T>(s: State<T>, step: Step<T>)
    requires Logged(s) && Enabled(s, step) && !Apply(s, step).shared.shutdown
    ensures !s.shared.shutdown
    ensures One(Own(step)) + Load(Apply(s, step)) <= Load(s) + Price(step)
  {
    match step {
      case Lock(t, expired) => LoadAfterLock(s, t, expired);
      case NotifyOne(t, chosen) => LoadAfterNotifyOne(s, t, chosen);
      case NotifyAll(t) => OwersOfAllAreFlagged(s, t);
      case Call(t, op) => LoadOfUpdate(s, t, Entering(op, |s.log|));
      case SpuriousWakeup(t) => LoadOfUpdate(s, t, Release(s.threads[t]));
      case Timeout(t) => LoadOfUpdate(s, t, Release(s.threads[t]));
    }
  }

  function Owns<T>(steps: seq<Step<T>>): nat {
    if steps == [] then 0 else One(Own(steps[0])) + Owns(steps[1..])
  }

  function Prices<T>(steps: seq<Step<T>>): nat {
    if steps == [] then 0 else Price(steps[0]) + Prices(steps[1..])
  }

  lemma {:induction false} LoadRuns<T>(s: State<T>, steps: seq<Step<T>>)
    requires Logged(s) && Runs(s, steps) && !After(s, steps).shared.shutdown
    ensures !s.shared.shutdown
    ensures Owns(steps) + Load(After(s, steps)) <= Load(s) + Prices(steps)
    decreases |steps|
  {
    if steps == [] {
    } else {
      LoggedStep(s, steps[0]);
      LoadRuns(Apply(s, steps[0]), steps[1..]);
      LoadStep(s, steps[0]);
    }
  }

  /** Only calls, spurious wakeups and timeouts are left to happen. */
  ghost predicate Settled<T(!new)>(s: State<T>) {
    forall step: Step<T> :: Own(step) ==> !Enabled(s, step)
  }

  /** A consumer, timed or not, on an empty queue, or a producer on a full one. */
  predicate WaitsForOthers<T>(q: Shared<T>, p: Phase<T>) {
    p.Parked? && (((p.op.Pop? || p.op.PopFor?) && q.queue == []) || (p.op.Push? && |q.queue| == q.capacity))
  }

  lemma {:induction false} SettledThread<T(!new)>(s: State<T>, t: Tid)
    requires Settled(s) && t in s.threads
    ensures s.threads[t].Returned? || s.threads[t].Parked?
  {
    if !s.threads[t].Parked? && !Resting(s.threads[t]) {
      var step := CanMove(s, t);
      assert Own(step);
    }
  }

  lemma {:induction false} SettledExactly<T(!new)>(s: State<T>)
    requires Inv(s) && !s.shared.shutdown
    ensures Settled(s) <==>
              forall t :: t in s.threads ==> s.threads[t].Returned? || WaitsForOthers(s.shared, s.threads[t])
  {
    if Settled(s) {
      forall t | t in s.threads ensures s.threads[t].Returned? || WaitsForOthers(s.shared, s.threads[t]) {
        SettledThread(s, t);
        if s.threads[t].Parked? {
          var cv := WaitsOn(s.threads[t].op);
          assert ParkedOn(s.threads[t], cv);
          forall u | u in s.threads ensures !OwesOn(s.threads[u], cv) && !AwakeOn(s.threads[u], cv) {
            SettledThread(s, u);
          }
          assert Owing(s.threads, cv) == {} && Awake(s.threads, cv) == {};
          Fifo(s.shared.capacity, s.log);
        }
      }
    }
  }

  /** Without shutdown every run settles: each call pays for at most five steps of the operations
      themselves and each spurious wakeup or timeout for two, and as long as some thread is neither
      back nor waiting for what only others can bring, such a step is enabled. */
  lemma {:induction false} EveryRunSettles<T(!new)>(capacity: nat, steps: seq<Step<T>>)
    requires Runs(Init(capacity), steps) && !After(Init(capacity), steps).shared.shutdown
    ensures Owns(steps) <= Prices(steps)
    ensures var s := After(Init(capacity), steps);
            (exists step: Step<T> :: Own(step) && Enabled(s, step)) <==>
              !(forall t :: t in s.threads ==> s.threads[t].Returned? || WaitsForOthers(s.shared, s.threads[t]))
  {
    InvRuns(Init(capacity), steps);
    LoadRuns(Init(capacity), steps);
    assert Load(Init<T>(capacity)) == 0;
    SettledExactly(After(Init(capacity), steps));
  }

  // ---------- Shutdown ----------

  /** How many steps of its own a thread can still take once the flag is set. */
  function Rank<T>(p: Phase<T>): nat {
    match p
    case Entering(_, _) => 3
    case Parked(_, _) => 3
    case Released(_, _) => 2
    case OwesBothNotifyAll(_, _, _, _) => 2
    case OwesNotifyOne(_, _, _, _) => 1
    case OwesLastNotifyAll(_, _, _, _) => 1
    case Returned(_, _, _, _) => 0
  }

  ghost function Remaining<T>(s: State<T>): nat {
    Sum(s.threads, Rank)
  }

  lemma {:induction false} RemainingAfterUpdate<T>(s: State<T>, t: Tid, p: Phase<T>)
    ensures Remaining(With(s, t, p)) + (if t in s.threads then Rank(s.threads[t]) else 0) == Remaining(s) + Rank(p)
  {
    SumUpdate(s.threads, t, p, Rank);
  }

  lemma {:induction false} RemainingNotifyAll<T>(s: State<T>, t: Tid)
    requires t in s.threads && (s.threads[t].OwesBothNotifyAll? || s.threads[t].OwesLastNotifyAll?)
    ensures Remaining(NotifyAllStep(s, t)) < Remaining(s)
  {
    var cv := if s.threads[t].OwesBothNotifyAll? then NotEmpty else NotFull;
    var woken := s.(threads := ReleaseAll(s.threads, cv));
    SumMonotone(s.threads, woken.threads, Rank);
    RemainingAfterUpdate(woken, t, NotifyAllStep(s, t).threads[t]);
  }

  lemma {:induction false} RemainingLock<T>(s: State<T>, t: Tid, expired: bool)
    requires s.shared.shutdown && t in s.threads
    requires s.threads[t].Entering? || (s.threads[t].Released? && !s.threads[t].op.Shutdown?)
    ensures Remaining(LockStep(s, t, expired)) < Remaining(s)
  {
    var s' := LockStep(s, t, expired);
    var locked := State(s'.shared, s.threads, s'.log);
    assert s' == With(locked, t, s'.threads[t]);
    RemainingAfterUpdate(locked, t, s'.threads[t]);
  }

  lemma {:induction false} RemainingNotifyOne<T>(s: State<T>, t: Tid, chosen: Option<Tid>)
    requires Enabled(s, NotifyOne(t, chosen))
    ensures Remaining(Apply(s, NotifyOne(t, chosen))) < Remaining(s)
  {
    var p := s.threads[t];
    var returned := Returned(p.op, p.ret, p.since, p.at);
    RemainingAfterUpdate(s, t, returned);
    if chosen.Some? {
      RemainingAfterUpdate(With(s, t, returned), chosen.value, Release(s.threads[chosen.value]));
    }
  }

  lemma {:induction false} RankFalls<T>(s: State<T>, step: Step<T>)
    requires Logged(s) && s.shared.shutdown && Enabled(s, step) && !step.Call?
    ensures Remaining(Apply(s, step)) < Remaining(s)
  {
    match step {
      case Lock(t, expired) => RemainingLock(s, t, expired);
      case NotifyOne(t, chosen) => RemainingNotifyOne(s, t, chosen);
      case NotifyAll(t) => RemainingNotifyAll(s, t);
      case SpuriousWakeup(t) => RemainingAfterUpdate(s, t, Release(s.threads[t]));
      case Timeout(t) => RemainingAfterUpdate(s, t, Release(s.threads[t]));
    }
  }

  function Calls<T>(steps: seq<Step<T>>): nat {
    if steps == [] then 0 else One(steps[0].Call?) + Calls(steps[1..])
  }

  lemma {:induction false} ShutdownStep<T>(s: State<T>, step: Step<T>)
    requires Logged(s) && s.shared.shutdown && Enabled(s, step)
    ensures 1 + Remaining(Apply(s, step)) <= Remaining(s) + 4 * One(step.Call?)
  {
    if step.Call? {
      RemainingAfterUpdate(s, step.t, Entering(step.op, |s.log|));
    } else {
      RankFalls(s, step);
    }
  }

  /** Once the flag is set nobody parks again, and every operation ends: a run can contain at
      most `Remaining(s)` steps of the operations already started, plus three for each new call. */
  lemma {:induction false} ShutdownTerminates<T>(s: State<T>, steps: seq<Step<T>>)
    requires Logged(s) && s.shared.shutdown && Runs(s, steps)
    ensures After(s, steps).shared.shutdown && NobodyNewParked(s, After(s, steps))
    ensures |steps| - Calls(steps) + Remaining(After(s, steps)) <= Remaining(s) + 3 * Calls(steps)
    decreases |steps|
  {
    if steps == [] {
    } else {
      LoggedStep(s, steps[0]);
      ShutdownParksNobody(s, steps[0]);
      ShutdownStep(s, steps[0]);
      ShutdownTerminates(Apply(s, steps[0]), steps[1..]);
    }
  }

  /** After shutdown nothing gets stuck: some started operation can move until all have returned. */
  lemma {:induction false} ShutdownReleasesEveryone<T(!new)>(s: State<T>)
    requires Inv(s) && s.shared.shutdown
    ensures Stuck(s) <==> forall t :: t in s.threads ==> s.threads[t].Returned?
    ensures Remaining(s) == 0 <==> Stuck(s)
  {
    SumZero(s.threads, Rank);
    if Stuck(s) {
      forall t | t in s.threads ensures s.threads[t].Returned? {
        StuckThread(s, t);
        if s.threads[t].Parked? {
          assert ParkedOn(s.threads[t], WaitsOn(s.threads[t].op));
          var u :| u in s.threads && OwesAllOn(s.threads[u], WaitsOn(s.threads[t].op));
          StuckThread(s, u);
        }
      }
    }
  }

  /** Draining: from any reachable state with the flag set, whatever the threads do, no push is
      accepted any more and pops deliver exactly the items that were left, in order. */
  lemma {:induction false} DrainsAfterShutdown<T>(s: State<T>, steps: seq<Step<T>>)
    requires Inv(s) && s.shared.shutdown && Runs(s, steps)
    ensures var s' := After(s, steps);
            && Pushed(s'.log) == Pushed(s.log)
            && Popped(s'.log) + s'.shared.queue == Popped(s.log) + s.shared.queue
  {
    var s' := After(s, steps);
    InvRuns(s, steps);
    assert s'.log[..|s.log|] == s.log;
    Fifo(s.shared.capacity, s.log);
    ClosedAfterFlag(s.shared.capacity, s'.log, |s.log|);
    Draining(s.shared.capacity, s'.log, |s.log|);
  }
}
