/**
  The gateway node: subscription callbacks, the worker thread and the destructor, interleaved in
  every way, over the non-blocking bounded queue and the storage engine.  Decryption and JSON
  parsing are arbitrary partial functions and storage faults an arbitrary oracle.
 */
module Pipeline {
  import opened Wrappers
  import opened Tally
  import opened Frames
  import opened Sqlite
  import opened StorageSpec
  import opened Ingestion
  import opened BoundedQueue

  /** Capacity given to telemetry_queue_ by the constructor. */
  const QUEUE_CAPACITY: nat := 1000

  datatype Environment = Environment(
    decrypt: string -> Option<string>,
    parseJson: string -> Parsing,
    unspecified: Unspecified,
    oracle: Oracle)

  /** One run of process_incoming_raw_payload. */
  datatype Callback = Received(packet: string) | Parsed(data: Frame) | Answered(ok: bool) | Threw

  /** Where worker_thread_loop is: testing its guard, popping, sleeping, in the three parts of one
      iteration (ready check, locked insert, publish), or gone. */
  datatype Worker =
    | Testing
    | Popping
    | Sleeping
    | Checking(data: Frame)
    | Inserting(data: Frame)
    | Publishing(data: Frame, stored: bool)
    | Exited

  datatype Destructor = NotStarted | Joining | Joined | Closed

  /** A frame with the answer it got: queued or dropped, stored or not. */
  datatype Verdict = Verdict(data: Frame, ok: bool)

  datatype Node = Node(
    callbacks: map<Tid, Callback>,
    queue: seq<Frame>,
    worker: Worker,
    destructor: Destructor,
    running: bool,
    rosOk: bool,
    engine: Engine,
    parsed: seq<Frame>,
    offered: seq<Verdict>,
    processed: seq<Verdict>,
    published: seq<Message>,
    nullUses: nat)

  datatype Step =
    | Deliver(t: Tid, packet: string)
    | Decode(t: Tid, clock: uint64, outcome: Callback)
    | Push(t: Tid)
    | Work
    | RosShutdown
    | StopRunning
    | Join
    | CloseStorage

  /** The constructor: storage is initialised before the worker starts. */
  function Construct(env: Environment, d: Database): Node {
    Node(map[], [], Testing, NotStarted, true, true, EnsureInitialized(Fresh(d), env.oracle), [], [], [], [], 0)
  }

  /** What decryption and parse_and_validate can make of a packet. */
  ghost predicate DecodesTo(env: Environment, packet: string, clock: uint64, outcome: Callback) {
    match env.decrypt(packet)
    case None => outcome == Answered(false)
    case Some(text) =>
      match env.parseJson(text)
      case SyntaxError => outcome == Answered(false)
      case NumberOverflow => outcome == Threw
      case Document(j) =>
        if !WellTyped(j) then outcome == Threw
        else outcome.Parsed? && FrameFor(j, clock, env.unspecified, outcome.data)
  }

  ghost predicate Enabled(s: Node, env: Environment, step: Step) {
    match step
    case Deliver(t, _) => t in s.callbacks ==> s.callbacks[t].Answered? || s.callbacks[t].Threw?
    case Decode(t, clock, outcome) =>
      t in s.callbacks && s.callbacks[t].Received? && DecodesTo(env, s.callbacks[t].packet, clock, outcome)
    case Push(t) => t in s.callbacks && s.callbacks[t].Parsed?
    case Work => !s.worker.Exited?
    case RosShutdown => true
    case StopRunning => s.destructor.NotStarted?
    case Join => s.destructor.Joining? && s.worker.Exited?
    case CloseStorage => s.destructor.Joined?
  }

  function DecodeStep(s: Node, t: Tid, outcome: Callback): Node {
    s.(callbacks := s.callbacks[t := outcome], parsed := s.parsed + (if outcome.Parsed? then [outcome.data] else []))
  }

  /** The callback's push; its answer is ignored, the callback returns true either way. */
  function PushStep(s: Node, t: Tid): Node
    requires t in s.callbacks && s.callbacks[t].Parsed?
  {
    var data := s.callbacks[t].data;
    var (queue, pushed) := Offer(s.queue, QUEUE_CAPACITY, data);
    s.(callbacks := s.callbacks[t := Answered(true)], queue := queue, offered := s.offered + [Verdict(data, pushed)])
  }

  function Listed(m: Option<Message>): seq<Message> {
    if m.Some? then [m.value] else []
  }

  /** Zero or one message goes out for a frame. */
  function MessageOf(data: Frame): seq<Message> {
    Listed(Publish(data))
  }

  function PopStep(s: Node): Node {
    if s.queue == [] then s.(worker := Sleeping)
    else s.(worker := Checking(s.queue[0]), queue := s.queue[1..])
  }

  /** insert_telemetry up to its ready check, which is not under the lock. */
  function CheckStep(s: Node, env: Environment, data: Frame): Node {
    var e := EnsureInitialized(s.engine, env.oracle);
    s.(engine := e, worker := if e.isInitialized then Inserting(data) else Publishing(data, false))
  }

  function InsertStep(s: Node, env: Environment, data: Frame): Node {
    var (e, ok) := InsertSection(s.engine, env.oracle, RowOf(data));
    s.(engine := e, worker := Publishing(data, ok), nullUses := s.nullUses + (if s.engine.statement then 0 else 1))
  }

  function PublishStep(s: Node, data: Frame, stored: bool): Node {
    s.(worker := Testing,
       processed := s.processed + [Verdict(data, stored)],
       published := s.published + MessageOf(data))
  }

  function WorkStep(s: Node, env: Environment): Node
    requires !s.worker.Exited?
  {
    match s.worker
    case Testing => s.(worker := if s.running && s.rosOk then Popping else Exited)
    case Popping => PopStep(s)
    case Sleeping => s.(worker := Testing)
    case Checking(data) => CheckStep(s, env, data)
    case Inserting(data) => InsertStep(s, env, data)
    case Publishing(data, stored) => PublishStep(s, data, stored)
  }

  ghost function Apply(s: Node, env: Environment, step: Step): Node
    requires Enabled(s, env, step)
  {
    match step
    case Deliver(t, packet) => s.(callbacks := s.callbacks[t := Received(packet)])
    case Decode(t, _, outcome) => DecodeStep(s, t, outcome)
    case Push(t) => PushStep(s, t)
    case Work => WorkStep(s, env)
    case RosShutdown => s.(rosOk := false)
    case StopRunning => s.(running := false, destructor := Joining)
    case Join => s.(destructor := Joined)
    case CloseStorage => s.(engine := Close(s.engine), destructor := Closed)
  }

  ghost predicate Runs(s: Node, env: Environment, steps: seq<Step>)
    decreases |steps|
  {
    steps == [] || (Enabled(s, env, steps[0]) && Runs(Apply(s, env, steps[0]), env, steps[1..]))
  }

  ghost function After(s: Node, env: Environment, steps: seq<Step>): Node
    requires Runs(s, env, steps)
    decreases |steps|
  {
    if steps == [] then s else After(Apply(s, env, steps[0]), env, steps[1..])
  }

  lemma {:induction false} RunsCons(s: Node, env: Environment, step: Step, rest: seq<Step>)
    requires Enabled(s, env, step) && Runs(Apply(s, env, step), env, rest)
    ensures Runs(s, env, [step] + rest)
    ensures After(s, env, [step] + rest) == After(Apply(s, env, step), env, rest)
  {
    assert ([step] + rest)[1..] == rest;
  }

  lemma {:induction false} RunsAppend(s: Node, env: Environment, a: seq<Step>, b: seq<Step>)
    requires Runs(s, env, a) && Runs(After(s, env, a), env, b)
    ensures Runs(s, env, a + b) && After(s, env, a + b) == After(After(s, env, a), env, b)
    decreases |a|
  {
    if a == [] {
      assert a + b == b;
    } else {
      assert (a + b)[1..] == a[1..] + b;
      RunsAppend(Apply(s, env, a[0]), env, a[1..], b);
    }
  }

  // ---------- The histories ----------

  function FramesOf(v: seq<Verdict>): (r: seq<Frame>)
    ensures |r| == |v|
  {
    if v == [] then [] else FramesOf(v[..|v|-1]) + [v[|v|-1].data]
  }

  /** The frames that got a positive answer, in order. */
  function Positive(v: seq<Verdict>): seq<Frame> {
    if v == [] then []
    else Positive(v[..|v|-1]) + (if v[|v|-1].ok then [v[|v|-1].data] else [])
  }

  function Negative(v: seq<Verdict>): seq<Frame> {
    if v == [] then []
    else Negative(v[..|v|-1]) + (if v[|v|-1].ok then [] else [v[|v|-1].data])
  }

  function MessagesOf(v: seq<Verdict>): seq<Message> {
    if v == [] then []
    else MessagesOf(v[..|v|-1]) + MessageOf(v[|v|-1].data)
  }

  lemma {:induction false} Appended(v: seq<Verdict>, x: Verdict)
    ensures FramesOf(v + [x]) == FramesOf(v) + [x.data]
    ensures Positive(v + [x]) == Positive(v) + (if x.ok then [x.data] else [])
    ensures Negative(v + [x]) == Negative(v) + (if x.ok then [] else [x.data])
    ensures MessagesOf(v + [x]) == MessagesOf(v) + MessageOf(x.data)
  {
    assert (v + [x])[..|v|] == v;
  }

  /** Every frame with a verdict is in exactly one of the two buckets. */
  lemma {:induction false} Split(v: seq<Verdict>)
    ensures multiset(FramesOf(v)) == multiset(Positive(v)) + multiset(Negative(v))
  {
    if v == [] {
    } else {
      Split(v[..|v|-1]);
    }
  }

  /** The frame in the worker's hand. */
  function Hand(w: Worker): seq<Frame> {
    match w
    case Checking(data) => [data]
    case Inserting(data) => [data]
    case Publishing(data, _) => [data]
    case _ => []
  }

  function StoredHand(w: Worker): seq<Frame> {
    if w.Publishing? && w.stored then [w.data] else []
  }

  // ---------- Conservation and order ----------

  ghost predicate Conserved(s: Node) {
    && Positive(s.offered) == FramesOf(s.processed) + Hand(s.worker) + s.queue
    && |s.queue| <= QUEUE_CAPACITY
    && s.published == MessagesOf(s.processed)
  }

  lemma {:induction false} ConservedPop(s: Node)
    requires Conserved(s) && s.worker.Popping?
    ensures Conserved(PopStep(s))
  {
    var done := FramesOf(s.processed);
    if s.queue != [] {
      assert done + [] + s.queue == done + [s.queue[0]] + s.queue[1..];
    }
  }

  lemma {:induction false} ConservedPublish(s: Node, data: Frame, stored: bool)
    requires Conserved(s) && s.worker == Publishing(data, stored)
    ensures Conserved(PublishStep(s, data, stored))
  {
    Appended(s.processed, Verdict(data, stored));
  }

  /** A step that moves no frame keeps conservation. */
  lemma {:induction false} ConservedSame(s: Node, w: Worker, e: Engine, nullUses: nat)
    requires Conserved(s) && Hand(w) == Hand(s.worker)
    ensures Conserved(s.(worker := w, engine := e, nullUses := nullUses))
  {
  }

  lemma {:induction false} ConservedWork(s: Node, env: Environment)
    requires Conserved(s) && !s.worker.Exited?
    ensures Conserved(WorkStep(s, env))
  {
    var s' := WorkStep(s, env);
    match s.worker {
      case Popping => ConservedPop(s);
      case Publishing(data, stored) => ConservedPublish(s, data, stored);
      case Testing => ConservedSame(s, s'.worker, s.engine, s.nullUses);
      case Sleeping => ConservedSame(s, Testing, s.engine, s.nullUses);
      case Checking(_) => ConservedSame(s, s'.worker, s'.engine, s.nullUses);
      case Inserting(_) => ConservedSame(s, s'.worker, s'.engine, s'.nullUses);
    }
  }

  lemma {:induction false} ConservedPush(s: Node, t: Tid)
    requires Conserved(s) && t in s.callbacks && s.callbacks[t].Parsed?
    ensures Conserved(PushStep(s, t))
  {
    var data := s.callbacks[t].data;
    Appended(s.offered, Verdict(data, Offer(s.queue, QUEUE_CAPACITY, data).1));
  }

  lemma {:induction false} ConservedStep(s: Node, env: Environment, step: Step)
    requires Conserved(s) && Enabled(s, env, step)
    ensures Conserved(Apply(s, env, step))
  {
    match step {
      case Work => ConservedWork(s, env);
      case Push(t) => ConservedPush(s, t);
      case Deliver(_, _) =>
      case Decode(_, _, _) =>
      case RosShutdown =>
      case StopRunning =>
      case Join =>
      case CloseStorage =>
    }
  }

  function Holds(c: Callback, f: Frame): nat {
    if c == Parsed(f) then 1 else 0
  }

  /** How many callbacks hold frame `f` between parsing and pushing. */
  ghost function InFlight(callbacks: map<Tid, Callback>, f: Frame): nat {
    Sum(callbacks, (c: Callback) => Holds(c, f))
  }

  lemma {:induction false} InFlightUpdate(m: map<Tid, Callback>, t: Tid, c: Callback, f: Frame)
    ensures InFlight(m[t := c], f) + (if t in m then Holds(m[t], f) else 0) == InFlight(m, f) + Holds(c, f)
  {
    SumUpdate(m, t, c, (c: Callback) => Holds(c, f));
  }

  ghost predicate Accounted(s: Node, f: Frame) {
    multiset(s.parsed)[f] == multiset(FramesOf(s.offered))[f] + InFlight(s.callbacks, f)
  }

  lemma {:induction false} AccountedPush(s: Node, t: Tid, f: Frame)
    requires Accounted(s, f) && t in s.callbacks && s.callbacks[t].Parsed?
    ensures Accounted(PushStep(s, t), f)
  {
    var data := s.callbacks[t].data;
    InFlightUpdate(s.callbacks, t, Answered(true), f);
    Appended(s.offered, Verdict(data, Offer(s.queue, QUEUE_CAPACITY, data).1));
  }

  lemma {:induction false} WorkLeavesCallbacks(s: Node, env: Environment)
    requires !s.worker.Exited?
    ensures WorkStep(s, env).offered == s.offered
    ensures WorkStep(s, env).parsed == s.parsed
    ensures WorkStep(s, env).callbacks == s.callbacks
  {
  }

  lemma {:induction false} AccountedDecode(s: Node, t: Tid, outcome: Callback, f: Frame)
    requires Accounted(s, f) && t in s.callbacks && s.callbacks[t].Received?
    ensures Accounted(DecodeStep(s, t, outcome), f)
  {
    InFlightUpdate(s.callbacks, t, outcome, f);
  }

  lemma {:induction false} AccountedStep(s: Node, env: Environment, step: Step, f: Frame)
    requires Accounted(s, f) && Enabled(s, env, step)
    ensures Accounted(Apply(s, env, step), f)
  {
    match step {
      case Deliver(t, packet) => InFlightUpdate(s.callbacks, t, Received(packet), f);
      case Decode(t, _, outcome) => AccountedDecode(s, t, outcome, f);
      case Push(t) => AccountedPush(s, t, f);
      case Work => WorkLeavesCallbacks(s, env);
      case RosShutdown =>
      case StopRunning =>
      case Join =>
      case CloseStorage =>
    }
  }

  // ---------- Storage ----------

  ghost predicate StorageSound(s: Node, base: seq<Row>) {
    && Consistent(s.engine) && s.engine.initRan
    && s.engine.database.transaction.None?
    && s.engine.database.committed == base + RowsOf(Positive(s.processed) + StoredHand(s.worker))
    && s.nullUses == 0
    && (s.worker.Inserting? ==> s.engine.isInitialized)
    && (s.destructor.Joined? || s.destructor.Closed? ==> s.worker.Exited?)
    && (s.destructor.Closed? ==> !s.engine.handle && !s.engine.statement && !s.engine.isInitialized)
    && (s.running <==> s.destructor.NotStarted?)
    && (s.worker.Exited? ==> !(s.running && s.rosOk))
  }

  lemma {:induction false} SoundPublish(s: Node, data: Frame, stored: bool, base: seq<Row>)
    requires StorageSound(s, base) && s.worker == Publishing(data, stored)
    ensures StorageSound(PublishStep(s, data, stored), base)
  {
    Appended(s.processed, Verdict(data, stored));
    assert Positive(s.processed + [Verdict(data, stored)]) + [] == Positive(s.processed) + StoredHand(s.worker);
  }

  lemma {:induction false} TableGrows(base: seq<Row>, before: seq<Frame>, data: Frame)
    ensures base + RowsOf(before + [data]) == base + RowsOf(before) + [RowOf(data)]
  {
    RowsOfSnoc(before, data);
  }

  lemma {:induction false} SoundInsert(s: Node, env: Environment, data: Frame, base: seq<Row>)
    requires StorageSound(s, base) && s.worker == Inserting(data)
    ensures StorageSound(InsertStep(s, env, data), base)
  {
    var before := Positive(s.processed);
    InsertSectionEffect(s.engine, env.oracle, RowOf(data));
    TableGrows(base, before, data);
    assert before + [] == before;
  }

  lemma {:induction false} SoundCheck(s: Node, env: Environment, data: Frame, base: seq<Row>)
    requires StorageSound(s, base) && s.worker == Checking(data)
    ensures StorageSound(CheckStep(s, env, data), base)
  {
    EnsureInitializedKeeps(s.engine, env.oracle);
  }

  /** A step of the worker that touches neither storage nor histories. */
  lemma {:induction false} SoundIdle(s: Node, w: Worker, queue: seq<Frame>, base: seq<Row>)
    requires StorageSound(s, base) && !s.worker.Exited? && !s.worker.Publishing?
    requires !w.Inserting? && !w.Publishing? && (w.Exited? ==> !(s.running && s.rosOk))
    ensures StorageSound(s.(worker := w, queue := queue), base)
  {
    assert StoredHand(s.worker) == [] && StoredHand(w) == [];
  }

  lemma {:induction false} SoundWork(s: Node, env: Environment, base: seq<Row>)
    requires StorageSound(s, base) && !s.worker.Exited?
    ensures StorageSound(WorkStep(s, env), base)
  {
    var s' := WorkStep(s, env);
    match s.worker {
      case Publishing(data, stored) => SoundPublish(s, data, stored, base);
      case Inserting(data) => SoundInsert(s, env, data, base);
      case Checking(data) => SoundCheck(s, env, data, base);
      case Testing => SoundIdle(s, s'.worker, s.queue, base);
      case Popping => SoundIdle(s, s'.worker, s'.queue, base);
      case Sleeping => SoundIdle(s, Testing, s.queue, base);
    }
  }

  lemma {:induction false} SoundStep(s: Node, env: Environment, step: Step, base: seq<Row>)
    requires StorageSound(s, base) && Enabled(s, env, step)
    ensures StorageSound(Apply(s, env, step), base)
  {
    if step.Work? {
      SoundWork(s, env, base);
    }
  }

  // ---------- Every interleaving ----------

  lemma {:induction false} ConservedRuns(s: Node, env: Environment, steps: seq<Step>, base: seq<Row>)
    requires Conserved(s) && StorageSound(s, base) && Runs(s, env, steps)
    ensures Conserved(After(s, env, steps)) && StorageSound(After(s, env, steps), base)
    decreases |steps|
  {
    if steps == [] {
    } else {
      ConservedStep(s, env, steps[0]);
      SoundStep(s, env, steps[0], base);
      ConservedRuns(Apply(s, env, steps[0]), env, steps[1..], base);
    }
  }

  lemma {:induction false} AccountedRuns(s: Node, env: Environment, steps: seq<Step>, f: Frame)
    requires Accounted(s, f) && Runs(s, env, steps)
    ensures Accounted(After(s, env, steps), f)
    decreases |steps|
  {
    if steps == [] {
    } else {
      AccountedStep(s, env, steps[0], f);
      AccountedRuns(Apply(s, env, steps[0]), env, steps[1..], f);
    }
  }

  lemma {:induction false} ConstructSound(env: Environment, d: Database)
    requires d.transaction.None?
    ensures Conserved(Construct(env, d)) && StorageSound(Construct(env, d), d.committed)
  {
    EnsureInitializedKeeps(Fresh(d), env.oracle);
    assert d.committed + [] == d.committed;
  }

  /** Conservation and order: the queued frames, in the order they were pushed, are the processed
      ones, then the one in the worker's hand, then the queue; each processed frame was published
      as it should, and the table grew by exactly the rows of the frames whose insert succeeded,
      in that order (the worker's hand included once it is stored). */
  lemma {:induction false} PipelineConserves(env: Environment, d: Database, steps: seq<Step>)
    requires d.transaction.None? && Runs(Construct(env, d), env, steps)
    ensures var s := After(Construct(env, d), env, steps);
            && Positive(s.offered) == FramesOf(s.processed) + Hand(s.worker) + s.queue
            && |s.queue| <= QUEUE_CAPACITY
            && s.published == MessagesOf(s.processed)
            && s.engine.database.committed == d.committed + RowsOf(Positive(s.processed) + StoredHand(s.worker))
  {
    ConstructSound(env, d);
    ConservedRuns(Construct(env, d), env, steps, d.committed);
  }

  /** Every parsed frame is in exactly one bucket: queued, dropped, or still in its callback. */
  lemma {:induction false} EveryFrameAccounted(env: Environment, d: Database, steps: seq<Step>, f: Frame)
    requires Runs(Construct(env, d), env, steps)
    ensures var s := After(Construct(env, d), env, steps);
            multiset(s.parsed)[f]
            == multiset(Positive(s.offered))[f] + multiset(Negative(s.offered))[f] + InFlight(s.callbacks, f)
  {
    SumZero(Construct(env, d).callbacks, (c: Callback) => Holds(c, f));
    AccountedRuns(Construct(env, d), env, steps, f);
    Split(After(Construct(env, d), env, steps).offered);
  }

  /** A frame is dropped exactly when the queue is full, and the callback says true all the same. */
  lemma {:induction false} DroppedOnFull(env: Environment, d: Database, steps: seq<Step>, t: Tid)
    requires d.transaction.None? && Runs(Construct(env, d), env, steps)
    requires Enabled(After(Construct(env, d), env, steps), env, Push(t))
    ensures var s := After(Construct(env, d), env, steps);
            var s' := Apply(s, env, Push(t));
            && s'.callbacks[t] == Answered(true)
            && var data := s.callbacks[t].data;
               && Negative(s'.offered) == Negative(s.offered) + (if |s.queue| == QUEUE_CAPACITY then [data] else [])
               && Positive(s'.offered) == Positive(s.offered) + (if |s.queue| == QUEUE_CAPACITY then [] else [data])
  {
    PipelineConserves(env, d, steps);
    var s := After(Construct(env, d), env, steps);
    var data := s.callbacks[t].data;
    Appended(s.offered, Verdict(data, Offer(s.queue, QUEUE_CAPACITY, data).1));
  }

  /** The unlocked ready check is harmless in the node: no insert ever uses a null statement,
      because the destructor closes the storage only after the worker has gone. */
  lemma {:induction false} NoInsertAfterClose(env: Environment, d: Database, steps: seq<Step>)
    requires d.transaction.None? && Runs(Construct(env, d), env, steps)
    ensures var s := After(Construct(env, d), env, steps);
            && s.nullUses == 0
            && (s.worker.Inserting? ==> s.engine.handle && s.engine.statement)
            && (s.destructor.Closed? ==> s.worker.Exited?)
            && (s.destructor.Closed? ==> !s.engine.handle && !s.engine.statement && !s.engine.isInitialized)
  {
    ConstructSound(env, d);
    ConservedRuns(Construct(env, d), env, steps, d.committed);
  }

  /** After the join the worker's hand is empty: what was queued is processed or still queued, and
      the table holds the rows of exactly the processed frames whose insert succeeded. */
  lemma {:induction false} AtJoin(env: Environment, d: Database, steps: seq<Step>)
    requires d.transaction.None? && Runs(Construct(env, d), env, steps)
    requires var s := After(Construct(env, d), env, steps); s.destructor.Joined? || s.destructor.Closed?
    ensures var s := After(Construct(env, d), env, steps);
            && Positive(s.offered) == FramesOf(s.processed) + s.queue
            && s.engine.database.committed == d.committed + RowsOf(Positive(s.processed))
  {
    ConstructSound(env, d);
    ConservedRuns(Construct(env, d), env, steps, d.committed);
    EmptyHanded(After(Construct(env, d), env, steps), d.committed);
  }

  lemma {:induction false} EmptyHanded(s: Node, base: seq<Row>)
    requires Conserved(s) && StorageSound(s, base) && s.worker.Exited?
    ensures Positive(s.offered) == FramesOf(s.processed) + s.queue
    ensures s.engine.database.committed == base + RowsOf(Positive(s.processed))
  {
    assert FramesOf(s.processed) + [] == FramesOf(s.processed);
    assert Positive(s.processed) + [] == Positive(s.processed);
  }

  // ---------- Every frame comes from a packet ----------

  function DecodedBy(step: Step): seq<Frame> {
    if step.Decode? && step.outcome.Parsed? then [step.outcome.data] else []
  }

  /** The frames of the decoding steps, in order. */
  function DecodedIn(steps: seq<Step>): seq<Frame> {
    if steps == [] then [] else DecodedBy(steps[0]) + DecodedIn(steps[1..])
  }

  function DeliveredIn(steps: seq<Step>): set<string> {
    if steps == [] then {}
    else (if steps[0].Deliver? then {steps[0].packet} else {}) + DeliveredIn(steps[1..])
  }

  ghost predicate FromPacket(env: Environment, packets: set<string>, f: Frame) {
    exists packet, clock :: packet in packets && DecodesTo(env, packet, clock, Parsed(f))
  }

  ghost predicate Sourced(s: Node, env: Environment, packets: set<string>) {
    && (forall t :: t in s.callbacks && s.callbacks[t].Received? ==> s.callbacks[t].packet in packets)
    && (forall f :: f in s.parsed ==> FromPacket(env, packets, f))
  }

  lemma {:induction false} SourcedStep(s: Node, env: Environment, step: Step, packets: set<string>)
    requires Sourced(s, env, packets) && Enabled(s, env, step)
    requires step.Deliver? ==> step.packet in packets
    ensures Sourced(Apply(s, env, step), env, packets)
  {
    match step {
      case Work => WorkLeavesCallbacks(s, env);
      case Decode(t, clock, outcome) =>
        if outcome.Parsed? {
          assert DecodesTo(env, s.callbacks[t].packet, clock, Parsed(outcome.data));
        }
      case _ =>
    }
  }

  lemma {:induction false} SourcedRuns(s: Node, env: Environment, steps: seq<Step>, packets: set<string>)
    requires Sourced(s, env, packets) && Runs(s, env, steps) && DeliveredIn(steps) <= packets
    ensures Sourced(After(s, env, steps), env, packets)
    decreases |steps|
  {
    if steps == [] {
    } else {
      SourcedStep(s, env, steps[0], packets);
      SourcedRuns(Apply(s, env, steps[0]), env, steps[1..], packets);
    }
  }

  lemma {:induction false} ParsedStep(s: Node, env: Environment, step: Step)
    requires Enabled(s, env, step)
    ensures Apply(s, env, step).parsed == s.parsed + DecodedBy(step)
  {
    if step.Work? {
      WorkLeavesCallbacks(s, env);
    }
  }

  lemma {:induction false} FramesAssociate(a: seq<Frame>, b: seq<Frame>, c: seq<Frame>)
    ensures a + b + c == a + (b + c)
    ensures a + [] == a
  {
  }

  lemma {:induction false} ParsedRuns(s: Node, env: Environment, steps: seq<Step>)
    requires Runs(s, env, steps)
    ensures After(s, env, steps).parsed == s.parsed + DecodedIn(steps)
    decreases |steps|
  {
    if steps == [] {
      FramesAssociate(s.parsed, [], []);
    } else {
      ParsedStep(s, env, steps[0]);
      ParsedRuns(Apply(s, env, steps[0]), env, steps[1..]);
      FramesAssociate(s.parsed, DecodedBy(steps[0]), DecodedIn(steps[1..]));
    }
  }

  /** The frames inside the node: in the queue, in the worker's hand, or processed. */
  function Inside(s: Node): seq<Frame> {
    FramesOf(s.processed) + Hand(s.worker) + s.queue
  }

  lemma {:induction false} InsideIsParsed(s: Node, f: Frame)
    requires Conserved(s) && Accounted(s, f) && f in Inside(s)
    ensures f in s.parsed
  {
    Split(s.offered);
    assert f in Positive(s.offered);
    assert multiset(Positive(s.offered))[f] > 0;
  }

  lemma {:induction false} InsideWasParsed(env: Environment, d: Database, steps: seq<Step>, f: Frame)
    requires d.transaction.None? && Runs(Construct(env, d), env, steps)
    requires f in Inside(After(Construct(env, d), env, steps))
    ensures f in After(Construct(env, d), env, steps).parsed
  {
    var s0 := Construct(env, d);
    ConstructSound(env, d);
    ConservedRuns(s0, env, steps, d.committed);
    SumZero(s0.callbacks, (c: Callback) => Holds(c, f));
    AccountedRuns(s0, env, steps, f);
    InsideIsParsed(After(s0, env, steps), f);
  }

  /** What is parsed is what the packets of the run decode to, in order, and whatever the node queues,
      holds or has processed is among it. */
  lemma {:induction false} EveryFrameWasDelivered(env: Environment, d: Database, steps: seq<Step>)
    requires d.transaction.None? && Runs(Construct(env, d), env, steps)
    ensures var s := After(Construct(env, d), env, steps);
            && s.parsed == DecodedIn(steps)
            && (forall f :: f in s.parsed ==> FromPacket(env, DeliveredIn(steps), f))
            && (forall f :: f in Inside(s) ==> f in s.parsed)
  {
    var s0 := Construct(env, d);
    var s := After(s0, env, steps);
    SourcedRuns(s0, env, steps, DeliveredIn(steps));
    ParsedRuns(s0, env, steps);
    forall f | f in Inside(s) ensures f in s.parsed {
      InsideWasParsed(env, d, steps, f);
    }
  }

  /** Some packet of the run decodes to a frame with this row. */
  ghost predicate RowFromPacket(env: Environment, packets: set<string>, row: Row) {
    exists f :: FromPacket(env, packets, f) && row == RowOf(f)
  }

  lemma {:induction false} StoredIsInside(s: Node, f: Frame)
    requires f in Positive(s.processed) + StoredHand(s.worker)
    ensures f in Inside(s)
  {
    if f in Positive(s.processed) {
      Split(s.processed);
      assert f in multiset(Positive(s.processed));
      assert f in multiset(FramesOf(s.processed));
      assert f in FramesOf(s.processed);
    } else {
      assert f in Hand(s.worker);
    }
  }

  lemma {:induction false} RowsFromPackets(env: Environment, packets: set<string>, base: seq<Row>, stored: seq<Frame>)
    requires forall f :: f in stored ==> FromPacket(env, packets, f)
    ensures base <= base + RowsOf(stored)
    ensures forall i :: |base| <= i < |base + RowsOf(stored)| ==>
              RowFromPacket(env, packets, (base + RowsOf(stored))[i])
  {
    forall i | |base| <= i < |base + RowsOf(stored)|
      ensures RowFromPacket(env, packets, (base + RowsOf(stored))[i])
    {
      assert FromPacket(env, packets, stored[i - |base|]);
    }
  }

  /** Every row the node added to the table is the row of a frame that a packet of the run decodes to. */
  lemma {:induction false} EveryRowWasDelivered(env: Environment, d: Database, steps: seq<Step>)
    requires d.transaction.None? && Runs(Construct(env, d), env, steps)
    ensures var committed := After(Construct(env, d), env, steps).engine.database.committed;
            && d.committed <= committed
            && forall i :: |d.committed| <= i < |committed| ==> RowFromPacket(env, DeliveredIn(steps), committed[i])
  {
    var s := After(Construct(env, d), env, steps);
    var stored := Positive(s.processed) + StoredHand(s.worker);
    PipelineConserves(env, d, steps);
    EveryFrameWasDelivered(env, d, steps);
    forall f | f in stored ensures FromPacket(env, DeliveredIn(steps), f) {
      StoredIsInside(s, f);
    }
    RowsFromPackets(env, DeliveredIn(steps), d.committed, stored);
  }

  /** Some packet of the run decrypts to a document for which this message goes out. */
  ghost predicate MessageFromPacket(env: Environment, packets: set<string>, m: Message) {
    exists packet :: packet in packets && PublishesFor(env, packet, m)
  }

  ghost predicate PublishesFor(env: Environment, packet: string, m: Message) {
    && env.decrypt(packet).Some?
    && var parsing := env.parseJson(env.decrypt(packet).value);
       parsing.Document? && WellTyped(parsing.json) && MessageFor(parsing.json) == Some(m)
  }

  lemma {:induction false} MessageOfProcessed(v: seq<Verdict>, m: Message)
    requires m in MessagesOf(v)
    ensures exists f :: f in FramesOf(v) && m in MessageOf(f)
  {
    if m in MessageOf(v[|v|-1].data) {
      assert v[|v|-1].data == FramesOf(v)[|v|-1];
    } else {
      MessageOfProcessed(v[..|v|-1], m);
      var f :| f in FramesOf(v[..|v|-1]) && m in MessageOf(f);
      assert f in FramesOf(v);
    }
  }

  lemma {:induction false} MessageOfPacket(env: Environment, packets: set<string>, f: Frame, m: Message)
    requires FromPacket(env, packets, f) && m in MessageOf(f)
    ensures MessageFromPacket(env, packets, m)
  {
    var packet, clock :| packet in packets && DecodesTo(env, packet, clock, Parsed(f));
    PublishesTheMember(env.parseJson(env.decrypt(packet).value).json, clock, env.unspecified, f);
    assert PublishesFor(env, packet, m);
  }

  /** Every message that went out is that of a document which a packet of the run decrypts to. */
  lemma {:induction false} EveryMessageWasDelivered(env: Environment, d: Database, steps: seq<Step>)
    requires d.transaction.None? && Runs(Construct(env, d), env, steps)
    ensures forall m :: m in After(Construct(env, d), env, steps).published ==>
              MessageFromPacket(env, DeliveredIn(steps), m)
  {
    var s := After(Construct(env, d), env, steps);
    PipelineConserves(env, d, steps);
    EveryFrameWasDelivered(env, d, steps);
    forall m | m in s.published ensures MessageFromPacket(env, DeliveredIn(steps), m) {
      MessageOfProcessed(s.processed, m);
      var f :| f in FramesOf(s.processed) && m in MessageOf(f);
      assert f in Inside(s);
      MessageOfPacket(env, DeliveredIn(steps), f, m);
    }
  }

  /** How a packet is answered, in terms of decryption and parsing alone. */
  lemma {:induction false} PacketEndings(env: Environment, packet: string, clock: uint64, outcome: Callback)
    requires DecodesTo(env, packet, clock, outcome)
    ensures outcome == Answered(false) <==> Unreadable(env, packet)
    ensures outcome == Threw <==> Unusable(env, packet)
    ensures outcome.Parsed? <==> Usable(env, packet)
    ensures outcome.Answered? ==> !outcome.ok
  {
  }

  /** Not decrypted, or not JSON. */
  predicate Unreadable(env: Environment, packet: string) {
    env.decrypt(packet) == None || env.parseJson(env.decrypt(packet).value) == SyntaxError
  }

  /** JSON that the parser cannot hold or that has members of a wrong type. */
  predicate Unusable(env: Environment, packet: string) {
    && env.decrypt(packet) != None
    && match env.parseJson(env.decrypt(packet).value)
       case SyntaxError => false
       case NumberOverflow => true
       case Document(j) => !WellTyped(j)
  }

  predicate Usable(env: Environment, packet: string) {
    && env.decrypt(packet) != None
    && match env.parseJson(env.decrypt(packet).value)
       case Document(j) => WellTyped(j)
       case _ => false
  }

  // ---------- The join ends ----------

  /** Worker steps left once the loop guard is false. */
  function WindDown(w: Worker): nat {
    match w
    case Exited => 0
    case Testing => 1
    case Sleeping => 2
    case Publishing(_, _) => 2
    case Inserting(_) => 3
    case Checking(_) => 4
    case Popping => 5
  }

  /** Frames the worker may still complete once the loop guard is false. */
  function Pending(w: Worker): nat {
    if w.Popping? || Hand(w) != [] then 1 else 0
  }

  function Works(steps: seq<Step>): nat {
    if steps == [] then 0 else (if steps[0].Work? then 1 else 0) + Works(steps[1..])
  }

  lemma {:induction false} WindDownStep(s: Node, env: Environment, step: Step)
    requires Enabled(s, env, step) && !(s.running && s.rosOk)
    ensures var s' := Apply(s, env, step);
            && !(s'.running && s'.rosOk)
            && (if step.Work? then 1 else 0) + WindDown(s'.worker) <= WindDown(s.worker)
            && |s.processed| <= |s'.processed| <= |s.processed| + Pending(s.worker) - Pending(s'.worker)
  {
    if step.Work? {
      match s.worker {
        case Publishing(data, stored) =>
        case Popping =>
        case Testing =>
        case Sleeping =>
        case Checking(_) =>
        case Inserting(_) =>
      }
    }
  }

  /** Once running_ is cleared or ROS shuts down, the worker exits after at most five more steps of
      its own and completes at most one more frame, whatever the callbacks do meanwhile; it can
      always take its next step, so the join is reached. */
  lemma {:induction false} JoinIsReached(s: Node, env: Environment, steps: seq<Step>)
    requires Runs(s, env, steps) && !(s.running && s.rosOk)
    ensures var s' := After(s, env, steps);
            && !(s'.running && s'.rosOk)
            && Works(steps) + WindDown(s'.worker) <= WindDown(s.worker) <= 5
            && |s.processed| <= |s'.processed| <= |s.processed| + Pending(s.worker) - Pending(s'.worker)
            && (s'.worker.Exited? || Enabled(s', env, Work))
    decreases |steps|
  {
    if steps == [] {
    } else {
      WindDownStep(s, env, steps[0]);
      JoinIsReached(Apply(s, env, steps[0]), env, steps[1..]);
    }
  }

  predicate Stops(step: Step) {
    step.StopRunning? || step.RosShutdown?
  }

  /** The loop guard holds exactly until the destructor or ROS ends it. */
  lemma {:induction false} GuardExactly(s: Node, env: Environment, steps: seq<Step>)
    requires Runs(s, env, steps)
    ensures var s' := After(s, env, steps);
            s'.running && s'.rosOk <==>
              s.running && s.rosOk && forall i :: 0 <= i < |steps| ==> !Stops(steps[i])
    decreases |steps|
  {
    if steps == [] {
    } else {
      var rest := steps[1..];
      GuardStep(s, env, steps[0]);
      GuardExactly(Apply(s, env, steps[0]), env, rest);
      assert forall i :: 0 < i < |steps| ==> steps[i] == rest[i-1];
      assert forall i :: 0 <= i < |rest| ==> rest[i] == steps[i+1];
    }
  }

  lemma {:induction false} GuardStep(s: Node, env: Environment, step: Step)
    requires Enabled(s, env, step)
    ensures var s' := Apply(s, env, step); s'.running && s'.rosOk <==> s.running && s.rosOk && !Stops(step)
  {
  }

  /** From the constructor on the node runs until it is stopped. */
  lemma {:induction false} RunsUntilStopped(env: Environment, d: Database, steps: seq<Step>)
    requires Runs(Construct(env, d), env, steps)
    ensures var s := After(Construct(env, d), env, steps);
            s.running && s.rosOk <==> forall i :: 0 <= i < |steps| ==> !Stops(steps[i])
  {
    GuardExactly(Construct(env, d), env, steps);
  }

  lemma {:induction false} WorkerLeavesWithin(s: Node, env: Environment, n: nat) returns (rest: seq<Step>)
    requires !(s.running && s.rosOk) && WindDown(s.worker) <= n
    ensures |rest| <= n && Runs(s, env, rest)
    ensures var s' := After(s, env, rest); s'.worker.Exited? && s'.destructor == s.destructor
    decreases n
  {
    if s.worker.Exited? {
      rest := [];
    } else {
      WindDownStep(s, env, Work);
      var more := WorkerLeavesWithin(WorkStep(s, env), env, n - 1);
      RunsCons(s, env, Work, more);
      rest := [Work] + more;
    }
  }

  /** The destructor can always be run to its end, in at most eight steps from wherever the worker is. */
  lemma {:induction false} DestructorCompletes(s: Node, env: Environment) returns (rest: seq<Step>)
    requires s.destructor.NotStarted?
    ensures |rest| <= 8 && Runs(s, env, rest)
    ensures After(s, env, rest).destructor.Closed? && !After(s, env, rest).engine.isInitialized
  {
    var stopped := Apply(s, env, StopRunning);
    var work := WorkerLeavesWithin(stopped, env, 5);
    var left := After(stopped, env, work);
    var joined := Apply(left, env, Join);
    RunsCons(joined, env, CloseStorage, []);
    RunsCons(left, env, Join, [CloseStorage] + []);
    RunsAppend(stopped, env, work, [Join] + ([CloseStorage] + []));
    RunsCons(s, env, StopRunning, work + ([Join] + ([CloseStorage] + [])));
    rest := [StopRunning] + (work + ([Join] + ([CloseStorage] + [])));
  }

  // ---------- The queue is served ----------

  /** Worker steps until the next pop, while the loop guard holds. */
  function UntilPop(w: Worker): nat {
    match w
    case Popping => 0
    case Testing => 1
    case Sleeping => 2
    case Publishing(_, _) => 2
    case Inserting(_) => 3
    case Checking(_) => 4
    case Exited => 0
  }

  /** Frames taken off the queue so far. */
  function TakenOff(s: Node): nat {
    |s.processed| + |Hand(s.worker)|
  }

  lemma {:induction false} ServeStep(s: Node, env: Environment, step: Step)
    requires Enabled(s, env, step)
    ensures var s' := Apply(s, env, step);
            && TakenOff(s) <= TakenOff(s')
            && (s'.running && s'.rosOk ==> s.running && s.rosOk)
            && (s.running && s.rosOk && s.queue != [] && TakenOff(s') == TakenOff(s) ==>
                  && s'.queue != []
                  && (if step.Work? then 1 else 0) + UntilPop(s'.worker) <= UntilPop(s.worker))
  {
    if step.Work? {
      match s.worker {
        case Publishing(data, stored) =>
        case Popping =>
        case Testing =>
        case Sleeping =>
        case Checking(_) =>
        case Inserting(_) =>
      }
    }
  }

  lemma {:induction false} ServedRuns(s: Node, env: Environment, steps: seq<Step>)
    requires Runs(s, env, steps)
    ensures var s' := After(s, env, steps);
            && TakenOff(s) <= TakenOff(s')
            && (s'.running && s'.rosOk ==> s.running && s.rosOk)
            && (s'.running && s'.rosOk && s.queue != [] && Works(steps) > UntilPop(s.worker) ==>
                  TakenOff(s) < TakenOff(s'))
    decreases |steps|
  {
    if steps == [] {
    } else {
      ServeStep(s, env, steps[0]);
      ServedRuns(Apply(s, env, steps[0]), env, steps[1..]);
    }
  }

  /** While the node runs the worker is alive, and a non-empty queue loses its front frame within
      five of the worker's steps, whatever the callbacks do meanwhile. */
  lemma {:induction false} QueueIsServed(env: Environment, d: Database, before: seq<Step>, steps: seq<Step>)
    requires d.transaction.None? && Runs(Construct(env, d), env, before)
    requires Runs(After(Construct(env, d), env, before), env, steps)
    requires var s' := After(After(Construct(env, d), env, before), env, steps); s'.running && s'.rosOk
    ensures var s := After(Construct(env, d), env, before);
            && Enabled(s, env, Work)
            && (s.queue != [] && Works(steps) >= 5 ==> TakenOff(After(s, env, steps)) > TakenOff(s))
  {
    ConstructSound(env, d);
    ConservedRuns(Construct(env, d), env, before, d.committed);
    ServedRuns(After(Construct(env, d), env, before), env, steps);
  }

  // ---------- Every queued frame is processed ----------

  /** Worker steps, while the loop guard holds, until `n` frames are processed in all. */
  function Owed(s: Node, n: nat): int {
    if |s.processed| >= n then 0
    else
      5 * (n - |s.processed|) +
      match s.worker
      case Sleeping => 1
      case Testing => 0
      case Popping => -1
      case Checking(_) => -2
      case Inserting(_) => -3
      case Publishing(_, _) => -4
      case Exited => 0
  }

  lemma {:induction false} OwedStep(s: Node, env: Environment, step: Step, n: nat)
    requires Enabled(s, env, step)
    ensures var s' := Apply(s, env, step);
            && (s'.running && s'.rosOk ==> s.running && s.rosOk)
            && TakenOff(s) + |s.queue| <= TakenOff(s') + |s'.queue|
            && (s.running && s.rosOk && n <= TakenOff(s) + |s.queue| && |s.processed| < n ==>
                  (if step.Work? then 1 else 0) + Owed(s', n) <= Owed(s, n))
  {
    if step.Work? {
      match s.worker {
        case Publishing(data, stored) =>
        case Popping =>
        case Testing =>
        case Sleeping =>
        case Checking(_) =>
        case Inserting(_) =>
      }
    }
  }

  lemma {:induction false} PushGrows(s: Node, t: Tid)
    requires t in s.callbacks && s.callbacks[t].Parsed?
    ensures Positive(s.offered) <= Positive(PushStep(s, t).offered)
  {
    var data := s.callbacks[t].data;
    Appended(s.offered, Verdict(data, Offer(s.queue, QUEUE_CAPACITY, data).1));
  }

  lemma {:induction false} HistoriesGrow(s: Node, env: Environment, step: Step)
    requires Enabled(s, env, step)
    ensures |s.processed| <= |Apply(s, env, step).processed|
    ensures Positive(s.offered) <= Positive(Apply(s, env, step).offered)
  {
    match step {
      case Push(t) => PushGrows(s, t);
      case Work => WorkLeavesCallbacks(s, env);
      case _ =>
    }
  }

  lemma {:induction false} ProcessedGrows(s: Node, env: Environment, steps: seq<Step>)
    requires Runs(s, env, steps)
    ensures |s.processed| <= |After(s, env, steps).processed|
    ensures Positive(s.offered) <= Positive(After(s, env, steps).offered)
    decreases |steps|
  {
    if steps == [] {
    } else {
      HistoriesGrow(s, env, steps[0]);
      ProcessedGrows(Apply(s, env, steps[0]), env, steps[1..]);
    }
  }

  lemma {:induction false} OwedRuns(s: Node, env: Environment, steps: seq<Step>, n: nat)
    requires Runs(s, env, steps) && n <= TakenOff(s) + |s.queue|
    ensures var s' := After(s, env, steps);
            && (s'.running && s'.rosOk ==> s.running && s.rosOk)
            && (s'.running && s'.rosOk && Works(steps) >= Owed(s, n) ==> |s'.processed| >= n)
    decreases |steps|
  {
    if steps == [] {
    } else {
      var s1 := Apply(s, env, steps[0]);
      OwedStep(s, env, steps[0], n);
      OwedRuns(s1, env, steps[1..], n);
      ProcessedGrows(s, env, steps);
    }
  }

  lemma {:induction false} FrameAt(v: seq<Verdict>, i: nat)
    requires i < |v|
    ensures FramesOf(v)[i] == v[i].data
  {
    if i == |v| - 1 {
    } else {
      FrameAt(v[..|v|-1], i);
    }
  }

  lemma {:induction false} PlaceKept(s: Node, s': Node, k: nat)
    requires Conserved(s) && Conserved(s') && Positive(s.offered) <= Positive(s'.offered)
    requires k < |s.queue| && TakenOff(s) + k < |s'.processed|
    ensures s'.processed[TakenOff(s) + k].data == s.queue[k]
  {
    var i := TakenOff(s) + k;
    assert Positive(s.offered)[i] == s.queue[k];
    assert Positive(s'.offered)[i] == FramesOf(s'.processed)[i];
    FrameAt(s'.processed, i);
  }

  lemma {:induction false} OwedAtMost(s: Node, k: nat)
    requires !s.worker.Exited?
    ensures Owed(s, TakenOff(s) + k + 1) <= 5 * k + 8
  {
  }

  lemma {:induction false} ProcessedBy(s: Node, env: Environment, steps: seq<Step>, k: nat)
    requires !s.worker.Exited? && k < |s.queue| && Runs(s, env, steps)
    requires var s' := After(s, env, steps); s'.running && s'.rosOk
    requires Works(steps) >= 5 * k + 8
    ensures TakenOff(s) + k < |After(s, env, steps).processed|
  {
    OwedAtMost(s, k);
    OwedRuns(s, env, steps, TakenOff(s) + k + 1);
  }

  /** A worker whose loop guard still holds later is alive. */
  lemma {:induction false} StillAlive(s: Node, env: Environment, steps: seq<Step>, base: seq<Row>)
    requires StorageSound(s, base) && Runs(s, env, steps)
    ensures var s' := After(s, env, steps); s'.running && s'.rosOk ==> !s.worker.Exited?
  {
    ServedRuns(s, env, steps);
  }

  lemma {:induction false} ServedFrom(s: Node, env: Environment, steps: seq<Step>, k: nat, base: seq<Row>)
    requires Conserved(s) && StorageSound(s, base) && Runs(s, env, steps)
    requires var s' := After(s, env, steps);
             k < |s.queue| && s'.running && s'.rosOk && Works(steps) >= 5 * k + 8
    ensures var s' := After(s, env, steps);
            TakenOff(s) + k < |s'.processed| && s'.processed[TakenOff(s) + k].data == s.queue[k]
  {
    var s' := After(s, env, steps);
    StillAlive(s, env, steps, base);
    ProcessedBy(s, env, steps, k);
    assert Conserved(s') by {
      ConservedRuns(s, env, steps, base);
    }
    assert Positive(s.offered) <= Positive(s'.offered) by {
      ProcessedGrows(s, env, steps);
    }
    PlaceKept(s, s', k);
  }

  /** While the node runs, the frame at position k of the queue is processed within 5k + 8 of the
      worker's steps, at its place in the order, whatever the callbacks do meanwhile. */
  lemma {:induction false} EveryFrameIsServed(env: Environment, d: Database, before: seq<Step>, steps: seq<Step>,
                                              k: nat)
    requires d.transaction.None? && Runs(Construct(env, d), env, before)
    requires Runs(After(Construct(env, d), env, before), env, steps)
    requires var s := After(Construct(env, d), env, before);
             var s' := After(s, env, steps);
             k < |s.queue| && s'.running && s'.rosOk && Works(steps) >= 5 * k + 8
    ensures var s := After(Construct(env, d), env, before);
            var s' := After(s, env, steps);
            TakenOff(s) + k < |s'.processed| && s'.processed[TakenOff(s) + k].data == s.queue[k]
  {
    ConstructSound(env, d);
    ConservedRuns(Construct(env, d), env, before, d.committed);
    ServedFrom(After(Construct(env, d), env, before), env, steps, k, d.committed);
  }

  // ---------- When nothing decrypts ----------

  ghost predicate Idle(s: Node) {
    && s.parsed == [] && s.offered == [] && s.queue == [] && s.processed == [] && s.published == []
    && Hand(s.worker) == []
    && forall t :: t in s.callbacks ==> !s.callbacks[t].Parsed?
  }

  lemma {:induction false} IdleStep(s: Node, env: Environment, step: Step)
    requires (forall packet :: env.decrypt(packet).None?) && Idle(s) && s.engine.initRan && Enabled(s, env, step)
    ensures Idle(Apply(s, env, step)) && Apply(s, env, step).engine.initRan
    ensures Apply(s, env, step).engine.database.committed == s.engine.database.committed
  {
  }

  lemma {:induction false} IdleRuns(s: Node, env: Environment, steps: seq<Step>)
    requires (forall packet :: env.decrypt(packet).None?) && Idle(s) && s.engine.initRan && Runs(s, env, steps)
    ensures Idle(After(s, env, steps))
    ensures After(s, env, steps).engine.database.committed == s.engine.database.committed
    decreases |steps|
  {
    if steps == [] {
    } else {
      IdleStep(s, env, steps[0]);
      IdleRuns(Apply(s, env, steps[0]), env, steps[1..]);
    }
  }

  /** If decryption refuses every packet, no run parses, queues, stores or publishes anything. */
  lemma {:induction false} NothingWithoutDecryption(env: Environment, d: Database, steps: seq<Step>)
    requires (forall packet :: env.decrypt(packet).None?) && Runs(Construct(env, d), env, steps)
    ensures var s := After(Construct(env, d), env, steps);
            && s.parsed == [] && s.queue == [] && s.processed == [] && s.published == []
            && s.engine.database.committed == d.committed
  {
    IdleRuns(Construct(env, d), env, steps);
  }

  // ---------- A full queue ----------

  /** `n` packets arrive one after the other and are decoded to `data`; the worker does not move. */
  function Flood(packet: string, clock: uint64, data: Frame, n: nat): seq<Step> {
    if n == 0 then []
    else [Deliver(0, packet), Decode(0, clock, Parsed(data)), Push(0)] + Flood(packet, clock, data, n - 1)
  }

  /** The node after one callback ran from start to end on thread 0. */
  function Pushed(s: Node, packet: string, data: Frame): Node {
    PushStep(DecodeStep(s.(callbacks := s.callbacks[0 := Received(packet)]), 0, Parsed(data)), 0)
  }

  lemma {:induction false} OneMore(s: Node, env: Environment, packet: string, clock: uint64, data: Frame,
                                   rest: seq<Step>)
    requires 0 in s.callbacks ==> s.callbacks[0].Answered?
    requires DecodesTo(env, packet, clock, Parsed(data))
    requires Runs(Pushed(s, packet, data), env, rest)
    ensures var steps := [Deliver(0, packet), Decode(0, clock, Parsed(data)), Push(0)] + rest;
            Runs(s, env, steps) && After(s, env, steps) == After(Pushed(s, packet, data), env, rest)
  {
    var received := s.(callbacks := s.callbacks[0 := Received(packet)]);
    var decode := Decode(0, clock, Parsed(data));
    RunsCons(DecodeStep(received, 0, Parsed(data)), env, Push(0), rest);
    RunsCons(received, env, decode, [Push(0)] + rest);
    RunsCons(s, env, Deliver(0, packet), [decode] + ([Push(0)] + rest));
    assert [Deliver(0, packet), decode, Push(0)] + rest == [Deliver(0, packet)] + ([decode] + ([Push(0)] + rest));
  }

  /** From `s` to `s'` n more frames were pushed and none popped: the queue filled up, the rest was
      dropped. */
  predicate Filled(s: Node, s': Node, n: nat) {
    var room := QUEUE_CAPACITY - |s.queue|;
    && |s'.queue| == |s.queue| + (if n < room then n else room)
    && |Negative(s'.offered)| == |Negative(s.offered)| + (if n < room then 0 else n - room)
  }

  lemma {:induction false} FilledByOne(s: Node, packet: string, data: Frame)
    requires |s.queue| <= QUEUE_CAPACITY
    ensures Filled(s, Pushed(s, packet, data), 1)
    ensures Pushed(s, packet, data).callbacks == s.callbacks[0 := Answered(true)]
  {
    Appended(s.offered, Verdict(data, Offer(s.queue, QUEUE_CAPACITY, data).1));
  }

  lemma {:induction false} FilledByMore(s: Node, s1: Node, s': Node, n: nat)
    requires |s.queue| <= QUEUE_CAPACITY && Filled(s, s1, 1) && Filled(s1, s', n)
    ensures Filled(s, s', n + 1)
  {
  }

  lemma {:induction false} FloodFrom(s: Node, env: Environment, packet: string, clock: uint64, data: Frame, n: nat)
    requires |s.queue| <= QUEUE_CAPACITY
    requires 0 in s.callbacks ==> s.callbacks[0].Answered?
    requires DecodesTo(env, packet, clock, Parsed(data))
    ensures Runs(s, env, Flood(packet, clock, data, n))
    ensures Filled(s, After(s, env, Flood(packet, clock, data, n)), n)
    decreases n
  {
    if n == 0 {
    } else {
      var s1, rest := Pushed(s, packet, data), Flood(packet, clock, data, n - 1);
      FilledByOne(s, packet, data);
      FloodFrom(s1, env, packet, clock, data, n - 1);
      FilledByMore(s, s1, After(s1, env, rest), n - 1);
      OneMore(s, env, packet, clock, data, rest);
    }
  }

  /** Frames do get lost: when n packets come in before the worker moves, the queue fills up to 1000
      and exactly the rest is dropped. */
  lemma {:induction false} FloodDrops(env: Environment, d: Database, packet: string, clock: uint64, data: Frame, n: nat)
    requires DecodesTo(env, packet, clock, Parsed(data))
    ensures var steps := Flood(packet, clock, data, n);
            && Runs(Construct(env, d), env, steps)
            && var s := After(Construct(env, d), env, steps);
               && |s.queue| == (if n < 1000 then n else 1000)
               && |Negative(s.offered)| == (if n < 1000 then 0 else n - 1000)
  {
    FloodFrom(Construct(env, d), env, packet, clock, data, n);
  }
}
