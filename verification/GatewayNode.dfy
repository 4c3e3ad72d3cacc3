/**
  GatewayNode in its own form: the queue and the storage engine are the objects of their modules,
  updated in place.  Each method runs alone here; Pipeline.dfy interleaves their parts.
 */
module GatewayNode {
  import opened Frames
  import opened Numerals
  import opened PayloadText
  import opened Sqlite
  import opened Ingestion
  import opened BoundedQueue
  import opened Storage
  import Spec = StorageSpec
  import opened Pipeline

  /** How a callback ends: its answer, or an exception caught by the subscription callback. */
  datatype Reply = Reply(ok: bool) | Thrown

  function Min(a: nat, b: nat): nat {
    if a <= b then a else b
  }

  /** How many guard tests pass from the i-th on before one fails. */
  function Passes(guard: seq<bool>, i: nat): nat
    decreases |guard| - i
  {
    if i >= |guard| || !guard[i] then 0 else 1 + Passes(guard, i + 1)
  }

  function MessagesFor(frames: seq<Frame>): seq<Message> {
    if frames == [] then [] else MessagesFor(frames[..|frames|-1]) + MessageOf(frames[|frames|-1])
  }

  /** What the worker works on. */
  datatype Desk = Desk(queue: seq<Frame>, engine: Spec.Engine, published: seq<Message>)

  /** What storing one row does to the engine. */
  type Store = (Spec.Engine, Row) -> Spec.Engine

  function Storing(o: Oracle): Store {
    (e: Spec.Engine, row: Row) => Spec.InsertTelemetry(e, o, row).0
  }

  /** One pass of the worker loop; with an empty queue it only lets time pass. */
  function Iterate(d: Desk, store: Store): Desk {
    if d.queue == [] then d
    else Desk(d.queue[1..], store(d.engine, RowOf(d.queue[0])), d.published + MessageOf(d.queue[0]))
  }

  function StoreEach(e: Spec.Engine, store: Store, rows: seq<Row>): Spec.Engine {
    if rows == [] then e else store(StoreEach(e, store, rows[..|rows|-1]), rows[|rows|-1])
  }

  /** Storing one row after the other is a loop of insert_telemetry. */
  lemma {:induction false} StoreEachInserts(e: Spec.Engine, o: Oracle, rows: seq<Row>)
    ensures StoreEach(e, Storing(o), rows) == Spec.InsertEach(e, o, rows)
  {
    if rows == [] {
    } else {
      StoreEachInserts(e, o, rows[..|rows|-1]);
    }
  }

  lemma {:induction false} EachSnoc(e: Spec.Engine, store: Store, frames: seq<Frame>, data: Frame)
    ensures StoreEach(e, store, RowsOf(frames + [data])) == store(StoreEach(e, store, RowsOf(frames)), RowOf(data))
  {
    RowsOfSnoc(frames, data);
    var rows := RowsOf(frames) + [RowOf(data)];
    assert rows[..|rows|-1] == RowsOf(frames);
  }

  lemma {:induction false} MessagesSnoc(frames: seq<Frame>, data: Frame)
    ensures MessagesFor(frames + [data]) == MessagesFor(frames) + MessageOf(data)
  {
    assert (frames + [data])[..|frames|] == frames;
  }

  /** The desk once the first k frames are stored and published, in order. */
  function Worked(d: Desk, store: Store, k: nat): Desk
    requires k <= |d.queue|
  {
    Desk(d.queue[k..],
         StoreEach(d.engine, store, RowsOf(d.queue[..k])),
         d.published + MessagesFor(d.queue[..k]))
  }

  lemma {:induction false} WorkedStep(d: Desk, store: Store, k: nat)
    requires k < |d.queue|
    ensures Iterate(Worked(d, store, k), store) == Worked(d, store, k + 1)
  {
    var done, data := d.queue[..k], d.queue[k];
    assert d.queue[..k+1] == done + [data];
    assert d.queue[k..][1..] == d.queue[k+1..];
    EachSnoc(d.engine, store, done, data);
    MessagesSnoc(done, data);
    PublishedSnoc(d.published, MessagesFor(done), MessageOf(data));
  }

  lemma {:induction false} PublishedSnoc(a: seq<Message>, b: seq<Message>, c: seq<Message>)
    ensures a + b + c == a + (b + c)
  {
  }

  lemma {:induction false} WorkedNone(d: Desk, store: Store)
    ensures Worked(d, store, 0) == d
  {
    assert d.queue[..0] == [] && d.queue[0..] == d.queue && d.published + [] == d.published;
  }

  lemma {:induction false} WorkedAll(d: Desk, store: Store)
    ensures Iterate(Worked(d, store, |d.queue|), store) == Worked(d, store, |d.queue|)
  {
    assert d.queue[|d.queue|..] == [];
  }

  /** Where the worker stands after n passes alone: the first n frames (or all there are) are off
      the queue, stored and published in order. */
  function Reached(d: Desk, store: Store, n: nat): Desk {
    Worked(d, store, Min(n, |d.queue|))
  }

  lemma {:induction false} ReachedStep(d: Desk, store: Store, n: nat)
    ensures Iterate(Reached(d, store, n), store) == Reached(d, store, n + 1)
  {
    if n < |d.queue| {
      WorkedStep(d, store, n);
    } else {
      WorkedAll(d, store);
    }
  }

  // ---------- The loop among the other threads ----------

  function DeskOf(s: Node): Desk {
    Desk(s.queue, s.engine, s.published)
  }

  /** The worker's steps on the frame in its hand when nothing else moves: check, insert if ready,
      publish. */
  function Handle(s: Node, env: Environment): Node
    requires s.worker.Checking?
  {
    var checked := WorkStep(s, env);
    WorkStep(if checked.worker.Inserting? then WorkStep(checked, env) else checked, env)
  }

  /** One pass of the loop when nothing else moves: test, pop, then sleep or handle the frame. */
  function Pass(s: Node, env: Environment): Node
    requires s.worker.Testing? && s.running && s.rosOk
  {
    var popped := WorkStep(WorkStep(s, env), env);
    if popped.worker.Sleeping? then WorkStep(popped, env) else Handle(popped, env)
  }

  lemma {:induction false} HandleStores(s: Node, env: Environment, data: Frame)
    requires s.worker == Checking(data)
    ensures Handle(s, env).worker.Testing?
    ensures DeskOf(Handle(s, env))
         == Desk(s.queue, Spec.InsertTelemetry(s.engine, env.oracle, RowOf(data)).0, s.published + MessageOf(data))
  {
    var e := Spec.EnsureInitialized(s.engine, env.oracle);
    var checked := CheckStep(s, env, data);
    assert checked.engine == e && WorkStep(s, env) == checked;
    if e.isInitialized {
      assert WorkStep(checked, env) == InsertStep(checked, env, data);
    }
  }

  /** The worker of Pipeline.dfy, undisturbed for one pass, does what one pass of the loop does. */
  lemma {:induction false} PassIsIterate(s: Node, env: Environment)
    requires s.worker.Testing? && s.running && s.rosOk
    ensures Pass(s, env).worker.Testing?
    ensures DeskOf(Pass(s, env)) == Iterate(DeskOf(s), Storing(env.oracle))
  {
    var popped := PopStep(s.(worker := Popping));
    assert WorkStep(WorkStep(s, env), env) == popped;
    if s.queue != [] {
      HandleStores(popped, env, s.queue[0]);
    }
  }

  class GatewayNode {
    const env: Environment
    const telemetryQueue: ConcurrentQueue<Frame>
    const storageEngine: StorageEngine
    var running: bool
    var published: seq<Message>

    ghost predicate Valid()
      reads this, telemetryQueue, storageEngine
    {
      && telemetryQueue.maxCapacity == QUEUE_CAPACITY
      && storageEngine.oracle == env.oracle
      && Spec.Consistent(storageEngine.View())
    }

    function View(): Desk
      reads this, telemetryQueue, storageEngine
    {
      Desk(telemetryQueue.queue, storageEngine.View(), published)
    }

    constructor (env: Environment, database: Database)
      ensures Valid() && fresh(telemetryQueue) && fresh(storageEngine)
      ensures running && View() == Desk([], Spec.EnsureInitialized(Spec.Fresh(database), env.oracle), [])
    {
      this.env := env;
      telemetryQueue := new ConcurrentQueue<Frame>(QUEUE_CAPACITY);
      storageEngine := new StorageEngine(env.oracle, database);
      published := [];
      running := false;
      new;
      Spec.EnsureInitializedKeeps(Spec.Fresh(database), env.oracle);
      var _ := storageEngine.Init();
      running := true;
    }

    /** The push answer is ignored: a parsed packet is answered true even when it was dropped. */
    method ProcessIncomingRawPayload(packet: string, clock: uint64) returns (reply: Reply)
      requires Valid()
      modifies telemetryQueue
      ensures Valid()
      ensures reply == Reply(true) ==>
                exists data :: DecodesTo(env, packet, clock, Parsed(data))
                               && telemetryQueue.queue == Offer(old(telemetryQueue.queue), QUEUE_CAPACITY, data).0
      ensures reply == Reply(true) <==> Usable(env, packet)
      ensures reply == Reply(false) <==> Unreadable(env, packet)
      ensures reply == Thrown <==> Unusable(env, packet)
      ensures reply != Reply(true) ==> telemetryQueue.queue == old(telemetryQueue.queue)
    {
      match env.decrypt(packet) {
        case None => return Reply(false);
        case Some(decryptedJson) =>
          var telemetryData := new TelemetryData();
          var parsed := env.parseJson(decryptedJson);
          var ending := ParseAndValidate(parsed, clock, env.unspecified, telemetryData);
          if ending == TypeError || ending == OutOfRange {
            return Thrown;
          }
          if ending != Status(SUCCESS) {
            return Reply(false);
          }
          assert DecodesTo(env, packet, clock, Parsed(telemetryData.View()));
          var _ := telemetryQueue.Push(telemetryData.View());
          return Reply(true);
      }
    }

    /** Adds at most one message; for a frame parsed from a document it is that of the document. */
    method PublishRosMessages(data: Frame)
      modifies this`published
      ensures published == old(published) + MessageOf(data)
      ensures forall j, clock, unspecified :: FrameFor(j, clock, unspecified, data) ==>
                published == old(published) + Listed(MessageFor(j))
    {
      ghost var before := published;
      var payloadValues := AsMap(data.payloadValues);
      if data.sensorType == "battery" {
        var percentage := Finite(0.0);
        if "battery" in payloadValues {
          percentage := payloadValues["battery"];
        }
        published := published + [BatteryState(data.robotId, percentage)];
      } else if data.sensorType == "temperature" {
        var temperature := Finite(0.0);
        if "temperature" in payloadValues {
          temperature := payloadValues["temperature"];
        }
        published := published + [Temperature(data.robotId, temperature)];
      } else if data.sensorType == "velocity" {
        var linearX := Finite(0.0);
        if "velocity_x" in payloadValues {
          linearX := payloadValues["velocity_x"];
        }
        published := published + [Twist(data.robotId, linearX)];
      }
      forall j, clock, unspecified | FrameFor(j, clock, unspecified, data)
        ensures published == before + Listed(MessageFor(j))
      {
        PublishesTheMember(j, clock, unspecified, data);
      }
    }

    method WorkerIteration()
      requires Valid()
      modifies this`published, telemetryQueue, storageEngine
      ensures Valid()
      ensures View() == Iterate(old(View()), Storing(env.oracle))
    {
      var popped := telemetryQueue.Pop();
      if popped.Some? {
        var data := popped.value;
        var _ := storageEngine.InsertTelemetry(data);
        PublishRosMessages(data);
      }
    }

    /** The worker's loop, when it runs alone.  `guard` lists what `running_ && rclcpp::ok()` answers
        at each test. */
    method WorkerThreadLoop(guard: seq<bool>)
      requires Valid()
      modifies this`published, telemetryQueue, storageEngine
      ensures Valid()
      ensures View() == Reached(old(View()), Storing(env.oracle), Passes(guard, 0))
    {
      ghost var start, store := View(), Storing(env.oracle);
      WorkedNone(start, store);
      var i := 0;
      while i < |guard| && guard[i]
        invariant Valid() && i <= |guard|
        invariant Passes(guard, 0) == i + Passes(guard, i)
        invariant View() == Reached(start, store, i)
      {
        ReachedStep(start, store, i);
        WorkerIteration();
        i := i + 1;
      }
    }

    /** The destructor, once the worker has been joined: queued frames are left where they are. */
    method Destroy()
      requires Valid()
      modifies this`running, storageEngine
      ensures !running && storageEngine.View() == Spec.Close(old(storageEngine.View()))
    {
      running := false;
      storageEngine.Close();
    }
  }
}
