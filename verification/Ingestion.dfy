/**
  TelemetryIngestionEngine and the publishing half of the node.  JSON text is taken as already
  parsed, following nlohmann::json for member access, number conversion and iteration.
 */
module Ingestion {
  import opened Wrappers
  import opened Numerals
  import opened PayloadText
  import opened Frames
  import opened BoundedQueue

  datatype Number = Unsigned(n: uint64) | Negative(i: int64) | Floating(x: real)

  datatype Json =
    | Null
    | Bool(b: bool)
    | Num(num: Number)
    | Str(text: string)
    | Array(items: seq<Json>)
    | Object(members: map<string, Json>)

  /** What json::parse gives: a document, a parse_error, or an out_of_range for a number that no
      double can hold. */
  datatype Parsing = Document(json: Json) | SyntaxError | NumberOverflow

  /** get<double>, over exact reals. */
  function ToReal(n: Number): real {
    match n
    case Unsigned(u) => u as int as real
    case Negative(i) => i as int as real
    case Floating(x) => x
  }

  /** The conversion of a double that uint64_t cannot hold is unspecified. */
  type Unspecified = real -> uint64

  /** get<uint64_t>: wraps negative integers and drops fractions. */
  function ToUnsigned(n: Number, unspecified: Unspecified): uint64 {
    match n
    case Unsigned(u) => u
    case Negative(i) => ToUint64(i)
    case Floating(x) =>
      if 0.0 <= x < 18446744073709551616.0 then x.Floor as uint64
      else if -1.0 < x < 0.0 then 0
      else unspecified(x)
  }

  /** A counter keeps every number it can hold up to its fraction, and negative integers modulo 2^64. */
  lemma {:induction false} CounterConversion(n: Number, unspecified: Unspecified)
    ensures var u := ToUnsigned(n, unspecified) as int;
            && (0.0 <= ToReal(n) < 18446744073709551616.0 ==> u as real <= ToReal(n) < u as real + 1.0)
            && (n.Negative? ==> (u - n.i as int) % 0x1_0000_0000_0000_0000 == 0)
            && (n.Floating? && -1.0 < n.x < 0.0 ==> u == 0)
  {
  }

  predicate Contains(j: Json, key: string) {
    j.Object? && key in j.members
  }

  /** What items() iterates over: an array is keyed by position, a scalar by the empty string. */
  function Items(j: Json): map<string, Json> {
    match j
    case Object(members) => members
    case Array(items) => ArrayItems(items)
    case Null => map[]
    case _ => map["" := j]
  }

  function ArrayItems(items: seq<Json>): map<string, Json> {
    if items == [] then map[]
    else ArrayItems(items[..|items|-1])[Digits(|items| - 1) := items[|items|-1]]
  }

  /** The payload: exactly the numeric items. */
  function NumericItems(j: Json): map<string, Double> {
    map k | k in Items(j) && Items(j)[k].Num? :: Finite(ToReal(Items(j)[k].num))
  }

  function SensorType(j: Json): string {
    if Contains(j, "battery") then "battery"
    else if Contains(j, "temperature") then "temperature"
    else if Contains(j, "velocity_x") then "velocity"
    else "generic"
  }

  /** The key the robot's name is taken from. */
  function RobotKey(j: Json): Option<string> {
    if Contains(j, "client_id") then Some("client_id")
    else if Contains(j, "robot_id") then Some("robot_id")
    else None
  }

  /** Every get<> that parse_and_validate performs succeeds; otherwise a type_error leaves it. */
  predicate WellTyped(j: Json) {
    && (RobotKey(j).Some? ==> j.members[RobotKey(j).value].Str?)
    && (Contains(j, "sequence_id") ==> j.members["sequence_id"].Num?)
    && (Contains(j, "timestamp_ns") ==> j.members["timestamp_ns"].Num?)
  }

  function CounterOf(j: Json, key: string, absent: uint64, unspecified: Unspecified): uint64
    requires Contains(j, key) ==> j.members[key].Num?
  {
    if Contains(j, key) then ToUnsigned(j.members[key].num, unspecified) else absent
  }

  function RobotName(j: Json): string
    requires WellTyped(j)
  {
    match RobotKey(j)
    case Some(key) => j.members[key].text
    case None => "unknown_robot"
  }

  /** `data` is a frame for document `j` received at time `clock`. */
  ghost predicate FrameFor(j: Json, clock: uint64, unspecified: Unspecified, data: Frame) {
    && WellTyped(j)
    && data.robotId == RobotName(j)
    && data.sequenceId == CounterOf(j, "sequence_id", 0, unspecified)
    && data.timestampNs == CounterOf(j, "timestamp_ns", clock, unspecified)
    && data.sensorType == SensorType(j)
    && DistinctKeys(data.payloadValues)
    && AsMap(data.payloadValues) == NumericItems(j)
  }

  // ---------- What the frame of a document holds ----------

  /** The counter is the document's when it has one, and `absent` otherwise. */
  ghost predicate CounterSays(j: Json, key: string, absent: uint64, unspecified: Unspecified, counter: uint64) {
    if j.Object? && key in j.members
    then j.members[key].Num? && counter == ToUnsigned(j.members[key].num, unspecified)
    else counter == absent
  }

  /** The robot's name is client_id, else robot_id, else a constant. */
  ghost predicate NameSays(j: Json, robotId: string) {
    if j.Object? && "client_id" in j.members then j.members["client_id"] == Str(robotId)
    else if j.Object? && "robot_id" in j.members then j.members["robot_id"] == Str(robotId)
    else robotId == "unknown_robot"
  }

  /** The class is that of the first of three members that is present. */
  ghost predicate ClassSays(j: Json, sensorType: string) {
    var keys := if j.Object? then j.members.Keys else {};
    && (sensorType == "battery" <==> "battery" in keys)
    && (sensorType == "temperature" <==> "temperature" in keys && "battery" !in keys)
    && (sensorType == "velocity" <==> "velocity_x" in keys && "battery" !in keys && "temperature" !in keys)
    && (sensorType == "generic" <==> "battery" !in keys && "temperature" !in keys && "velocity_x" !in keys)
  }

  /** A number item and the double it becomes. */
  predicate NumberSays(item: Json, v: Double) {
    && item.Num?
    && match item.num
       case Unsigned(n) => v == Finite(n as int as real)
       case Negative(i) => v == Finite(i as int as real)
       case Floating(x) => v == Finite(x)
  }

  /** The payload of an object: a reading for each numeric member, and no other. */
  ghost predicate PayloadSays(members: map<string, Json>, payload: seq<Reading>) {
    && DistinctKeys(payload)
    && (forall i :: 0 <= i < |payload| ==>
          payload[i].key in members && NumberSays(members[payload[i].key], payload[i].value))
    && (forall k :: k in members && members[k].Num? ==> exists i :: 0 <= i < |payload| && payload[i].key == k)
  }

  /** All that is said of the frame of a document. */
  ghost predicate Describes(j: Json, clock: uint64, unspecified: Unspecified, data: Frame) {
    && NameSays(j, data.robotId)
    && ClassSays(j, data.sensorType)
    && CounterSays(j, "sequence_id", 0, unspecified, data.sequenceId)
    && CounterSays(j, "timestamp_ns", clock, unspecified, data.timestampNs)
    && (j.Object? ==> PayloadSays(j.members, data.payloadValues))
  }

  lemma {:induction false} AsMapKeys(p: seq<Reading>)
    ensures forall k :: k in AsMap(p) <==> exists i :: 0 <= i < |p| && p[i].key == k
  {
    if p == [] {
    } else {
      var q := p[..|p|-1];
      AsMapKeys(q);
      forall k ensures k in AsMap(p) <==> exists i :: 0 <= i < |p| && p[i].key == k {
        if k in AsMap(q) {
          var i :| 0 <= i < |q| && q[i].key == k;
          assert p[i].key == k;
        }
        if i :| 0 <= i < |p| && p[i].key == k {
          assert i < |q| ==> q[i].key == k;
        }
      }
    }
  }

  lemma {:induction false} AsMapAt(p: seq<Reading>, i: nat)
    requires DistinctKeys(p) && i < |p|
    ensures p[i].key in AsMap(p) && AsMap(p)[p[i].key] == p[i].value
  {
    if i == |p| - 1 {
    } else {
      AsMapAt(p[..|p|-1], i);
    }
  }

  /** Said of the document itself, field by field. */
  lemma {:induction false} FrameSays(j: Json, clock: uint64, unspecified: Unspecified, data: Frame)
    requires FrameFor(j, clock, unspecified, data)
    ensures Describes(j, clock, unspecified, data)
  {
    if j.Object? {
      PayloadOfMembers(j, data.payloadValues);
    }
  }

  lemma {:induction false} PayloadOfMembers(j: Json, payload: seq<Reading>)
    requires j.Object? && DistinctKeys(payload) && AsMap(payload) == NumericItems(j)
    ensures PayloadSays(j.members, payload)
  {
    forall i | 0 <= i < |payload|
      ensures payload[i].key in j.members && NumberSays(j.members[payload[i].key], payload[i].value)
    {
      AsMapAt(payload, i);
      assert payload[i].key in NumericItems(j);
    }
    AsMapKeys(payload);
    forall k | k in j.members && j.members[k].Num? ensures exists i :: 0 <= i < |payload| && payload[i].key == k {
      assert k in NumericItems(j);
    }
  }

  /** The payload of any other document: numbers of an array under their decimal position, a lone
      number under the empty key. */
  lemma {:induction false} PayloadOfOthers(j: Json)
    ensures j.Array? ==> Items(j) == ArrayItems(j.items)
    ensures j.Num? ==> exists v :: NumericItems(j) == map["" := v] && NumberSays(j, v)
    ensures j.Null? || j.Bool? || j.Str? ==> NumericItems(j) == map[]
  {
    if j.Num? {
      var v := Finite(ToReal(j.num));
      assert NumericItems(j) == map["" := v] && NumberSays(j, v);
    }
  }

  // ---------- parse_and_validate and process_payload ----------

  datatype IngestionStatus =
    | SUCCESS
    | INVALID_JSON_SYNTAX
    | MISSING_REQUIRED_FIELDS
    | TIMESTAMP_OUT_OF_BOUNDS
    | PAYLOAD_EXCEEDS_SIZE_LIMIT
    | QUEUE_FULL

  /** How a call ends: with a status, or with an exception that it does not catch. */
  datatype Ending = Status(status: IngestionStatus) | TypeError | OutOfRange

  /** models::TelemetryData, which the parser overwrites through a reference. */
  class TelemetryData {
    var robotId: string
    var sensorType: string
    var timestampNs: uint64
    var sequenceId: uint64
    var payloadValues: seq<Reading>

    function View(): Frame
      reads this
    {
      Frame(robotId, sensorType, timestampNs, sequenceId, payloadValues)
    }

    constructor ()
      ensures View() == Frame("", "", 0, 0, [])
    {
      robotId, sensorType, timestampNs, sequenceId, payloadValues := "", "", 0, 0, [];
    }
  }

  lemma {:induction false} AddReading(p: seq<Reading>, r: Reading)
    requires DistinctKeys(p) && r.key !in AsMap(p)
    ensures DistinctKeys(p + [r]) && AsMap(p + [r]) == AsMap(p)[r.key := r.value]
  {
    AsMapKeys(p);
    assert (p + [r])[..|p|] == p;
  }

  /** The numeric items outside `todo`. */
  ghost function Taken(items: map<string, Json>, todo: set<string>): map<string, Double> {
    map k | k in items && k !in todo && items[k].Num? :: Finite(ToReal(items[k].num))
  }

  lemma {:induction false} TakeOne(items: map<string, Json>, todo: set<string>, key: string)
    requires key in todo && todo <= items.Keys
    ensures key !in Taken(items, todo)
    ensures Taken(items, todo - {key})
         == if items[key].Num? then Taken(items, todo)[key := Finite(ToReal(items[key].num))] else Taken(items, todo)
  {
  }

  /** The loop over parsed.items(); the order of the payload map is not specified. */
  method CollectNumbers(j: Json) returns (payload: seq<Reading>)
    ensures DistinctKeys(payload) && AsMap(payload) == NumericItems(j)
  {
    payload := [];
    var items := Items(j);
    var todo := items.Keys;
    while todo != {}
      invariant todo <= items.Keys && DistinctKeys(payload)
      invariant AsMap(payload) == Taken(items, todo)
      decreases todo
    {
      var key :| key in todo;
      TakeOne(items, todo, key);
      if items[key].Num? {
        var r := Reading(key, Finite(ToReal(items[key].num)));
        AddReading(payload, r);
        payload := payload + [r];
      }
      todo := todo - {key};
    }
    assert Taken(items, {}) == NumericItems(j);
  }

  method ParseAndValidate(parsed: Parsing, clock: uint64, unspecified: Unspecified, outData: TelemetryData)
    returns (ending: Ending)
    modifies outData
    ensures parsed.SyntaxError? <==> ending == Status(INVALID_JSON_SYNTAX)
    ensures parsed.NumberOverflow? <==> ending == OutOfRange
    ensures parsed.Document? && !WellTyped(parsed.json) <==> ending == TypeError
    ensures parsed.Document? && WellTyped(parsed.json) <==> ending == Status(SUCCESS)
    ensures ending == Status(SUCCESS) ==> FrameFor(parsed.json, clock, unspecified, outData.View())
    ensures ending == Status(SUCCESS) ==> Describes(parsed.json, clock, unspecified, outData.View())
    ensures !parsed.Document? ==> outData.View() == old(outData.View())
  {
    if parsed.SyntaxError? {
      return Status(INVALID_JSON_SYNTAX);
    }
    if parsed.NumberOverflow? {
      return OutOfRange;
    }
    var j := parsed.json;
    if Contains(j, "client_id") {
      if !j.members["client_id"].Str? {
        return TypeError;
      }
      outData.robotId := j.members["client_id"].text;
    } else if Contains(j, "robot_id") {
      if !j.members["robot_id"].Str? {
        return TypeError;
      }
      outData.robotId := j.members["robot_id"].text;
    } else {
      outData.robotId := "unknown_robot";
    }
    if Contains(j, "sequence_id") {
      if !j.members["sequence_id"].Num? {
        return TypeError;
      }
      outData.sequenceId := ToUnsigned(j.members["sequence_id"].num, unspecified);
    } else {
      outData.sequenceId := 0;
    }
    if Contains(j, "timestamp_ns") {
      if !j.members["timestamp_ns"].Num? {
        return TypeError;
      }
      outData.timestampNs := ToUnsigned(j.members["timestamp_ns"].num, unspecified);
    } else {
      outData.timestampNs := clock;
    }
    outData.payloadValues := CollectNumbers(j);
    if Contains(j, "battery") {
      outData.sensorType := "battery";
    } else if Contains(j, "temperature") {
      outData.sensorType := "temperature";
    } else if Contains(j, "velocity_x") {
      outData.sensorType := "velocity";
    } else {
      outData.sensorType := "generic";
    }
    FrameSays(j, clock, unspecified, outData.View());
    return Status(SUCCESS);
  }

  method ProcessPayload(parsed: Parsing, clock: uint64, unspecified: Unspecified,
                        targetQueue: ConcurrentQueue<Frame>)
    returns (ending: Ending)
    modifies targetQueue
    ensures parsed.SyntaxError? <==> ending == Status(INVALID_JSON_SYNTAX)
    ensures parsed.NumberOverflow? <==> ending == OutOfRange
    ensures parsed.Document? && !WellTyped(parsed.json) <==> ending == TypeError
    ensures ending == Status(QUEUE_FULL) <==>
              parsed.Document? && WellTyped(parsed.json) && |old(targetQueue.queue)| >= targetQueue.maxCapacity
    ensures ending == Status(SUCCESS) ==>
              exists data :: FrameFor(parsed.json, clock, unspecified, data)
                             && targetQueue.queue == old(targetQueue.queue) + [data]
    ensures ending != Status(SUCCESS) ==> targetQueue.queue == old(targetQueue.queue)
  {
    var data := new TelemetryData();
    ending := ParseAndValidate(parsed, clock, unspecified, data);
    if ending == Status(SUCCESS) {
      assert FrameFor(parsed.json, clock, unspecified, data.View());
      var pushed := targetQueue.Push(data.View());
      if !pushed {
        return Status(QUEUE_FULL);
      }
    }
  }

  // ---------- publish_ros_messages ----------

  /** The message fields that carry telemetry; frameId is header.frame_id. */
  datatype Message =
    | BatteryState(frameId: string, percentage: Double)
    | Temperature(frameId: string, temperature: Double)
    | Twist(frameId: string, linearX: Double)

  function ValueOr(values: map<string, Double>, key: string, default: Double): Double {
    if key in values then values[key] else default
  }

  /** At most one message, with message fields zero by default. */
  function Publish(data: Frame): Option<Message> {
    var values := AsMap(data.payloadValues);
    if data.sensorType == "battery" then
      Some(BatteryState(data.robotId, ValueOr(values, "battery", Finite(0.0))))
    else if data.sensorType == "temperature" then
      Some(Temperature(data.robotId, ValueOr(values, "temperature", Finite(0.0))))
    else if data.sensorType == "velocity" then
      Some(Twist(data.robotId, ValueOr(values, "velocity_x", Finite(0.0))))
    else None
  }

  /** The value of a member when it is a number, zero otherwise. */
  function NumberAt(j: Json, key: string): Double {
    Finite(if Contains(j, key) && j.members[key].Num? then ToReal(j.members[key].num) else 0.0)
  }

  /** What is published for document `j`: the topic is that of the first of the three members
      present, and the value is that member's own. */
  function MessageFor(j: Json): Option<Message>
    requires WellTyped(j)
  {
    if Contains(j, "battery") then Some(BatteryState(RobotName(j), NumberAt(j, "battery")))
    else if Contains(j, "temperature") then Some(Temperature(RobotName(j), NumberAt(j, "temperature")))
    else if Contains(j, "velocity_x") then Some(Twist(RobotName(j), NumberAt(j, "velocity_x")))
    else None
  }

  /** Parsing and publishing agree for every document. */
  lemma {:induction false} PublishesTheMember(j: Json, clock: uint64, unspecified: Unspecified, data: Frame)
    requires FrameFor(j, clock, unspecified, data)
    ensures Publish(data) == MessageFor(j)
  {
  }

  /** The frame is fixed by the document and the clock alone, up to the payload map's order. */
  lemma {:induction false} FrameIsDetermined(j: Json, clock: uint64, unspecified: Unspecified, a: Frame, b: Frame)
    requires FrameFor(j, clock, unspecified, a) && FrameFor(j, clock, unspecified, b)
    ensures a.(payloadValues := []) == b.(payloadValues := [])
    ensures AsMap(a.payloadValues) == AsMap(b.payloadValues) == NumericItems(j)
    ensures Publish(a) == Publish(b)
  {
  }

  lemma {:induction false} DigitsInjective(m: nat, n: nat)
    requires Digits(m) == Digits(n)
    ensures m == n
  {
    assert Value(Digits(m)) == Value(Digits(n));
  }

  lemma {:induction false} ArrayItemAt(items: seq<Json>, i: nat)
    requires i < |items|
    ensures Digits(i) in ArrayItems(items) && ArrayItems(items)[Digits(i)] == items[i]
  {
    var n := |items| - 1;
    if i == n {
    } else {
      ArrayItemAt(items[..n], i);
      if Digits(i) == Digits(n) {
        DigitsInjective(i, n);
      }
    }
  }

  lemma {:induction false} ArrayKeyAt(items: seq<Json>, k: string)
    requires k in ArrayItems(items)
    ensures exists i :: 0 <= i < |items| && k == Digits(i)
  {
    if k == Digits(|items| - 1) {
    } else {
      ArrayKeyAt(items[..|items|-1], k);
    }
  }

  /** Array documents are accepted too: element i becomes the reading with key i in decimal. */
  lemma {:induction false} ArrayItemsAt(items: seq<Json>)
    ensures forall i :: 0 <= i < |items| ==> Digits(i) in ArrayItems(items) && ArrayItems(items)[Digits(i)] == items[i]
    ensures forall k :: k in ArrayItems(items) ==> exists i :: 0 <= i < |items| && k == Digits(i)
  {
    forall i | 0 <= i < |items|
      ensures Digits(i) in ArrayItems(items) && ArrayItems(items)[Digits(i)] == items[i]
    {
      ArrayItemAt(items, i);
    }
    forall k | k in ArrayItems(items) ensures exists i :: 0 <= i < |items| && k == Digits(i) {
      ArrayKeyAt(items, k);
    }
  }
}
