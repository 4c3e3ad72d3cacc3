/** Telemetry frames and the rows they are bound to (insert_telemetry and insert_batch bind alike). */
module Frames {
  import opened Wrappers
  import opened JsonText
  import opened Numerals
  import opened Ordering
  import opened PayloadText

  newtype uint64 = n: int | 0 <= n < 0x1_0000_0000_0000_0000
  newtype int64 = n: int | -0x8000_0000_0000_0000 <= n < 0x8000_0000_0000_0000

  datatype Frame = Frame(
    robotId: string,
    sensorType: string,
    timestampNs: uint64,
    sequenceId: uint64,
    payloadValues: seq<Reading>)

  /** The five bound columns of telemetry_records. */
  datatype Row = Row(
    robotId: string,
    sensorType: string,
    timestampNs: int64,
    sequenceId: int64,
    payloadJson: string)

  /** What sqlite3_bind_text(..., c_str(), -1, ...) keeps of a string: everything before the first NUL. */
  function CStr(s: string): string {
    if s == "" || s[0] == '\0' then "" else [s[0]] + CStr(s[1..])
  }

  /** static_cast<sqlite3_int64>: two's complement. */
  function ToInt64(u: uint64): int64 {
    if u as int < 0x8000_0000_0000_0000 then u as int as int64
    else (u as int - 0x1_0000_0000_0000_0000) as int64
  }

  function ToUint64(i: int64): uint64 {
    if i as int >= 0 then i as int as uint64 else (i as int + 0x1_0000_0000_0000_0000) as uint64
  }

  function RowOf(data: Frame): Row {
    Row(CStr(data.robotId), CStr(data.sensorType),
        ToInt64(data.timestampNs), ToInt64(data.sequenceId),
        CStr(PayloadJson(data.payloadValues)))
  }

  function RowsOf(batch: seq<Frame>): (rows: seq<Row>)
    ensures |rows| == |batch| && forall i :: 0 <= i < |batch| ==> rows[i] == RowOf(batch[i])
  {
    if batch == [] then [] else RowsOf(batch[..|batch|-1]) + [RowOf(batch[|batch|-1])]
  }

  lemma {:induction false} RowsOfSnoc(batch: seq<Frame>, data: Frame)
    ensures RowsOf(batch + [data]) == RowsOf(batch) + [RowOf(data)]
  {
    assert (batch + [data])[..|batch|] == batch;
  }

  /** A reader of the table: the frame a row describes. */
  function FrameOf(row: Row): Option<Frame> {
    match ReadObject(row.payloadJson)
    case None => None
    case Some(readings) =>
      Some(Frame(row.robotId, row.sensorType, ToUint64(row.timestampNs), ToUint64(row.sequenceId), readings))
  }

  // ---------- Text columns ----------

  predicate NulFree(s: string) {
    forall i :: 0 <= i < |s| ==> s[i] != '\0'
  }

  /** A bound text is the original up to its first NUL, so it is the original exactly when there is none. */
  lemma {:induction false} CStrKeeps(s: string)
    ensures CStr(s) <= s && NulFree(CStr(s))
    ensures |CStr(s)| < |s| ==> s[|CStr(s)|] == '\0'
    ensures CStr(s) == s <==> NulFree(s)
  {
    if s == "" || s[0] == '\0' {
    } else {
      CStrKeeps(s[1..]);
      assert s == [s[0]] + s[1..];
    }
  }

  lemma {:induction false} CleanIsNulFree(s: string)
    requires Clean(s)
    ensures NulFree(s)
  {
  }

  lemma {:induction false} NumberNulFree(v: Double)
    ensures NulFree(ToString(v))
  {
    NumberClean(v);
    CleanIsNulFree(ToString(v));
  }

  lemma {:induction false} CStrConcat(a: string, b: string)
    ensures CStr(a + b) == if NulFree(a) then a + CStr(b) else CStr(a)
  {
    if a == "" {
      assert a + b == b;
    } else {
      assert (a + b)[0] == a[0] && (a + b)[1..] == a[1..] + b;
      NulFreeCons(a);
      if a[0] != '\0' {
        CStrConcat(a[1..], b);
        ConsConcat(a, CStr(b));
      }
    }
  }

  lemma {:induction false} ConsConcat(a: string, t: string)
    requires a != ""
    ensures [a[0]] + (a[1..] + t) == a + t
  {
  }

  lemma {:induction false} NulFreeCons(a: string)
    requires a != ""
    ensures NulFree(a) <==> a[0] != '\0' && NulFree(a[1..])
  {
    assert forall i :: 0 < i < |a| ==> a[i] == a[1..][i-1];
    assert forall i :: 0 <= i < |a| - 1 ==> a[1..][i] == a[i+1];
  }

  lemma {:induction false} NulFreeConcat(a: string, b: string)
    ensures NulFree(a + b) <==> NulFree(a) && NulFree(b)
  {
    assert forall i :: 0 <= i < |a| ==> (a + b)[i] == a[i];
    assert forall i :: 0 <= i < |b| ==> (a + b)[|a| + i] == b[i];
  }

  lemma {:induction false} MemberNulFree(r: Reading)
    requires Clean(r.key)
    ensures NulFree(Member(r))
  {
    NumberNulFree(r.value);
    CleanIsNulFree(r.key);
    NulFreeConcat("\"", r.key);
    NulFreeConcat("\"" + r.key, "\":");
    NulFreeConcat("\"" + r.key + "\":", ToString(r.value));
  }

  lemma {:induction false} MembersNulFree(p: seq<Reading>)
    requires CleanKeys(p)
    ensures NulFree(Members(p))
  {
    if p == [] {
    } else {
      MemberNulFree(p[0]);
      CleanKeysCons(p);
      MembersNulFree(p[1..]);
      if |p| > 1 {
        NulFreeConcat(Member(p[0]), ",");
        NulFreeConcat(Member(p[0]) + ",", Members(p[1..]));
      }
    }
  }

  // ---------- Round trip ----------

  lemma {:induction false} CleanJsonKept(p: seq<Reading>)
    requires CleanKeys(p)
    ensures CStr(PayloadJson(p)) == PayloadJson(p)
  {
    MembersNulFree(p);
    CStrKeeps(PayloadJson(p));
  }

  lemma {:induction false} CutMember(r: Reading, rest: string)
    requires NulFree(r.key)
    ensures CStr(Member(r) + rest) == Member(r) + CStr(rest)
  {
    NumberNulFree(r.value);
    CStrConcat(Member(r), rest);
  }

  /** A key with a NUL does not come back from the text cut off there. */
  lemma {:induction false} CutKey(r: Reading, rest: string)
    requires !NulFree(r.key)
    ensures match ReadMember(CStr(Member(r) + rest))
            case None => true
            case Some((m, _)) => m.key != r.key
  {
    var tail := "\":" + ToString(r.value) + rest;
    assert Member(r) + rest == "\"" + (r.key + tail);
    CStrConcat("\"", r.key + tail);
    CStrConcat(r.key, tail);
    CStrKeeps(r.key);
    TailOf('\"', CStr(r.key));
  }

  lemma {:induction false} CutOthers(p: seq<Reading>)
    requires p != []
    ensures CStr(Others(p)) == if |p| == 1 then "}" else "," + CStr(Members(p[1..]) + "}")
    ensures CStr(Others(p)) == "}" || (|CStr(Others(p))| > 1 && CStr(Others(p))[..2] == ",\"")
  {
    if |p| == 1 {
      CStrKeeps("}");
    } else {
      CStrConcat(",", Members(p[1..]) + "}");
    }
  }

  lemma {:induction false} BoundFirst(p: seq<Reading>, s: string)
    requires p != [] && s == CStr(Members(p) + "}")
    ensures ReadMembers(s) == Some(StoredReadings(p)) ==> Clean(p[0].key)
  {
    MembersOpen(p);
    StoredFirst(p);
    if !NulFree(p[0].key) {
      CutKey(p[0], Others(p));
    } else {
      CutMember(p[0], Others(p));
      CutOthers(p);
      if ReadMembers(s) == Some(StoredReadings(p)) {
        MemberClean(p[0], CStr(Others(p)));
      }
    }
  }

  lemma {:induction false} BoundOthers(p: seq<Reading>, s: string)
    requires |p| > 1 && Clean(p[0].key) && s == CStr(Members(p) + "}")
    ensures ReadMembers(s) == Some(StoredReadings(p)) ==>
              ReadMembers(CStr(Members(p[1..]) + "}")) == Some(StoredReadings(p[1..]))
  {
    MembersOpen(p);
    StoredFirst(p);
    CleanIsNulFree(p[0].key);
    CutMember(p[0], Others(p));
    CutOthers(p);
    ReadMemberOf(p[0], CStr(Others(p)));
    TailOf(',', CStr(Members(p[1..]) + "}"));
  }

  /** Keys that come back from the bound text need no escaping. */
  lemma {:induction false} BoundKeysComeBack(p: seq<Reading>, s: string)
    requires p != [] && s == CStr(Members(p) + "}")
    ensures ReadMembers(s) == Some(StoredReadings(p)) ==> CleanKeys(p)
    decreases p
  {
    BoundFirst(p, s);
    CleanKeysCons(p);
    if |p| == 1 || !Clean(p[0].key) {
    } else {
      BoundOthers(p, s);
      BoundKeysComeBack(p[1..], CStr(Members(p[1..]) + "}"));
    }
  }

  lemma {:induction false} PayloadColumn(p: seq<Reading>)
    ensures ReadObject(CStr(PayloadJson(p))) == Some(StoredReadings(p)) <==> CleanKeys(p) && AllFinite(p)
  {
    if CleanKeys(p) {
      CleanJsonKept(p);
      PrinterInvertible(p);
    } else if ReadObject(CStr(PayloadJson(p))) == Some(StoredReadings(p)) {
      var s := Members(p) + "}";
      assert PayloadJson(p) == "{" + s && s[0] == '\"';
      CStrConcat("{", s);
      TailOf('{', CStr(s));
      BoundKeysComeBack(p, CStr(s));
    }
  }

  /** A stored frame is read back, with its numbers at six decimals and its two counters intact
      over the full 64 bits, exactly when its texts have no NUL, its keys need no escaping and its
      numbers are finite. */
  lemma {:induction false} RowRoundTrip(data: Frame)
    ensures FrameOf(RowOf(data)) == Some(data.(payloadValues := StoredReadings(data.payloadValues)))
       <==> NulFree(data.robotId) && NulFree(data.sensorType)
            && CleanKeys(data.payloadValues) && AllFinite(data.payloadValues)
  {
    CStrKeeps(data.robotId);
    CStrKeeps(data.sensorType);
    PayloadColumn(data.payloadValues);
  }

  /** The index orders timestamps as signed numbers: this is the order of the frames exactly when
      both lie on the same side of 2^63 (or are equal). */
  lemma {:induction false} TimestampOrder(a: Frame, b: Frame)
    requires a.timestampNs != b.timestampNs
    ensures (RowOf(a).timestampNs < RowOf(b).timestampNs <==> a.timestampNs < b.timestampNs)
       <==> (a.timestampNs < 0x8000_0000_0000_0000 <==> b.timestampNs < 0x8000_0000_0000_0000)
  {
  }

  // ---------- The order of the index ----------

  function FrameKey(data: Frame): Key {
    Key(data.robotId, data.timestampNs as int)
  }

  /** By the robot's name as far as its first NUL, which is all that is bound. */
  function BoundKey(data: Frame): Key {
    Key(CStr(data.robotId), data.timestampNs as int)
  }

  /** The columns of idx_robot_timestamp. */
  function RowKey(row: Row): Key {
    Key(row.robotId, row.timestampNs as int)
  }

  predicate SameSide(a: Frame, b: Frame) {
    a.timestampNs < 0x8000_0000_0000_0000 <==> b.timestampNs < 0x8000_0000_0000_0000
  }

  /** The frames of each bound name lie on one side of 2^63. */
  predicate OneSided(batch: seq<Frame>) {
    forall a, b :: a in batch && b in batch && CStr(a.robotId) == CStr(b.robotId) ==> SameSide(a, b)
  }

  /** Two frames and their rows compare alike. */
  predicate Alike(a: Frame, b: Frame) {
    KeyLess(RowKey(RowOf(a)), RowKey(RowOf(b))) <==> KeyLess(BoundKey(a), BoundKey(b))
  }

  lemma {:induction false} KeysAgree(a: Frame, b: Frame)
    requires CStr(a.robotId) == CStr(b.robotId) ==> SameSide(a, b)
    ensures Alike(a, b)
  {
  }

  lemma {:induction false} PlaceEncodes(s: seq<Frame>, x: Frame)
    requires forall y :: y in s ==> Alike(x, y)
    ensures Place(RowsOf(s), RowOf(x), RowKey) == RowsOf(Place(s, x, BoundKey))
  {
    if s == [] {
    } else {
      var init, last := s[..|s|-1], s[|s|-1];
      assert Alike(x, last);
      PlaceEncodes(init, x);
      RowsOfSnoc(Place(init, x, BoundKey), last);
      RowsOfSnoc(s, x);
    }
  }

  lemma {:induction false} SortEncodes(batch: seq<Frame>)
    requires OneSided(batch)
    ensures Sort(RowsOf(batch), RowKey) == RowsOf(Sort(batch, BoundKey))
  {
    if batch == [] {
    } else {
      var init, last := batch[..|batch|-1], batch[|batch|-1];
      SortEncodes(init);
      SortMembers(init, BoundKey);
      forall y | y in Sort(init, BoundKey)
        ensures Alike(last, y)
      {
        assert y in init && y in batch && last in batch;
        KeysAgree(last, y);
      }
      PlaceEncodes(Sort(init, BoundKey), last);
    }
  }

  lemma {:induction false} SidesCompare(a: Frame, b: Frame)
    requires CStr(a.robotId) == CStr(b.robotId)
    requires a.timestampNs < 0x8000_0000_0000_0000 <= b.timestampNs
    ensures KeyLess(BoundKey(a), BoundKey(b)) && KeyLess(RowKey(RowOf(b)), RowKey(RowOf(a)))
  {
  }

  lemma {:induction false} InOrder(s: seq<Frame>, i: nat, j: nat)
    requires Sorted(s, BoundKey) && i < |s| && j < |s| && KeyLess(BoundKey(s[i]), BoundKey(s[j]))
    ensures i < j
  {
    LessIsAsymmetric(BoundKey(s[i]), BoundKey(s[j]));
  }

  /** Two frames of one robot on different sides of 2^63 change places. */
  lemma {:induction false} SidesChangePlaces(batch: seq<Frame>, a: Frame, b: Frame)
    requires CStr(a.robotId) == CStr(b.robotId) && a in batch && b in batch
    requires a.timestampNs < 0x8000_0000_0000_0000 <= b.timestampNs
    ensures !Sorted(RowsOf(Sort(batch, BoundKey)), RowKey)
  {
    var s := Sort(batch, BoundKey);
    SortMembers(batch, BoundKey);
    SortIsStable(batch, BoundKey);
    var i :| 0 <= i < |s| && s[i] == a;
    var j :| 0 <= j < |s| && s[j] == b;
    SidesCompare(a, b);
    InOrder(s, i, j);
    assert KeyLess(RowKey(RowsOf(s)[j]), RowKey(RowsOf(s)[i]));
  }

  lemma {:induction false} PlaceByName(s: seq<Frame>, x: Frame)
    requires NulFree(x.robotId) && forall y :: y in s ==> NulFree(y.robotId)
    ensures Place(s, x, BoundKey) == Place(s, x, FrameKey)
  {
    CStrKeeps(x.robotId);
    if s == [] {
    } else {
      CStrKeeps(s[|s|-1].robotId);
      PlaceByName(s[..|s|-1], x);
    }
  }

  /** Without a NUL in a name the bound name is the name. */
  lemma {:induction false} SortByName(batch: seq<Frame>)
    requires forall data :: data in batch ==> NulFree(data.robotId)
    ensures Sort(batch, BoundKey) == Sort(batch, FrameKey)
  {
    if batch == [] {
    } else {
      var init := batch[..|batch|-1];
      SortByName(init);
      SortMembers(init, FrameKey);
      PlaceByName(Sort(init, FrameKey), batch[|batch|-1]);
    }
  }

  /** Reading rows by idx_robot_timestamp gives the frames by bound name and time if and only if the
      timestamps of each bound name all lie below 2^63 or all at or above it; names without a NUL
      are bound whole. */
  lemma {:induction false} IndexOrder(batch: seq<Frame>)
    ensures Sort(RowsOf(batch), RowKey) == RowsOf(Sort(batch, BoundKey)) <==> OneSided(batch)
    ensures (forall data :: data in batch ==> NulFree(data.robotId)) ==>
              Sort(batch, BoundKey) == Sort(batch, FrameKey)
  {
    if forall data :: data in batch ==> NulFree(data.robotId) {
      SortByName(batch);
    }
    if OneSided(batch) {
      SortEncodes(batch);
    } else {
      var a, b :| a in batch && b in batch && CStr(a.robotId) == CStr(b.robotId) && !SameSide(a, b);
      if a.timestampNs < b.timestampNs {
        SidesChangePlaces(batch, a, b);
      } else {
        SidesChangePlaces(batch, b, a);
      }
      SortIsStable(RowsOf(batch), RowKey);
    }
  }
}
