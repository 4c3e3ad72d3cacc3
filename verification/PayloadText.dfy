/**
  The hand-written JSON text of a payload map, and an independent reader for objects of
  numbers (section 4 of RFC 8259).
 */
module PayloadText {
  import opened Wrappers
  import opened JsonText
  import opened Numerals

  /** One entry of the unordered_map payload_values. */
  datatype Reading = Reading(key: string, value: Double)

  /** A payload is listed in the iteration order of its unordered_map: any order, each key once. */
  predicate DistinctKeys(p: seq<Reading>) {
    forall i, j :: 0 <= i < j < |p| ==> p[i].key != p[j].key
  }

  function AsMap(p: seq<Reading>): map<string, Double> {
    if p == [] then map[] else AsMap(p[..|p|-1])[p[|p|-1].key := p[|p|-1].value]
  }

  // ---------- The printer ----------

  function Member(r: Reading): string {
    "\"" + r.key + "\":" + ToString(r.value)
  }

  function Members(p: seq<Reading>): string {
    if p == [] then ""
    else if |p| == 1 then Member(p[0])
    else Member(p[0]) + "," + Members(p[1..])
  }

  function PayloadJson(p: seq<Reading>): string {
    "{" + Members(p) + "}"
  }

  lemma {:induction false} CommaToTheRight(a: string, b: string, c: string)
    ensures a + "," + (b + "," + c) == a + "," + b + "," + c
  {
  }

  lemma {:induction false} MembersSnoc(p: seq<Reading>, r: Reading)
    ensures Members(p + [r]) == if p == [] then Member(r) else Members(p) + "," + Member(r)
  {
    if p == [] {
      assert p + [r] == [r];
    } else {
      assert (p + [r])[1..] == p[1..] + [r];
      MembersSnoc(p[1..], r);
      if |p| > 1 {
        CommaToTheRight(Member(p[0]), Members(p[1..]), Member(r));
      }
    }
  }

  lemma {:induction false} ConcatToTheRight(a: string, b: string, c: string, d: string)
    ensures a + b + c + d == a + (b + (c + d))
  {
  }

  lemma {:induction false} OpenBrace(m: string, sep: string, x: string)
    ensures "{" + (m + sep + x) == "{" + m + sep + x
  {
  }

  lemma {:induction false} PrintStep(p: seq<Reading>, i: nat)
    requires i < |p|
    ensures "{" + Members(p[..i+1]) == "{" + Members(p[..i]) + (if i == 0 then "" else ",") + Member(p[i])
  {
    var before, member := p[..i], Member(p[i]);
    assert p[..i+1] == before + [p[i]];
    MembersSnoc(before, p[i]);
    OpenBrace(Members(before), ",", member);
    OpenBrace("", "", member);
  }

  /** The printing loop; it stands twice in the source, with the same text. */
  method PrintPayload(payloadValues: seq<Reading>) returns (payloadJson: string)
    ensures payloadJson == PayloadJson(payloadValues)
  {
    payloadJson := "{";
    var first := true;
    for i := 0 to |payloadValues|
      invariant first <==> i == 0
      invariant payloadJson == "{" + Members(payloadValues[..i])
    {
      var kv := payloadValues[i];
      PrintStep(payloadValues, i);
      if !first {
        payloadJson := payloadJson + ",";
      }
      payloadJson := payloadJson + Member(kv);
      first := false;
    }
    assert payloadValues[..|payloadValues|] == payloadValues;
    payloadJson := payloadJson + "}";
  }

  // ---------- The reader ----------

  predicate CleanKeys(p: seq<Reading>) {
    forall i :: 0 <= i < |p| ==> Clean(p[i].key)
  }

  predicate AllFinite(p: seq<Reading>) {
    forall i :: 0 <= i < |p| ==> p[i].value.Finite?
  }

  function ReadMember(s: string): (r: Option<(Reading, string)>)
    ensures r.Some? ==> |r.value.1| < |s| && r.value.0.value.Finite?
  {
    if s == "" || s[0] != '\"' then None
    else
      match ReadName(s[1..])
      case None => None
      case Some((name, rest)) =>
        if rest == "" || rest[0] != ':' then None
        else
          match ReadNumber(rest[1..])
          case None => None
          case Some((v, rest')) => Some((Reading(name, Finite(v)), rest'))
  }

  function ReadMembers(s: string): (r: Option<seq<Reading>>)
    ensures r.Some? ==> AllFinite(r.value)
    decreases |s|
  {
    match ReadMember(s)
    case None => None
    case Some((m, rest)) =>
      if rest == "}" then Some([m])
      else if rest == "" || rest[0] != ',' then None
      else
        match ReadMembers(rest[1..])
        case None => None
        case Some(ms) => Some([m] + ms)
  }

  function ReadObject(s: string): (r: Option<seq<Reading>>)
    ensures r.Some? ==> AllFinite(r.value)
  {
    if s == "{}" then Some([])
    else if s == "" || s[0] != '{' then None
    else ReadMembers(s[1..])
  }

  // ---------- Round trip ----------

  function StoredReadings(p: seq<Reading>): (q: seq<Reading>)
    ensures |q| == |p|
    ensures forall i :: 0 <= i < |p| ==> q[i] == Reading(p[i].key, Kept(p[i].value))
  {
    if p == [] then [] else [Reading(p[0].key, Kept(p[0].value))] + StoredReadings(p[1..])
  }

  /** A member followed by `rest`, as the reader takes it apart. */
  lemma {:induction false} MemberThen(key: string, number: string, rest: string)
    ensures "\"" + key + "\":" + number + rest == "\"" + (key + "\"" + (":" + (number + rest)))
  {
  }

  lemma {:induction false} TailOf(c: char, s: string)
    ensures ([c] + s)[0] == c && ([c] + s)[1..] == s
  {
  }

  lemma {:induction false} NumberClean(v: Double)
    ensures Clean(ToString(v))
  {
    if v.Finite? {
      var n := Millionths(v.x);
      var whole, frac := Digits(n / 1000000), Padded(n % 1000000, 6);
      assert Clean(whole) && Clean(frac);
    }
  }

  /** What stands between the name of a member and the name of the next: no end of a name. */
  lemma {:induction false} NoNameThere(v: Double, rest: string)
    requires rest == "}" || (|rest| > 1 && rest[..2] == ",\"")
    ensures EndsElsewhere(":" + (ToString(v) + rest))
  {
    var number := ToString(v);
    NumberClean(v);
    if rest == "}" {
      NoEnd(":" + (number + rest));
    } else {
      var name := ":" + number + ",";
      assert rest == ",\"" + rest[2..];
      assert ":" + (number + rest) == name + "\"" + rest[2..];
      ReadNameOf(name, rest[2..]);
    }
  }

  /** A member whose name comes back needs no escaping. */
  lemma {:induction false} MemberClean(r: Reading, rest: string)
    requires rest == "}" || (|rest| > 1 && rest[..2] == ",\"")
    requires ReadMember(Member(r) + rest).Some? && ReadMember(Member(r) + rest).value.0.key == r.key
    ensures Clean(r.key)
  {
    if !Clean(r.key) {
      var tail := ":" + (ToString(r.value) + rest);
      MemberThen(r.key, ToString(r.value), rest);
      TailOf('\"', r.key + "\"" + tail);
      NoNameThere(r.value, rest);
      UncleanName(r.key, tail);
    }
  }

  lemma {:induction false} ReadMemberOf(r: Reading, rest: string)
    requires Clean(r.key) && rest != "" && !IsDigit(rest[0])
    ensures ReadMember(Member(r) + rest)
         == if r.value.Finite? then Some((Reading(r.key, Kept(r.value)), rest)) else None
  {
    var tail := ToString(r.value) + rest;
    MemberThen(r.key, ToString(r.value), rest);
    TailOf('\"', r.key + "\"" + (":" + tail));
    ReadNameOf(r.key, ":" + tail);
    TailOf(':', tail);
    ReadDouble(r.value, rest);
  }

  lemma {:induction false} MembersCons(p: seq<Reading>)
    requires |p| > 1
    ensures Members(p) + "}" == Member(p[0]) + ("," + (Members(p[1..]) + "}"))
  {
    ConcatToTheRight(Member(p[0]), ",", Members(p[1..]), "}");
  }

  lemma {:induction false} AllFiniteCons(p: seq<Reading>)
    requires p != []
    ensures AllFinite(p) <==> p[0].value.Finite? && AllFinite(p[1..])
  {
    assert forall i :: 0 < i < |p| ==> p[i] == p[1..][i-1];
    assert forall i :: 0 <= i < |p[1..]| ==> p[1..][i] == p[i+1];
  }

  lemma {:induction false} ReadMembersOf(p: seq<Reading>, s: string)
    requires p != [] && CleanKeys(p) && s == Members(p) + "}"
    ensures ReadMembers(s) == if AllFinite(p) then Some(StoredReadings(p)) else None
    decreases p
  {
    AllFiniteCons(p);
    if |p| == 1 {
      ReadMemberOf(p[0], "}");
      assert StoredReadings(p) == [Reading(p[0].key, Kept(p[0].value))];
    } else {
      var others := Members(p[1..]) + "}";
      MembersCons(p);
      ReadMemberOf(p[0], "," + others);
      TailOf(',', others);
      ReadMembersOf(p[1..], others);
    }
  }

  /** With keys that need no escaping the text is a JSON object exactly when all numbers are finite,
      and then it is the object of the kept readings. */
  lemma {:induction false} PrintsJson(p: seq<Reading>)
    requires CleanKeys(p)
    ensures ReadObject(PayloadJson(p)) == if AllFinite(p) then Some(StoredReadings(p)) else None
  {
    if p == [] {
    } else {
      var s := Members(p) + "}";
      assert s[0] == '\"';
      assert PayloadJson(p) == "{" + s;
      TailOf('{', s);
      ReadMembersOf(p, s);
    }
  }

  lemma {:induction false} CleanKeysCons(p: seq<Reading>)
    requires p != []
    ensures CleanKeys(p) <==> Clean(p[0].key) && CleanKeys(p[1..])
  {
    assert forall i :: 0 < i < |p| ==> p[i] == p[1..][i-1];
    assert forall i :: 0 <= i < |p[1..]| ==> p[1..][i] == p[i+1];
  }

  /** The text that follows the first member. */
  function Others(p: seq<Reading>): (s: string)
    requires p != []
    ensures s == "}" || (|s| > 1 && s[..2] == ",\"")
  {
    if |p| == 1 then "}" else "," + (Members(p[1..]) + "}")
  }

  lemma {:induction false} MembersOpen(p: seq<Reading>)
    requires p != []
    ensures Members(p) + "}" == Member(p[0]) + Others(p)
  {
    if |p| > 1 {
      MembersCons(p);
    }
  }

  /** The first reading that comes back. */
  lemma {:induction false} StoredFirst(p: seq<Reading>)
    requires p != []
    ensures StoredReadings(p)[0].key == p[0].key && StoredReadings(p)[1..] == StoredReadings(p[1..])
  {
  }

  /** Keys that come back need no escaping. */
  lemma {:induction false} KeysComeBack(p: seq<Reading>, s: string)
    requires p != [] && s == Members(p) + "}"
    ensures ReadMembers(s) == Some(StoredReadings(p)) ==> CleanKeys(p)
    decreases p
  {
    MembersOpen(p);
    StoredFirst(p);
    CleanKeysCons(p);
    if ReadMembers(s) == Some(StoredReadings(p)) {
      MemberClean(p[0], Others(p));
    }
    if |p| == 1 || !Clean(p[0].key) {
    } else {
      var others := Members(p[1..]) + "}";
      ReadMemberOf(p[0], "," + others);
      TailOf(',', others);
      KeysComeBack(p[1..], others);
    }
  }

  /** The printer is invertible exactly on payloads of finite numbers whose keys need no escaping. */
  lemma {:induction false} PrinterInvertible(p: seq<Reading>)
    ensures ReadObject(PayloadJson(p)) == Some(StoredReadings(p)) <==> CleanKeys(p) && AllFinite(p)
  {
    if CleanKeys(p) {
      PrintsJson(p);
    } else if ReadObject(PayloadJson(p)) == Some(StoredReadings(p)) {
      var s := Members(p) + "}";
      assert s[0] == '\"';
      assert PayloadJson(p) == "{" + s;
      TailOf('{', s);
      KeysComeBack(p, s);
    }
  }

  lemma {:induction false} PrintOne(r: Reading)
    ensures PayloadJson([r]) == "{" + Member(r) + "}"
  {
  }

  lemma {:induction false} PrintTwo(r: Reading, q: Reading)
    ensures PayloadJson([r, q]) == "{" + (Member(r) + "," + Member(q)) + "}"
  {
    var p := [r, q];
    assert p[1..] == [q] && Members([q]) == Member(q);
    assert Members(p) == Member(r) + "," + Members(p[1..]);
  }

  function ForgedKey(x: string, a: real, y: string): string {
    x + "\":" + Render(a) + ",\"" + y
  }

  lemma {:induction false} ForgedKeyIsUnclean(x: string, a: real, y: string)
    ensures !Clean(ForgedKey(x, a, y))
  {
    assert ForgedKey(x, a, y)[|x|] == '\"';
  }

  lemma {:induction false} ForgedText(x: string, a: string, y: string, v: string)
    ensures "\"" + (x + "\":" + a + ",\"" + y) + "\":" + v == "\"" + x + "\":" + a + "," + ("\"" + y + "\":" + v)
  {
  }

  /** A key that needs escaping can print as a valid object of other readings: with the key
      x":a,"y the text is that of the two readings x and y. */
  lemma {:induction false} ForgedReading(x: string, a: real, y: string, v: real)
    requires Clean(x) && Clean(y)
    ensures var forged := [Reading(ForgedKey(x, a, y), Finite(v))];
            var plain := [Reading(x, Finite(a)), Reading(y, Finite(v))];
            && !CleanKeys(forged)
            && PayloadJson(forged) == PayloadJson(plain)
            && ReadObject(PayloadJson(forged)) == Some(StoredReadings(plain))
  {
    var forged := Reading(ForgedKey(x, a, y), Finite(v));
    var r, q := Reading(x, Finite(a)), Reading(y, Finite(v));
    ForgedKeyIsUnclean(x, a, y);
    assert !Clean([forged][0].key);
    assert Member(forged) == Member(r) + "," + Member(q) by {
      ForgedText(x, Render(a), y, Render(v));
    }
    PrintOne(forged);
    PrintTwo(r, q);
    PrintsJson([r, q]);
  }

  lemma {:induction false} StoredAsMap(p: seq<Reading>)
    ensures AsMap(StoredReadings(p)) == map k | k in AsMap(p) :: Kept(AsMap(p)[k])
  {
    if p == [] {
    } else {
      var q := p[..|p|-1];
      StoredAsMap(q);
      assert StoredReadings(p)[..|p|-1] == StoredReadings(q);
    }
  }

  /** Whatever order the map is iterated in, the stored text means the same map: each key with
      its number rounded to six decimals. */
  lemma {:induction false} OrderDoesNotMatter(p: seq<Reading>, q: seq<Reading>)
    requires CleanKeys(p) && CleanKeys(q) && AllFinite(p) && AllFinite(q) && AsMap(p) == AsMap(q)
    ensures ReadObject(PayloadJson(p)).Some? && ReadObject(PayloadJson(q)).Some?
    ensures AsMap(ReadObject(PayloadJson(p)).value) == AsMap(ReadObject(PayloadJson(q)).value)
    ensures AsMap(ReadObject(PayloadJson(p)).value) == map k | k in AsMap(p) :: Kept(AsMap(p)[k])
  {
    PrinterInvertible(p);
    PrinterInvertible(q);
    StoredAsMap(p);
    StoredAsMap(q);
  }
}
