/**
  ConfigManager: dotted lookup in a YAML tree, compared with a flat index from paths to nodes.  A
  mapping keeps its pairs in file order and a lookup takes the first with the key, as yaml-cpp does.
 */
module Config {
  import opened Wrappers

  datatype Yaml =
    | Undefined
    | Null
    | Scalar(text: string)
    | Sequence(items: seq<Yaml>)
    | Mapping(entries: seq<Entry>)

  datatype Entry = Entry(key: string, value: Yaml)

  // ---------- Splitting a path ----------

  function FirstDot(s: string): (n: nat)
    ensures n <= |s| && (n < |s| ==> s[n] == '.') && '.' !in s[..n]
  {
    if s == "" || s[0] == '.' then 0
    else
      var n := FirstDot(s[1..]);
      assert s[..n+1] == [s[0]] + s[1..][..n];
      n + 1
  }

  /** The segments std::getline(ss, segment, '.') yields: nothing follows a trailing dot. */
  function Segments(path: string): seq<string>
    decreases |path|
  {
    if path == "" then []
    else
      var n := FirstDot(path);
      if n == |path| then [path] else [path[..n]] + Segments(path[n+1..])
  }

  /** What getline leaves in the stream. */
  function AfterSegment(s: string): (rest: string)
    requires s != ""
    ensures |rest| < |s|
  {
    var n := FirstDot(s);
    if n == |s| then "" else s[n+1..]
  }

  lemma {:induction false} NextSegment(s: string)
    requires s != ""
    ensures Segments(s) != [] && Segments(s)[0] == s[..FirstDot(s)]
    ensures Segments(s)[1..] == Segments(AfterSegment(s))
  {
    assert s[..|s|] == s;
  }

  predicate EndsInDot(s: string) {
    s != "" && s[|s|-1] == '.'
  }

  lemma {:induction false} FirstDotOf(s: string, rest: string)
    requires '.' !in s
    ensures FirstDot(s + "." + rest) == |s|
  {
    assert (s + "." + rest)[|s|] == '.';
  }

  lemma {:induction false} SegmentsCons(first: string, rest: string)
    requires '.' !in first
    ensures Segments(first + "." + rest) == [first] + Segments(rest)
  {
    var path := first + "." + rest;
    FirstDotOf(first, rest);
    assert path[..|first|] == first && path[|first|+1..] == rest;
  }

  /** A path with a dot is its first segment, the dot, and the rest. */
  lemma {:induction false} CutAtFirstDot(path: string) returns (first: string, rest: string)
    requires '.' in path
    ensures '.' !in first && path == first + "." + rest
    ensures EndsInDot(path) <==> rest == "" || EndsInDot(rest)
    ensures Segments(path) == [first] + Segments(rest)
  {
    var n := FirstDot(path);
    assert n < |path|;
    first, rest := path[..n], path[n+1..];
    assert path == first + "." + rest;
    SegmentsCons(first, rest);
  }

  lemma {:induction false} NoDot(path: string)
    requires '.' !in path
    ensures Segments(path) == if path == "" then [] else [path]
  {
    assert path[..|path|] == path;
  }

  lemma {:induction false} DotsAssociate(a: string, b: string, c: string)
    ensures a + "." + b + "." + c == a + "." + (b + "." + c)
  {
  }

  /** The empty segment that stands between two joined paths, if any. */
  function Gap(p: string): seq<string> {
    if p == "" || EndsInDot(p) then [""] else []
  }

  lemma {:induction false} HeadAssociates(x: string, a: seq<string>, b: seq<string>, c: seq<string>)
    ensures [x] + a + b + c == [x] + (a + b + c)
  {
  }

  /** Joining two paths with a dot joins their segments, with an empty segment in between exactly
      when the first path is empty or ends in a dot. */
  lemma {:induction false} SegmentsOfJoin(p: string, q: string)
    ensures Segments(p + "." + q) == Segments(p) + Gap(p) + Segments(q)
    decreases |p|
  {
    if '.' in p {
      var first, rest := CutAtFirstDot(p);
      DotsAssociate(first, rest, q);
      SegmentsCons(first, rest + "." + q);
      SegmentsOfJoin(rest, q);
      HeadAssociates(first, Segments(rest), Gap(rest), Segments(q));
    } else {
      NoDot(p);
      SegmentsCons(p, q);
    }
  }

  // ---------- Walking the tree ----------

  /** The value under a key; operator[] makes an undefined node for a missing one. */
  function Child(entries: seq<Entry>, key: string): Yaml {
    if entries == [] then Undefined
    else if entries[0].key == key then entries[0].value
    else Child(entries[1..], key)
  }

  /** Recursive descent.  Going below anything but a mapping yields a default YAML::Node, which is
      a defined null. */
  function Walk(n: Yaml, segments: seq<string>): Yaml
    decreases |segments|
  {
    if segments == [] then n
    else if !n.Mapping? then Null
    else Walk(Child(n.entries, segments[0]), segments[1..])
  }

  lemma {:induction false} WalkAppend(n: Yaml, a: seq<string>, b: seq<string>)
    ensures Walk(n, a + b) == Walk(Walk(n, a), b)
    decreases |a|
  {
    if a == [] {
      assert a + b == b;
    } else {
      assert (a + b)[1..] == a[1..] + b;
      if n.Mapping? {
        WalkAppend(Child(n.entries, a[0]), a[1..], b);
      }
    }
  }

  function Navigate(root: Yaml, path: string): Yaml {
    Walk(root, Segments(path))
  }

  // ---------- Undefined or null ----------

  predicate Present(n: Yaml) {
    !n.Undefined? && !n.Null?
  }

  /** A tree as loading gives it: no undefined node inside. */
  predicate Loaded(n: Yaml)
    decreases n, 1
  {
    !n.Undefined? && (n.Mapping? ==> LoadedEntries(n.entries))
  }

  predicate LoadedEntries(entries: seq<Entry>)
    decreases entries, 0
  {
    entries == [] || (Loaded(entries[0].value) && LoadedEntries(entries[1..]))
  }

  lemma {:induction false} ChildLoaded(entries: seq<Entry>, key: string)
    requires LoadedEntries(entries)
    ensures Child(entries, key) == Undefined || Loaded(Child(entries, key))
    ensures Child(entries, key) == Undefined <==> forall i :: 0 <= i < |entries| ==> entries[i].key != key
    decreases |entries|
  {
    if entries == [] || entries[0].key == key {
    } else {
      ChildLoaded(entries[1..], key);
      assert forall i :: 0 < i < |entries| ==> entries[i] == entries[1..][i-1];
      assert forall i :: 0 <= i < |entries| - 1 ==> entries[1..][i] == entries[i+1];
    }
  }

  /** The path leads to a mapping, and its last segment is not a key there. */
  predicate LastMissing(n: Yaml, s: seq<string>) {
    && s != []
    && var m := Walk(n, s[..|s|-1]);
       m.Mapping? && forall i :: 0 <= i < |m.entries| ==> m.entries[i].key != s[|s|-1]
  }

  lemma {:induction false} LastMissingStep(n: Yaml, s: seq<string>)
    requires n.Mapping? && |s| > 1
    ensures LastMissing(n, s) <==> LastMissing(Child(n.entries, s[0]), s[1..])
  {
    var t := s[1..];
    assert s[..|s|-1][1..] == t[..|t|-1] && s[..|s|-1][0] == s[0];
  }

  lemma {:induction false} WalkFromUndefined(s: seq<string>)
    ensures Walk(Undefined, s) == if s == [] then Undefined else Null
  {
  }

  lemma {:induction false} WalkUndefinedExactly(n: Yaml, s: seq<string>)
    requires Loaded(n)
    ensures Walk(n, s) == Undefined <==> LastMissing(n, s)
    decreases |s|
  {
    if s == [] {
    } else if !n.Mapping? {
      if |s| == 1 {
        assert s[..0] == [];
      }
    } else {
      var child := Child(n.entries, s[0]);
      ChildLoaded(n.entries, s[0]);
      if |s| == 1 {
        assert s[..0] == [];
      } else {
        LastMissingStep(n, s);
        if child == Undefined {
          WalkFromUndefined(s[1..]);
          WalkFromUndefined(s[1..][..|s|-2]);
        } else {
          WalkUndefinedExactly(child, s[1..]);
        }
      }
    }
  }

  /** A path that finds nothing gives an undefined node exactly when only its last segment is
      missing from a mapping; otherwise it gives a null. */
  lemma {:induction false} NavigateUndefinedExactly(root: Yaml, path: string)
    requires Loaded(root)
    ensures Navigate(root, path).Undefined? <==> LastMissing(root, Segments(path))
    ensures !Present(Navigate(root, path)) && !LastMissing(root, Segments(path)) ==> Navigate(root, path) == Null
  {
    WalkUndefinedExactly(root, Segments(path));
  }

  /** In an empty mapping the path a is undefined, but a.b is a defined null. */
  lemma {:induction false} MissingButDefined()
    ensures Navigate(Mapping([]), "a") == Undefined && Navigate(Mapping([]), "a.b") == Null
  {
    NoDot("a");
    NoDot("b");
    SegmentsCons("a", "b");
    assert "a" + "." + "b" == "a.b";
    assert ["a", "b"][1..] == ["b"] && ["a"] + ["b"] == ["a", "b"];
  }

  // ---------- The flat index ----------

  datatype Place = Place(path: seq<string>, node: Yaml)

  function Under(key: string, places: seq<Place>): (r: seq<Place>)
    ensures |r| == |places|
    ensures forall i :: 0 <= i < |r| ==> r[i] == Place([key] + places[i].path, places[i].node)
  {
    if places == [] then []
    else [Place([key] + places[0].path, places[0].node)] + Under(key, places[1..])
  }

  /** Without the places below `key`. */
  function Outside(key: string, places: seq<Place>): (r: seq<Place>)
    ensures forall p :: p in r <==> p in places && !([key] <= p.path)
  {
    if places == [] then []
    else (if [key] <= places[0].path then [] else [places[0]]) + Outside(key, places[1..])
  }

  /** All nodes of a tree with their paths, nulls aside.  Where a mapping repeats a key, only the
      first pair counts. */
  function Index(n: Yaml): seq<Place>
    decreases n, 1
  {
    if !Present(n) then []
    else [Place([], n)] + (if n.Mapping? then IndexEntries(n.entries) else [])
  }

  function IndexEntries(entries: seq<Entry>): seq<Place>
    decreases entries, 0
  {
    if entries == [] then []
    else
      Under(entries[0].key, Index(entries[0].value)) + Outside(entries[0].key, IndexEntries(entries[1..]))
  }

  function Find(places: seq<Place>, path: seq<string>): Option<Yaml> {
    if places == [] then None
    else if places[0].path == path then Some(places[0].node)
    else Find(places[1..], path)
  }

  lemma {:induction false} FindSound(places: seq<Place>, path: seq<string>)
    ensures match Find(places, path)
            case Some(node) => Place(path, node) in places
            case None => forall node :: Place(path, node) !in places
  {
    if places == [] || places[0].path == path {
    } else {
      FindSound(places[1..], path);
    }
  }

  lemma {:induction false} UnderHas(key: string, places: seq<Place>, s: seq<string>, node: Yaml)
    ensures Place(s, node) in Under(key, places) <==> s != [] && s[0] == key && Place(s[1..], node) in places
  {
    var r := Under(key, places);
    if Place(s, node) in r {
      var i :| 0 <= i < |r| && r[i] == Place(s, node);
      assert ([key] + places[i].path)[1..] == places[i].path;
      assert places[i] == Place(s[1..], node);
    }
    if s != [] && s[0] == key && Place(s[1..], node) in places {
      var i :| 0 <= i < |places| && places[i] == Place(s[1..], node);
      assert s == [key] + s[1..];
      assert r[i] == Place(s, node);
    }
  }

  /** The places of a mapping under a key are those of the key's value. */
  lemma {:induction false} EntriesHave(entries: seq<Entry>, s: seq<string>, node: Yaml)
    ensures Place(s, node) in IndexEntries(entries)
       <==> s != [] && Place(s[1..], node) in Index(Child(entries, s[0]))
    decreases |entries|
  {
    if entries == [] {
    } else {
      UnderHas(entries[0].key, Index(entries[0].value), s, node);
      EntriesHave(entries[1..], s, node);
    }
  }

  /** Descent and index agree on every tree. */
  lemma {:induction false} WalkIsPlace(n: Yaml, s: seq<string>, node: Yaml)
    ensures Place(s, node) in Index(n) <==> Walk(n, s) == node && Present(node)
    decreases |s|
  {
    if n.Mapping? {
      EntriesHave(n.entries, s, node);
    }
    if s == [] || !n.Mapping? {
    } else {
      WalkIsPlace(Child(n.entries, s[0]), s[1..], node);
    }
  }

  /** The lookup finds a node exactly where the index has one, for every tree and every path. */
  lemma {:induction false} NavigateIsIndexed(root: Yaml, path: string)
    ensures match Find(Index(root), Segments(path))
            case Some(node) => Navigate(root, path) == node && Present(node)
            case None => !Present(Navigate(root, path))
  {
    FindSound(Index(root), Segments(path));
    WalkIsPlace(root, Segments(path), Navigate(root, path));
    match Find(Index(root), Segments(path)) {
      case Some(node) => WalkIsPlace(root, Segments(path), node);
      case None =>
    }
  }

  // ---------- Plain keys ----------

  predicate PlainKey(key: string) {
    key != "" && '.' !in key
  }

  /** Every key is non-empty and dot-free. */
  predicate WellKeyed(n: Yaml)
    decreases n, 1
  {
    n.Mapping? ==> WellKeyedEntries(n.entries)
  }

  predicate WellKeyedEntries(entries: seq<Entry>)
    decreases entries, 0
  {
    entries == [] ||
    (PlainKey(entries[0].key) && WellKeyed(entries[0].value) && WellKeyedEntries(entries[1..]))
  }

  predicate PlainKeys(segments: seq<string>) {
    forall i :: 0 <= i < |segments| ==> PlainKey(segments[i])
  }

  lemma {:induction false} ChildWellKeyed(entries: seq<Entry>, key: string)
    requires WellKeyedEntries(entries)
    ensures WellKeyed(Child(entries, key))
    ensures Child(entries, key) != Undefined ==> PlainKey(key)
    decreases |entries|
  {
    if entries == [] || entries[0].key == key {
    } else {
      ChildWellKeyed(entries[1..], key);
    }
  }

  lemma {:induction false} WalkWellKeyed(n: Yaml, s: seq<string>)
    requires WellKeyed(n)
    ensures WellKeyed(Walk(n, s))
    ensures Present(Walk(n, s)) ==> PlainKeys(s)
    decreases |s|
  {
    if s == [] || !n.Mapping? {
    } else {
      var child := Child(n.entries, s[0]);
      ChildWellKeyed(n.entries, s[0]);
      WalkWellKeyed(child, s[1..]);
      if Present(Walk(n, s)) {
        WalkFromUndefined(s[1..]);
        assert forall i :: 0 < i < |s| ==> s[i] == s[1..][i-1];
      }
    }
  }

  lemma {:induction false} EmptySegmentFindsNothing(n: Yaml, s: seq<string>)
    requires WellKeyed(n)
    ensures !Present(Walk(n, [""] + s))
  {
    WalkWellKeyed(n, [""] + s);
    assert ([""] + s)[0] == "";
  }

  lemma {:induction false} TailAssociates(a: seq<string>, b: seq<string>, c: seq<string>)
    ensures a + b + c == a + (b + c)
  {
  }

  lemma {:induction false} NavigateJoined(root: Yaml, p: string, q: string)
    ensures Navigate(root, p + "." + q) == Walk(Navigate(root, p), Gap(p) + Segments(q))
  {
    SegmentsOfJoin(p, q);
    TailAssociates(Segments(p), Gap(p), Segments(q));
    WalkAppend(root, Segments(p), Gap(p) + Segments(q));
  }

  /** Lookup of p.q is lookup of q in the result of p, for every non-empty p without a final dot. */
  lemma {:induction false} NavigateComposes(root: Yaml, p: string, q: string)
    requires p != "" && !EndsInDot(p)
    ensures Navigate(root, p + "." + q) == Navigate(Navigate(root, p), q)
  {
    NavigateJoined(root, p, q);
    assert [] + Segments(q) == Segments(q);
  }

  /** In the other cases an empty segment stands between p and q, and `get` gives the default. */
  lemma {:induction false} NavigateOverGap(root: Yaml, p: string, q: string)
    requires WellKeyed(root) && (p == "" || EndsInDot(p))
    ensures !Present(Navigate(root, p + "." + q))
  {
    NavigateJoined(root, p, q);
    WalkWellKeyed(root, Segments(p));
    EmptySegmentFindsNothing(Navigate(root, p), Segments(q));
  }

  // ---------- Paths as strings ----------

  function Dotted(segments: seq<string>): string {
    if segments == [] then ""
    else if |segments| == 1 then segments[0]
    else segments[0] + "." + Dotted(segments[1..])
  }

  /** One trailing dot is ignored by the lookup. */
  function Strip(path: string): string {
    if |path| > 1 && EndsInDot(path) then path[..|path|-1] else path
  }

  /** Splitting inverts joining. */
  lemma {:induction false} SplitOfJoined(s: seq<string>)
    requires PlainKeys(s)
    ensures Segments(Dotted(s)) == s
    decreases |s|
  {
    if |s| == 1 {
      NoDot(s[0]);
    } else if |s| > 1 {
      SplitOfJoined(s[1..]);
      SegmentsCons(s[0], Dotted(s[1..]));
    }
  }

  lemma {:induction false} JoinedHasNoFinalDot(s: seq<string>)
    requires PlainKeys(s) && s != []
    ensures Dotted(s) != "" && !EndsInDot(Dotted(s))
    decreases |s|
  {
    if |s| == 1 {
    } else {
      JoinedHasNoFinalDot(s[1..]);
    }
  }

  lemma {:induction false} StripKeepsSegments(path: string)
    requires Strip(path) != "" && !EndsInDot(Strip(path))
    ensures Segments(path) == Segments(Strip(path))
  {
    var p := Strip(path);
    if p != path {
      assert path == p + "." + "";
      SegmentsOfJoin(p, "");
      assert Segments(p) + [] + [] == Segments(p);
    }
  }

  lemma {:induction false} StripCut(first: string, rest: string)
    requires first != "" && rest != "."
    ensures Strip(first + "." + rest) == if rest == "" then first else first + "." + Strip(rest)
  {
    var path := first + "." + rest;
    if rest == "" {
      assert path[..|path|-1] == first;
    } else if EndsInDot(rest) {
      assert path[..|path|-1] == first + "." + rest[..|rest|-1];
    }
  }

  /** Joining inverts splitting, up to one trailing dot, when no segment is empty. */
  lemma {:induction false} JoinedOfSplit(path: string)
    requires PlainKeys(Segments(path))
    ensures Dotted(Segments(path)) == Strip(path)
    decreases |path|
  {
    if '.' in path {
      var first, rest := CutAtFirstDot(path);
      var s := Segments(rest);
      assert Segments(path)[0] == first && Segments(path)[1..] == s;
      assert forall i :: 0 <= i < |s| ==> s[i] == Segments(path)[i+1];
      assert rest == "." ==> s == [""];
      JoinedOfSplit(rest);
      StripCut(first, rest);
    } else {
      NoDot(path);
    }
  }

  /** Lookup by the dotted form of a path. */
  function FindDotted(places: seq<Place>, path: string): Option<Yaml> {
    if places == [] then None
    else if Dotted(places[0].path) == path then Some(places[0].node)
    else FindDotted(places[1..], path)
  }

  lemma {:induction false} FindDottedSound(places: seq<Place>, path: string)
    ensures match FindDotted(places, path)
            case Some(node) => exists s :: Place(s, node) in places && Dotted(s) == path
            case None => forall p :: p in places ==> Dotted(p.path) != path
  {
    if places == [] {
    } else if Dotted(places[0].path) == path {
      assert Place(places[0].path, places[0].node) in places;
    } else {
      FindDottedSound(places[1..], path);
    }
  }

  lemma {:induction false} SegmentsOfDotted(s: seq<string>, path: string)
    requires PlainKeys(s) && Dotted(s) == Strip(path)
    ensures Segments(path) == s
  {
    SplitOfJoined(s);
    if s == [] {
    } else {
      JoinedHasNoFinalDot(s);
      StripKeepsSegments(path);
    }
  }

  /** In a tree of plain keys the dotted paths themselves can serve as the index. */
  lemma {:induction false} NavigateByDottedPath(root: Yaml, path: string)
    requires WellKeyed(root)
    ensures match FindDotted(Index(root), Strip(path))
            case Some(node) => Navigate(root, path) == node && Present(node)
            case None => !Present(Navigate(root, path))
  {
    FindDottedSound(Index(root), Strip(path));
    match FindDotted(Index(root), Strip(path)) {
      case Some(node) =>
        var s :| Place(s, node) in Index(root) && Dotted(s) == Strip(path);
        WalkIsPlace(root, s, node);
        WalkWellKeyed(root, s);
        SegmentsOfDotted(s, path);
      case None =>
        var node := Navigate(root, path);
        if Present(node) {
          WalkIsPlace(root, Segments(path), node);
          WalkWellKeyed(root, Segments(path));
          JoinedOfSplit(path);
          assert false;
        }
    }
  }

  // ---------- The manager ----------

  /** What opening and parsing a file can give. */
  datatype FileContents = Unopened | Malformed | Document(root: Yaml)

  class ConfigManager {
    var rootNode: Yaml
    var isLoaded: bool

    constructor ()
      ensures !isLoaded
    {
      rootNode := Null;
      isLoaded := false;
    }

    /** A failed load keeps the old tree but marks the manager as not loaded. */
    method LoadFile(file: FileContents) returns (ok: bool)
      modifies this
      ensures ok == isLoaded == file.Document?
      ensures rootNode == if file.Document? then file.root else old(rootNode)
    {
      match file {
        case Unopened =>
          isLoaded := false;
          return false;
        case Malformed =>
          isLoaded := false;
          return false;
        case Document(root) =>
          rootNode := root;
          isLoaded := true;
          return true;
      }
    }

    method NavigatePath(keyPath: string) returns (currentNode: Yaml)
      ensures currentNode == Navigate(rootNode, keyPath)
    {
      var ss := keyPath;
      currentNode := rootNode;
      while ss != ""
        invariant Navigate(rootNode, keyPath) == Walk(currentNode, Segments(ss))
        decreases |ss|
      {
        var n := FirstDot(ss);
        var segment := ss[..n];
        NextSegment(ss);
        ss := AfterSegment(ss);
        if !currentNode.Mapping? {
          return Null;
        }
        currentNode := Child(currentNode.entries, segment);
      }
    }

    /** `get` answers from the flat index: the converted node if the path is indexed and the node
        converts, the default in every other case.  `convert` is node.as<T>(). */
    method Get<T>(keyPath: string, defaultValue: T, convert: Yaml -> Option<T>) returns (value: T)
      ensures !isLoaded ==> value == defaultValue
      ensures isLoaded ==>
                value == match Find(Index(rootNode), Segments(keyPath))
                         case None => defaultValue
                         case Some(node) => if convert(node).Some? then convert(node).value else defaultValue
      ensures isLoaded && WellKeyed(rootNode) ==>
                Find(Index(rootNode), Segments(keyPath)) == FindDotted(Index(rootNode), Strip(keyPath))
    {
      NavigateIsIndexed(rootNode, keyPath);
      if WellKeyed(rootNode) {
        NavigateByDottedPath(rootNode, keyPath);
      }
      if !isLoaded {
        return defaultValue;
      }
      var node := NavigatePath(keyPath);
      if !node.Undefined? && !node.Null? {
        var converted := convert(node);
        if converted.Some? {
          return converted.value;
        }
      }
      return defaultValue;
    }
  }
}
