/**
  The order of idx_robot_timestamp: by robot name, then by time, then by insertion.  An ordered
  read of the index is a stable sort, here with its own characterisation.
 */
module Ordering {
  datatype Key = Key(name: string, time: int)

  /** Texts compare character by character; a proper prefix comes first. */
  predicate TextLess(a: string, b: string) {
    b != "" && (a == "" || a[0] < b[0] || (a[0] == b[0] && TextLess(a[1..], b[1..])))
  }

  predicate KeyLess(a: Key, b: Key) {
    TextLess(a.name, b.name) || (a.name == b.name && a.time < b.time)
  }

  lemma {:induction false} TextLessIsTotal(a: string, b: string)
    ensures TextLess(a, b) || a == b || TextLess(b, a)
    ensures !(TextLess(a, b) && (a == b || TextLess(b, a)))
  {
    if a == "" || b == "" || a[0] != b[0] {
    } else {
      TextLessIsTotal(a[1..], b[1..]);
      assert a == [a[0]] + a[1..] && b == [b[0]] + b[1..];
    }
  }

  lemma {:induction false} TextLessIsTransitive(a: string, b: string, c: string)
    requires TextLess(a, b) && TextLess(b, c)
    ensures TextLess(a, c)
  {
    if a == "" || a[0] != b[0] || b[0] != c[0] {
    } else {
      TextLessIsTransitive(a[1..], b[1..], c[1..]);
    }
  }

  /** The negation of the order is transitive: a strict weak order, as std::sort asks for. */
  lemma {:induction false} NotLessIsTransitive(a: Key, b: Key, c: Key)
    requires !KeyLess(b, a) && !KeyLess(c, b)
    ensures !KeyLess(c, a)
  {
    TextLessIsTotal(a.name, b.name);
    TextLessIsTotal(b.name, c.name);
    TextLessIsTotal(a.name, c.name);
    if TextLess(a.name, b.name) && TextLess(b.name, c.name) {
      TextLessIsTransitive(a.name, b.name, c.name);
    }
  }

  lemma {:induction false} LessIsAsymmetric(a: Key, b: Key)
    requires KeyLess(a, b)
    ensures !KeyLess(b, a)
  {
    TextLessIsTotal(a.name, b.name);
  }

  /** `x` behind the last element of `s` that is not greater. */
  function Place<T>(s: seq<T>, x: T, key: T -> Key): seq<T> {
    if s != [] && KeyLess(key(x), key(s[|s|-1])) then Place(s[..|s|-1], x, key) + [s[|s|-1]] else s + [x]
  }

  function Sort<T>(s: seq<T>, key: T -> Key): seq<T> {
    if s == [] then [] else Place(Sort(s[..|s|-1], key), s[|s|-1], key)
  }

  ghost predicate Sorted<T>(s: seq<T>, key: T -> Key) {
    forall i, j :: 0 <= i < j < |s| ==> !KeyLess(key(s[j]), key(s[i]))
  }

  /** The elements with key `k`, in their order. */
  function Having<T>(s: seq<T>, key: T -> Key, k: Key): seq<T> {
    if s == [] then []
    else Having(s[..|s|-1], key, k) + (if key(s[|s|-1]) == k then [s[|s|-1]] else [])
  }

  lemma {:induction false} PlaceKeeps<T>(s: seq<T>, x: T, key: T -> Key)
    ensures multiset(Place(s, x, key)) == multiset(s) + multiset{x}
  {
    if s != [] && KeyLess(key(x), key(s[|s|-1])) {
      PlaceKeeps(s[..|s|-1], x, key);
      assert s == s[..|s|-1] + [s[|s|-1]];
    } else {
    }
  }

  lemma {:induction false} PlaceMembers<T>(s: seq<T>, x: T, key: T -> Key, y: T)
    ensures y in Place(s, x, key) <==> y == x || y in s
  {
    PlaceKeeps(s, x, key);
    assert y in Place(s, x, key) <==> y in multiset(Place(s, x, key));
    assert y in s <==> y in multiset(s);
  }

  lemma {:induction false} SortedSnoc<T>(s: seq<T>, x: T, key: T -> Key)
    requires Sorted(s, key) && forall y :: y in s ==> !KeyLess(key(x), key(y))
    ensures Sorted(s + [x], key)
  {
  }

  lemma {:induction false} PlaceSorted<T>(s: seq<T>, x: T, key: T -> Key)
    requires Sorted(s, key)
    ensures Sorted(Place(s, x, key), key)
  {
    if s == [] {
    } else {
      var init, last := s[..|s|-1], s[|s|-1];
      if KeyLess(key(x), key(last)) {
        PlaceSorted(init, x, key);
        LessIsAsymmetric(key(x), key(last));
        forall y | y in Place(init, x, key) ensures !KeyLess(key(last), key(y)) {
          PlaceMembers(init, x, key, y);
          if y != x {
            var i :| 0 <= i < |init| && init[i] == y;
            assert s[i] == y;
          }
        }
        SortedSnoc(Place(init, x, key), last, key);
      } else {
        forall y | y in s ensures !KeyLess(key(x), key(y)) {
          TextLessIsTotal(key(y).name, key(y).name);
          NotLessIsTransitive(key(y), key(last), key(x));
        }
        SortedSnoc(s, x, key);
      }
    }
  }

  lemma {:induction false} HavingSnoc<T>(s: seq<T>, x: T, key: T -> Key, k: Key)
    ensures Having(s + [x], key, k) == Having(s, key, k) + (if key(x) == k then [x] else [])
  {
    assert (s + [x])[..|s|] == s;
  }

  lemma {:induction false} PlaceHaving<T>(s: seq<T>, x: T, key: T -> Key, k: Key)
    ensures Having(Place(s, x, key), key, k) == Having(s + [x], key, k)
  {
    HavingSnoc(s, x, key, k);
    if s != [] && KeyLess(key(x), key(s[|s|-1])) {
      var init, last := s[..|s|-1], s[|s|-1];
      PlaceHaving(init, x, key, k);
      HavingSnoc(init, x, key, k);
      HavingSnoc(Place(init, x, key), last, key, k);
      LessIsAsymmetric(key(x), key(last));
    } else {
    }
  }

  /** What makes it the stable sort: sorted, with the same elements, and elements of equal key in
      the order they had. */
  lemma {:induction false} SortIsStable<T>(s: seq<T>, key: T -> Key)
    ensures Sorted(Sort(s, key), key) && multiset(Sort(s, key)) == multiset(s)
    ensures forall k :: Having(Sort(s, key), key, k) == Having(s, key, k)
  {
    if s == [] {
    } else {
      var init, last := s[..|s|-1], s[|s|-1];
      SortIsStable(init, key);
      PlaceSorted(Sort(init, key), last, key);
      PlaceKeeps(Sort(init, key), last, key);
      assert s == init + [last];
      forall k ensures Having(Sort(s, key), key, k) == Having(s, key, k) {
        PlaceHaving(Sort(init, key), last, key, k);
        HavingSnoc(Sort(init, key), last, key, k);
        HavingSnoc(init, last, key, k);
      }
    }
  }

  lemma {:induction false} SortMembers<T>(s: seq<T>, key: T -> Key)
    ensures forall y :: y in Sort(s, key) <==> y in s
  {
    SortIsStable(s, key);
    forall y ensures y in Sort(s, key) <==> y in s {
      assert y in Sort(s, key) <==> y in multiset(Sort(s, key));
      assert y in s <==> y in multiset(s);
    }
  }
}
