/** Sums of a weight over the threads of a finite thread table. */
module Tally {
  type Tid = nat

  ghost function Sum<P>(m: map<Tid, P>, w: P -> nat): nat
    decreases m.Keys
  {
    if m.Keys == {} then 0
    else
      var t :| t in m;
      w(m[t]) + Sum(m - {t}, w)
  }

  /** The order in which the threads are visited does not matter. */
  lemma {:induction false} SumRemove<P>(m: map<Tid, P>, t: Tid, w: P -> nat)
    requires t in m
    ensures Sum(m, w) == w(m[t]) + Sum(m - {t}, w)
    decreases m.Keys
  {
    var u :| u in m && Sum(m, w) == w(m[u]) + Sum(m - {u}, w);
    if u != t {
      SumRemove(m - {u}, t, w);
      SumRemove(m - {t}, u, w);
      assert m - {u} - {t} == m - {t} - {u};
    }
  }

  /** Changing or adding one thread moves the sum by the change of its weight. */
  lemma {:induction false} SumUpdate<P>(m: map<Tid, P>, t: Tid, p: P, w: P -> nat)
    ensures Sum(m[t := p], w) + (if t in m then w(m[t]) else 0) == Sum(m, w) + w(p)
  {
    SumRemove(m[t := p], t, w);
    assert m[t := p] - {t} == m - {t};
    if t in m {
      SumRemove(m, t, w);
    } else {
      assert m - {t} == m;
    }
  }

  /** Lowering weights pointwise does not raise the sum. */
  lemma {:induction false} SumMonotone<P>(m: map<Tid, P>, n: map<Tid, P>, w: P -> nat)
    requires m.Keys == n.Keys
    requires forall t :: t in m ==> w(n[t]) <= w(m[t])
    ensures Sum(n, w) <= Sum(m, w)
    decreases m.Keys
  {
    if m.Keys == {} {
    } else {
      var t :| t in m;
      SumRemove(m, t, w);
      SumRemove(n, t, w);
      SumMonotone(m - {t}, n - {t}, w);
    }
  }

  /** The sum is zero exactly when every weight is. */
  lemma {:induction false} SumZero<P>(m: map<Tid, P>, w: P -> nat)
    ensures Sum(m, w) == 0 <==> forall t :: t in m ==> w(m[t]) == 0
    decreases m.Keys
  {
    if m.Keys == {} {
    } else {
      var t :| t in m;
      SumRemove(m, t, w);
      SumZero(m - {t}, w);
      if forall u :: u in m - {t} ==> w((m - {t})[u]) == 0 {
        assert forall u :: u in m && u != t ==> u in m - {t} && m[u] == (m - {t})[u];
      }
    }
  }
}
