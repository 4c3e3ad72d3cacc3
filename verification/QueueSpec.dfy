/**
  The blocking queue of utils/concurrent_queue.hpp as a sequential object: what one
  lock-protected section does, and which single-threaded histories the queue allows.
 */
module QueueSpec {
  import opened Wrappers

  datatype Op<T> = Push(item: T) | Pop | PopFor | Shutdown

  /** Accepted/Refused: push returned true/false.  Item/Nothing: a pop's optional.  Flagged: shutdown. */
  datatype Ret<T> = Accepted | Refused | Item(item: T) | Nothing | Flagged

  /** The fields guarded by mutex_. */
  datatype Shared<T> = Shared(capacity: nat, queue: seq<T>, shutdown: bool)

  datatype Outcome<T> = MustWait | Done(ret: Ret<T>)

  /** One uninterrupted stay under mutex_: evaluate the wait predicate and, if it allows, finish.
      `expired` says that a pop_for wait reported a timeout before this evaluation. */
  function Section<T>(q: Shared<T>, op: Op<T>, expired: bool): (Shared<T>, Outcome<T>) {
    match op
    case Push(item) =>
      if !(|q.queue| < q.capacity || q.shutdown) then (q, MustWait)
      else if q.shutdown then (q, Done(Refused))
      else (q.(queue := q.queue + [item]), Done(Accepted))
    case Shutdown =>
      (q.(shutdown := true), Done(Flagged))
    case _ =>
      if !(q.queue != [] || q.shutdown) then
        (q, if op.PopFor? && expired then Done(Nothing) else MustWait)
      else if q.queue == [] then (q, Done(Nothing))
      else (q.(queue := q.queue[1..]), Done(Item(q.queue[0])))
  }

  // ---------- Histories ----------

  /** One completed operation, in the order in which the lock was held. */
  datatype Event<T> = Event(tid: nat, op: Op<T>, ret: Ret<T>)

  /** The abstract bounded queue: the effect of an operation that answered `e.ret`, or None
      when a bounded FIFO queue could not have given that answer in state `q`. */
  ghost function Next<T>(q: Shared<T>, e: Event<T>): Option<Shared<T>> {
    match (e.op, e.ret)
    case (Push(x), Accepted) =>
      if !q.shutdown && |q.queue| < q.capacity then Some(q.(queue := q.queue + [x])) else None
    case (Push(_), Refused) =>
      if q.shutdown then Some(q) else None
    case (Shutdown, Flagged) =>
      Some(q.(shutdown := true))
    case (Pop, Item(x)) =>
      if [x] <= q.queue then Some(q.(queue := q.queue[1..])) else None
    case (PopFor, Item(x)) =>
      if [x] <= q.queue then Some(q.(queue := q.queue[1..])) else None
    case (Pop, Nothing) =>
      if q.queue == [] && q.shutdown then Some(q) else None
    case (PopFor, Nothing) =>
      if q.queue == [] then Some(q) else None
    case _ => None
  }

  /** The state a history leads to from an empty queue, if the abstract queue allows it. */
  ghost function Replay<T>(capacity: nat, h: seq<Event<T>>): Option<Shared<T>> {
    if h == [] then Some(Shared(capacity, [], false))
    else
      match Replay(capacity, h[..|h|-1])
      case None => None
      case Some(q) => Next(q, h[|h|-1])
  }

  function PushedBy<T>(e: Event<T>): seq<T> {
    if e.op.Push? && e.ret.Accepted? then [e.op.item] else []
  }

  function PoppedBy<T>(e: Event<T>): seq<T> {
    if e.ret.Item? then [e.ret.item] else []
  }

  /** Items of the pushes that answered true, in lock order. */
  function Pushed<T>(h: seq<Event<T>>): seq<T> {
    if h == [] then [] else Pushed(h[..|h|-1]) + PushedBy(h[|h|-1])
  }

  /** Items answered by pop and pop_for, in lock order. */
  function Popped<T>(h: seq<Event<T>>): seq<T> {
    if h == [] then [] else Popped(h[..|h|-1]) + PoppedBy(h[|h|-1])
  }

  ghost predicate HasShutdown<T>(h: seq<Event<T>>) {
    exists i :: 0 <= i < |h| && h[i].ret.Flagged?
  }

  /** A section that finishes is a move of the abstract queue; one that must wait changes nothing. */
  lemma {:induction false} SectionExplained<T>(q: Shared<T>, tid: nat, op: Op<T>, expired: bool)
    ensures var (q', out) := Section(q, op, expired);
            match out
            case Done(ret) => Next(q, Event(tid, op, ret)) == Some(q')
            case MustWait => q' == q
  {
  }

  lemma {:induction false} ReplayPrefix<T>(capacity: nat, h: seq<Event<T>>, i: nat)
    requires Replay(capacity, h).Some? && i <= |h|
    ensures Replay(capacity, h[..i]).Some?
    decreases |h|
  {
    if i < |h| {
      ReplayPrefix(capacity, h[..|h|-1], i);
      assert h[..|h|-1][..i] == h[..i];
    } else {
      assert h[..i] == h;
    }
  }

  lemma {:induction false} FifoStep<T>(p: Shared<T>, e: Event<T>, q: Shared<T>, pushed: seq<T>, popped: seq<T>)
    requires Next(p, e) == Some(q) && |p.queue| <= p.capacity && pushed == popped + p.queue
    ensures pushed + PushedBy(e) == popped + PoppedBy(e) + q.queue
    ensures |q.queue| <= p.capacity == q.capacity
    ensures q.shutdown <==> p.shutdown || e.ret.Flagged?
  {
    if e.ret.Item? {
      assert p.queue == [e.ret.item] + q.queue;
    }
  }

  /** Bounded FIFO: what went in is what came out followed by what is still there, in order. */
  lemma {:induction false} Fifo<T>(capacity: nat, h: seq<Event<T>>)
    requires Replay(capacity, h).Some?
    ensures var q := Replay(capacity, h).value;
            && Pushed(h) == Popped(h) + q.queue
            && |q.queue| <= capacity == q.capacity
            && (q.shutdown <==> HasShutdown(h))
    decreases |h|
  {
    if h == [] {
    } else {
      var g := h[..|h|-1];
      Fifo(capacity, g);
      HasShutdownSnoc(h);
      FifoStep(Replay(capacity, g).value, h[|h|-1], Replay(capacity, h).value, Pushed(g), Popped(g));
    }
  }

  lemma {:induction false} HasShutdownSnoc<T>(h: seq<Event<T>>)
    requires h != []
    ensures HasShutdown(h) <==> HasShutdown(h[..|h|-1]) || h[|h|-1].ret.Flagged?
  {
    var g := h[..|h|-1];
    if HasShutdown(h) {
      var i :| 0 <= i < |h| && h[i].ret.Flagged?;
      assert i < |g| ==> g[i] == h[i];
    }
    if HasShutdown(g) {
      var i :| 0 <= i < |g| && g[i].ret.Flagged?;
      assert h[i] == g[i];
    }
  }

  lemma {:induction false} PrefixMonotone<T>(h: seq<Event<T>>, i: nat)
    requires i <= |h|
    ensures Pushed(h[..i]) <= Pushed(h) && Popped(h[..i]) <= Popped(h)
    decreases |h|
  {
    if i < |h| {
      assert h[..|h|-1][..i] == h[..i];
      PrefixMonotone(h[..|h|-1], i);
    } else {
      assert h[..i] == h;
    }
  }

  /** No push is accepted after the shutdown flag is set. */
  lemma {:induction false} ClosedAfterFlag<T>(capacity: nat, h: seq<Event<T>>, i: nat)
    requires Replay(capacity, h).Some? && i <= |h| && HasShutdown(h[..i])
    ensures Pushed(h) == Pushed(h[..i])
    ensures forall j :: i <= j < |h| ==> !h[j].ret.Accepted?
    decreases |h|
  {
    var g := h[..|h|-1];
    if i < |h| {
      assert g[..i] == h[..i];
      ClosedAfterFlag(capacity, g, i);
      var k :| 0 <= k < i && h[..i][k].ret.Flagged?;
      assert g[k] == h[..i][k];
      Fifo(capacity, g);
      forall j | i <= j < |h| ensures !h[j].ret.Accepted? {
        assert j < |g| ==> h[j] == g[j];
      }
    } else {
      assert h[..i] == h;
    }
  }

  /** Draining: after the flag, pops deliver exactly the leftover items, in order and nothing else. */
  lemma {:induction false} Draining<T>(capacity: nat, h: seq<Event<T>>, i: nat)
    requires Replay(capacity, h).Some? && i <= |h| && HasShutdown(h[..i])
    ensures Replay(capacity, h[..i]).Some?
    ensures Popped(h) + Replay(capacity, h).value.queue == Popped(h[..i]) + Replay(capacity, h[..i]).value.queue
  {
    ReplayPrefix(capacity, h, i);
    Fifo(capacity, h);
    Fifo(capacity, h[..i]);
    ClosedAfterFlag(capacity, h, i);
  }

  /** A pop or pop_for that answers nullopt did so on an empty queue. */
  lemma {:induction false} NothingMeansEmpty<T>(capacity: nat, h: seq<Event<T>>, i: nat)
    requires Replay(capacity, h).Some? && i < |h| && h[i].ret.Nothing?
    ensures Popped(h[..i]) == Pushed(h[..i])
  {
    ReplayPrefix(capacity, h, i + 1);
    assert h[..i+1][..i] == h[..i];
    Fifo(capacity, h[..i]);
  }

  /** An untimed pop answers nullopt only after shutdown and when everything accepted was
      delivered; no operation after it accepts or delivers anything. */
  lemma {:induction false} NothingIsFinal<T>(capacity: nat, h: seq<Event<T>>, i: nat)
    requires Replay(capacity, h).Some? && i < |h| && h[i].op.Pop? && h[i].ret.Nothing?
    ensures HasShutdown(h[..i])
    ensures Popped(h[..i]) == Pushed(h[..i]) == Pushed(h) == Popped(h)
  {
    ReplayPrefix(capacity, h, i + 1);
    assert h[..i+1][..i] == h[..i];
    Fifo(capacity, h[..i]);
    ClosedAfterFlag(capacity, h, i);
    Fifo(capacity, h);
    PrefixMonotone(h, i);
  }
}
