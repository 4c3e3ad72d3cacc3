/** containers::ConcurrentQueue: the non-blocking bounded queue the node uses.  Each call is one
    stay under its mutex; nobody waits on its condition variable. */
module BoundedQueue {
  import opened Wrappers

  /** Contents after a push, and its answer. */
  function Offer<T>(queue: seq<T>, maxCapacity: nat, item: T): (seq<T>, bool) {
    if |queue| >= maxCapacity then (queue, false) else (queue + [item], true)
  }

  class ConcurrentQueue<T> {
    const maxCapacity: nat
    var queue: seq<T>

    constructor (maxCapacity: nat := 1000)
      ensures queue == [] && this.maxCapacity == maxCapacity
    {
      this.maxCapacity := maxCapacity;
      queue := [];
    }

    method Push(item: T) returns (pushed: bool)
      modifies this
      ensures pushed <==> old(|queue|) < maxCapacity
      ensures queue == if pushed then old(queue) + [item] else old(queue)
      ensures (queue, pushed) == Offer(old(queue), maxCapacity, item)
    {
      if |queue| >= maxCapacity {
        return false;
      }
      queue := queue + [item];
      return true;
    }

    /** The form with an output reference, which keeps its value when the queue is empty. */
    method PopInto(item: T) returns (popped: bool, item': T)
      modifies this
      ensures popped <==> old(queue) != []
      ensures old(queue) == (if popped then [item'] else []) + queue
      ensures !popped ==> item' == item
    {
      if queue == [] {
        return false, item;
      }
      item' := queue[0];
      queue := queue[1..];
      popped := true;
    }

    method Pop() returns (item: Option<T>)
      modifies this
      ensures item.Some? <==> old(queue) != []
      ensures old(queue) == (if item.Some? then [item.value] else []) + queue
    {
      if queue == [] {
        return None;
      }
      item := Some(queue[0]);
      queue := queue[1..];
    }
  }
}
