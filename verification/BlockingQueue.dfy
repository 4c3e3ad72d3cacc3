/**
  utils::ConcurrentQueue, one method per stay under mutex_.  A wait on a condition variable
  ends such a stay (MustWait) and a later wakeup begins the next one; QueueProtocol.dfy
  interleaves these stays with the notifications that happen outside the lock.
 */
module BlockingQueue {
  import opened QueueSpec
  import opened Wrappers

  /** A finished stay is a move that the abstract bounded queue allows; a waiting one changes nothing. */
  ghost predicate Explained<T>(before: Shared<T>, op: Op<T>, out: Outcome<T>, after: Shared<T>) {
    match out
    case Done(ret) => Next(before, Event(0, op, ret)) == Some(after)
    case MustWait => after == before
  }

  function Delivered<T>(out: Outcome<T>): seq<T> {
    if out.Done? && out.ret.Item? then [out.ret.item] else []
  }

  class ConcurrentQueue<T> {
    const maxCapacity: nat
    var queue: seq<T>
    var shutdownRequested: bool

    function View(): Shared<T>
      reads this
    {
      Shared(maxCapacity, queue, shutdownRequested)
    }

    constructor (maxCapacity: nat)
      ensures View() == Shared(maxCapacity, [], false)
    {
      this.maxCapacity := maxCapacity;
      queue := [];
      shutdownRequested := false;
    }

    method PushSection(item: T) returns (out: Outcome<T>)
      modifies this
      ensures (View(), out) == Section(old(View()), Push(item), false)
      ensures Explained(old(View()), Push(item), out, View())
      ensures out == MustWait <==> |old(queue)| >= maxCapacity && !old(shutdownRequested)
      ensures out == Done(Refused) <==> old(shutdownRequested)
      ensures queue == if out == Done(Accepted) then old(queue) + [item] else old(queue)
    {
      if !(|queue| < maxCapacity || shutdownRequested) {
        return MustWait;
      }
      if shutdownRequested {
        return Done(Refused);
      }
      queue := queue + [item];
      return Done(Accepted);
    }

    method PopSection() returns (out: Outcome<T>)
      modifies this
      ensures (View(), out) == Section(old(View()), Pop, false)
      ensures Explained(old(View()), Pop, out, View())
      ensures out == MustWait <==> old(queue) == [] && !old(shutdownRequested)
      ensures out == Done(Nothing) <==> old(queue) == [] && old(shutdownRequested)
      ensures old(queue) == Delivered(out) + queue
    {
      if !(queue != [] || shutdownRequested) {
        return MustWait;
      }
      if queue == [] && shutdownRequested {
        return Done(Nothing);
      }
      var item := queue[0];
      queue := queue[1..];
      return Done(Item(item));
    }

    /** `expired`: the timed wait before this stay reported a timeout. */
    method PopForSection(expired: bool) returns (out: Outcome<T>)
      modifies this
      ensures (View(), out) == Section(old(View()), PopFor, expired)
      ensures Explained(old(View()), PopFor, out, View())
      ensures out == MustWait <==> old(queue) == [] && !old(shutdownRequested) && !expired
      ensures out == Done(Nothing) <==> old(queue) == [] && (old(shutdownRequested) || expired)
      ensures old(queue) == Delivered(out) + queue
    {
      var acquired := queue != [] || shutdownRequested;
      if !acquired && !expired {
        return MustWait;
      }
      if !acquired || (queue == [] && shutdownRequested) {
        return Done(Nothing);
      }
      var item := queue[0];
      queue := queue[1..];
      return Done(Item(item));
    }

    method ShutdownSection() returns (out: Outcome<T>)
      modifies this
      ensures (View(), out) == Section(old(View()), Shutdown, false)
      ensures Explained(old(View()), Shutdown, out, View())
      ensures shutdownRequested && queue == old(queue)
    {
      shutdownRequested := true;
      return Done(Flagged);
    }
  }
}
