/** The pre-allocated frame pool and the drop-oldest queue of the vision daemon. */
module FrameQueue {

  import opened Wrappers

  /** Flags of a pool of buffers, as `acquire` and `release` flip them. */
  class FramePool {
    const available: array<bool>

    constructor (size: nat)
      ensures fresh(available) && available.Length == size
      ensures forall i :: 0 <= i < size ==> available[i]
    {
      var flags := new bool[size](_ => true);
      available := flags;
    }

    /** One pass of the spin loop of `acquire`: the first free buffer, if any. */
    method AcquirePass() returns (slot: Option<nat>)
      modifies available
      ensures slot.None? ==> available[..] == old(available[..]) && true !in old(available[..])
      ensures slot.Some? ==>
        && slot.value < available.Length
        && true !in old(available[..slot.value])
        && old(available[slot.value])
        && available[..] == old(available[..])[slot.value := false]
    {
      var i := 0;
      while i < available.Length
        invariant i <= available.Length
        invariant true !in old(available[..i])
        invariant available[..] == old(available[..])
      {
        if available[i] {
          available[i] := false;
          return Some(i);
        }
        assert old(available[..i + 1]) == old(available[..i]) + [old(available[i])];
        i := i + 1;
      }
      assert old(available[..i]) == old(available[..]);
      return None;
    }

    method Release(slot: nat)
      requires slot < available.Length
      modifies available
      ensures available[..] == old(available[..])[slot := true]
    {
      available[slot] := true;
    }
  }

  /** A queue that holds at most `maxSize` items, any number when that is 0. */
  predicate Full<T>(queue: seq<T>, maxSize: nat) {
    0 < maxSize <= |queue|
  }

  /** The queue after a push: when it is full, the oldest item makes room. */
  function Pushed<T>(queue: seq<T>, maxSize: nat, item: T): seq<T> {
    (if Full(queue, maxSize) then queue[1..] else queue) + [item]
  }

  class ThreadSafeQueue<T> {
    const maxSize: nat
    var queue: seq<T>
    var done: bool
    var droppedCount: nat

    constructor (maxSize: nat)
      ensures this.maxSize == maxSize && queue == [] && !done && droppedCount == 0
    {
      this.maxSize, queue, done, droppedCount := maxSize, [], false, 0;
    }

    method Push(item: T)
      modifies this`queue, this`droppedCount
      ensures queue == Pushed(old(queue), maxSize, item)
      ensures droppedCount == old(droppedCount) + if Full(old(queue), maxSize) then 1 else 0
    {
      if maxSize > 0 && |queue| >= maxSize {
        queue := queue[1..];
        droppedCount := droppedCount + 1;
      }
      queue := queue + [item];
    }

    /** `pop` once its wait is over; `None` is the default-constructed item. */
    method Pop() returns (item: Option<T>)
      requires queue != [] || done
      modifies this`queue
      ensures old(queue) == [] ==> item == None && queue == []
      ensures old(queue) != [] ==> item == Some(old(queue)[0]) && queue == old(queue)[1..]
    {
      item := TryPop();
    }

    method TryPop() returns (item: Option<T>)
      modifies this`queue
      ensures old(queue) == [] ==> item == None && queue == []
      ensures old(queue) != [] ==> item == Some(old(queue)[0]) && queue == old(queue)[1..]
    {
      if queue == [] {
        return None;
      }
      item := Some(queue[0]);
      queue := queue[1..];
    }

    method Shutdown()
      modifies this`done
      ensures done
    {
      done := true;
    }
  }

  /** A bounded queue stays bounded, and keeps the newest items in order. */
  lemma PushedKeepsNewest<T>(queue: seq<T>, maxSize: nat, item: T)
    requires maxSize > 0 ==> |queue| <= maxSize
    ensures maxSize > 0 ==> |Pushed(queue, maxSize, item)| <= maxSize
    ensures var all := queue + [item]; Pushed(queue, maxSize, item) == all[|all| - |Pushed(queue, maxSize, item)|..]
  {
  }
}
