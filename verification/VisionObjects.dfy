/** The pool and the queue as objects: each of their methods does what the step of
the daemon that calls it does to the shared state. */
module VisionObjects {
  import opened FrameQueue
  import opened Wrappers
  import opened VisionPipeline
  import opened VisionRuns

  /** The objects hold what the daemon's state `s` says. */
  predicate Represents(pool: FramePool, queue: ThreadSafeQueue<nat>, c: Setup, s: State)
    reads pool.available, queue
  {
    && pool.available[..] == s.world.available
    && queue.maxSize == c.capacity && queue.queue == s.world.queue
    && queue.droppedCount == s.world.dropped && queue.done == s.done
  }

  method Create(c: Setup) returns (pool: FramePool, queue: ThreadSafeQueue<nat>)
    ensures fresh(pool) && fresh(pool.available) && fresh(queue)
    ensures Represents(pool, queue, c, Init(c))
  {
    pool := new FramePool(c.slots);
    queue := new ThreadSafeQueue<nat>(c.capacity);
  }

  // ---- The producer -------------------------------------------------------

  /** `n` steps of the producer in which no exchange fails spuriously. */
  function Search(n: nat): seq<Action> {
    seq(n, i => Produce([], false))
  }

  lemma SearchMore(c: Setup, s: State, n: nat)
    requires c.slots >= 1
    ensures Exec(c, s, Search(n + 1)) == Exec(c, Step(c, s, Produce([], false)), Search(n))
  {
    assert Search(n + 1)[1..] == Search(n);
  }

  lemma {:induction false} SearchFinds(c: Setup, s: State, i: nat, k: nat)
    requires c.slots >= 1 && Shaped(c, s.world) && PcsShaped(c, s)
    requires s.producer == Acquire(i) && i <= k < c.slots
    requires s.world.available[k] && forall j :: i <= j < k ==> !s.world.available[j]
    ensures
      Exec(c, s, Search(k - i + 1))
      == s.(world := s.world.(available := s.world.available[k := false]), producer := Paint(k))
    decreases k - i
  {
    SearchMore(c, s, k - i);
    var t := Step(c, s, Produce([], false));
    if i < k {
      SearchFinds(c, t, i + 1, k);
    } else {
      assert Search(0) == [];
    }
  }

  lemma {:induction false} SearchFails(c: Setup, s: State, i: nat)
    requires c.slots >= 1 && Shaped(c, s.world) && PcsShaped(c, s)
    requires s.producer == Acquire(i) && forall j :: i <= j < c.slots ==> !s.world.available[j]
    ensures Exec(c, s, Search(c.slots - i)) == s.(producer := Acquire(0))
    decreases c.slots - i
  {
    SearchMore(c, s, c.slots - i - 1);
    var t := Step(c, s, Produce([], false));
    if i + 1 < c.slots {
      SearchFails(c, t, i + 1);
    } else {
      assert Search(0) == [];
    }
  }

  /** A pass over the buffers does to the flags what the producer's steps do: as far as
      the first free slot, or all the way round. */
  method AcquireSlot(pool: FramePool, queue: ThreadSafeQueue<nat>, c: Setup, ghost s: State)
      returns (slot: Option<nat>)
    requires c.slots >= 1 && Shaped(c, s.world) && PcsShaped(c, s)
    requires Represents(pool, queue, c, s) && s.producer == Acquire(0)
    modifies pool.available
    ensures slot.Some? ==>
      var t := Exec(c, s, Search(slot.value + 1));
      t.producer == Paint(slot.value) && Represents(pool, queue, c, t)
    ensures slot.None? ==> Exec(c, s, Search(c.slots)) == s && Represents(pool, queue, c, s)
  {
    slot := pool.AcquirePass();
    if slot.Some? {
      forall j | 0 <= j < slot.value ensures !s.world.available[j] {
        assert s.world.available[..slot.value][j] == s.world.available[j];
      }
      SearchFinds(c, s, 0, slot.value);
    } else {
      SearchFails(c, s, 0);
    }
  }

  /** A push, with the deleter of the frame it evicts. */
  method PushSlot(pool: FramePool, queue: ThreadSafeQueue<nat>, c: Setup, ghost s: State, slot: nat)
    requires c.slots >= 1 && Shaped(c, s.world) && PcsShaped(c, s)
    requires Represents(pool, queue, c, s) && s.producer == Push(slot)
    modifies pool.available, queue
    ensures Represents(pool, queue, c, Step(c, s, Produce([], false)))
  {
    var oldest := if Full(queue.queue, queue.maxSize) then Some(queue.queue[0]) else None;
    queue.Push(slot);
    if oldest.Some? {
      pool.Release(oldest.value);
    }
  }

  // ---- The consumer and `main` --------------------------------------------

  /** A pop gives the slot that the consumer then works on, or the null item. */
  method PopSlot(pool: FramePool, queue: ThreadSafeQueue<nat>, c: Setup, ghost s: State) returns (slot: Option<nat>)
    requires c.slots >= 1 && Shaped(c, s.world) && PcsShaped(c, s)
    requires Represents(pool, queue, c, s) && s.consumer.Pop? && (s.world.queue != [] || s.done)
    modifies queue
    ensures Represents(pool, queue, c, Step(c, s, Consume))
    ensures Step(c, s, Consume).consumer == if slot.Some? then Infer(slot.value) else NullSeen
  {
    slot := queue.Pop();
  }

  /** The consumer lets go of its frame, whose deleter runs. */
  method DropSlot(pool: FramePool, queue: ThreadSafeQueue<nat>, c: Setup, ghost s: State, slot: nat)
    requires c.slots >= 1 && Shaped(c, s.world) && PcsShaped(c, s)
    requires Represents(pool, queue, c, s) && s.consumer == Drop(slot)
    modifies pool.available
    ensures Represents(pool, queue, c, Step(c, s, Consume))
  {
    pool.Release(slot);
  }

  method CloseQueue(pool: FramePool, queue: ThreadSafeQueue<nat>, c: Setup, ghost s: State)
    requires c.slots >= 1 && Shaped(c, s.world) && PcsShaped(c, s)
    requires Represents(pool, queue, c, s) && !Finished(s) && Instruction(c.order, s.main).ShutDownQueue?
    modifies queue
    ensures Represents(pool, queue, c, Step(c, s, Main))
  {
    queue.Shutdown();
  }
}
