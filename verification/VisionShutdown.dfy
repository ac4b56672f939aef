/** Can the vision daemon always be shut down?  With the stop order of `main`,
always; with the opposite order, only if the queue is too small for the pool. */
module VisionShutdown {
  import opened Wrappers
  import opened VisionPipeline
  import opened VisionSafety
  import opened VisionRuns

  ghost predicate CanFinish(c: Setup, s: State)
    requires c.slots >= 1
  {
    exists acts :: Finished(Exec(c, s, acts))
  }

  /** From every state a run can reach, some schedule ends the program. */
  ghost predicate AlwaysStoppable(c: Setup)
    requires c.slots >= 1
  {
    forall acts :: CanFinish(c, Run(c, acts))
  }

  lemma CanFinishAfter(c: Setup, s: State, a: Action)
    requires c.slots >= 1 && CanFinish(c, Step(c, s, a))
    ensures CanFinish(c, s)
  {
    var acts :| Finished(Exec(c, Step(c, s, a), acts));
    assert ([a] + acts)[1..] == acts;
    assert Exec(c, s, [a] + acts) == Exec(c, Step(c, s, a), acts);
  }

  // ---- Progress -----------------------------------------------------------

  ghost predicate FreeFrom(available: seq<bool>, i: nat) {
    exists j :: i <= j < |available| && available[j]
  }

  /** How far a producer that has been told to stop is from its exit. */
  ghost function ProducerRank(c: Setup, available: seq<bool>, p: ProducerPc): nat
    requires p.Acquire? ==> p.i < c.slots
  {
    match p
    case Unborn => 0
    case Exited => 0
    case Test => 1
    case Sleep(_) => 2
    case CountUp => 3
    case Push(_) => 4
    case Paint(_) => 5
    case Acquire(i) => 6 + (if FreeFrom(available, i) then c.slots - i else 2 * c.slots - i)
  }

  /** How far the consumer is from having drained the queue. */
  function ConsumerRank(queue: seq<nat>, q: ConsumerPc): nat {
    6 * |queue| +
    match q
    case Gone => 0
    case NullSeen => 1
    case Pop => 2
    case Drop(_) => 3
    case Bookkeep(_) => 4
    case Infer(_) => 5
    case Unstarted => 6
  }

  ghost function ProducerLeft(c: Setup, s: State): nat
    requires PcsShaped(c, s)
  {
    ProducerRank(c, s.world.available, s.producer)
  }

  function ConsumerLeft(s: State): nat {
    ConsumerRank(s.world.queue, s.consumer)
  }

  lemma AcquireProgress(c: Setup, available: seq<bool>, i: nat)
    requires i < c.slots == |available| && FreeFrom(available, 0) && !available[i]
    ensures
      var next := Acquire(if i + 1 < c.slots then i + 1 else 0);
      ProducerRank(c, available, next) < ProducerRank(c, available, Acquire(i))
  {
  }

  lemma ProducerProgress(c: Setup, s: State, a: Action)
    requires c.slots >= 1 && Sound(c, s) && a.Produce? && !a.spurious
    requires !s.producing && !s.producer.Unborn? && !s.producer.Exited?
    requires s.producer.Acquire? ==> FreeFrom(s.world.available, 0)
    ensures
      var t := Step(c, s, a);
      && t.main == s.main && PcsShaped(c, t)
      && ProducerLeft(c, t) < ProducerLeft(c, s)
  {
    if s.producer.Acquire? && !s.world.available[s.producer.i] {
      AcquireProgress(c, s.world.available, s.producer.i);
    }
  }

  lemma FreeingHelps(c: Setup, available: seq<bool>, slot: nat, p: ProducerPc)
    requires slot < |available| == c.slots && (p.Acquire? ==> p.i < c.slots)
    ensures ProducerRank(c, available[slot := true], p) <= ProducerRank(c, available, p)
  {
    if p.Acquire? && FreeFrom(available, p.i) {
      var j :| p.i <= j < |available| && available[j];
      assert available[slot := true][j];
    }
  }

  lemma ConsumerProgress(c: Setup, s: State)
    requires c.slots >= 1 && Sound(c, s)
    requires !s.consumer.Unstarted? && !s.consumer.Gone?
    requires s.consumer.Pop? || s.consumer.NullSeen? ==> s.done || s.world.queue != []
    ensures
      var t := Step(c, s, Consume);
      && t.main == s.main && PcsShaped(c, t)
      && ProducerLeft(c, t) <= ProducerLeft(c, s) && ConsumerLeft(t) < ConsumerLeft(s)
  {
    if s.consumer.Drop? {
      FreeingHelps(c, s.world.available, s.consumer.slot, s.producer);
    }
  }

  /** When no slot is free and no thread holds one, they are all queued. */
  lemma AllQueued(available: seq<bool>, queue: seq<nat>)
    requires Owned(available, queue, None, None) && !FreeFrom(available, 0)
    ensures |queue| >= |available|
  {
    BelowHas(|available|);
    ElementsOf(queue);
    SubsetCount(Below(|available|), Elements(queue));
  }

  /** The next useful step: `main` if it can move, else whom it waits for, or
      whom that thread waits for. */
  function Useful(c: Setup, s: State): Action
    requires !Finished(s)
  {
    var instr := Instruction(c.order, s.main);
    if !Waiting(instr, s) then Main
    else if instr.JoinConsumer? then Consume
    else if s.producer.Acquire? && true !in s.world.available then Consume
    else Produce([], false)
  }

  /** `t` is nearer to the end than `s`: `main` got on, or the producer did, or the
      consumer did while the producer lost no ground. */
  ghost predicate Nearer(c: Setup, t: State, s: State) {
    && PcsShaped(c, s) && PcsShaped(c, t)
    && (|| t.main > s.main
        || (t.main == s.main && ProducerLeft(c, t) < ProducerLeft(c, s))
        || (t.main == s.main && ProducerLeft(c, t) <= ProducerLeft(c, s) && ConsumerLeft(t) < ConsumerLeft(s)))
  }

  lemma MainGetsOn(c: Setup, s: State)
    requires c.slots >= 1 && Sound(c, s) && !Finished(s) && !Waiting(Instruction(c.order, s.main), s)
    ensures Nearer(c, Step(c, s, Main), s)
  {
    var t := Step(c, s, Main);
    assert t.main == s.main + 1;
    StepIsSound(c, s, Main);
  }

  /** `main` waits for the consumer, or for a producer that waits for a slot. */
  lemma ConsumerGetsOn(c: Setup, s: State)
    requires c.slots >= 1 && Sound(c, s) && !Finished(s) && Waiting(Instruction(c.order, s.main), s)
    requires c.order.ProducerFirst? || !Roomy(c)
    requires Instruction(c.order, s.main).JoinProducer? ==> s.producer.Acquire? && true !in s.world.available
    ensures Nearer(c, Step(c, s, Consume), s)
  {
    if Instruction(c.order, s.main).JoinProducer? && ConsumerSlot(s) == None {
      AllQueued(s.world.available, s.world.queue);
    }
    ConsumerProgress(c, s);
  }

  lemma ProducerGetsOn(c: Setup, s: State)
    requires c.slots >= 1 && Sound(c, s) && !Finished(s) && Waiting(Instruction(c.order, s.main), s)
    requires Instruction(c.order, s.main).JoinProducer? && (s.producer.Acquire? ==> true in s.world.available)
    ensures Nearer(c, Step(c, s, Produce([], false)), s)
  {
    if s.producer.Acquire? {
      assert FreeFrom(s.world.available, 0);
    }
    ProducerProgress(c, s, Produce([], false));
  }

  lemma UsefulDecreases(c: Setup, s: State)
    requires c.slots >= 1 && Sound(c, s) && !Finished(s)
    requires c.order.ProducerFirst? || !Roomy(c)
    ensures Nearer(c, Step(c, s, Useful(c, s)), s)
  {
    match Useful(c, s)
    case Main => MainGetsOn(c, s);
    case Consume => ConsumerGetsOn(c, s);
    case Produce(_, _) => ProducerGetsOn(c, s);
  }

  lemma {:induction false} Stoppable(c: Setup, s: State)
    requires c.slots >= 1 && Sound(c, s)
    requires c.order.ProducerFirst? || !Roomy(c)
    ensures CanFinish(c, s)
    decreases 8 - s.main, ProducerLeft(c, s), ConsumerLeft(s)
  {
    if Finished(s) {
      assert Finished(Exec(c, s, []));
    } else {
      UsefulDecreases(c, s);
      StepIsSound(c, s, Useful(c, s));
      Stoppable(c, Step(c, s, Useful(c, s)));
      CanFinishAfter(c, s, Useful(c, s));
    }
  }
}
