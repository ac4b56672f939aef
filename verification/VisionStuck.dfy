/** Runs that go wrong: a queue smaller than the pool loses frames, and stopping
the consumer before the producer can leave frames in the queue, or leave the
program hanging for ever. */
module VisionStuck {
  import opened VisionPipeline
  import opened VisionSafety
  import opened VisionRuns
  import opened VisionShutdown

  ghost predicate Reachable(c: Setup, s: State)
    requires c.slots >= 1
  {
    exists acts :: Run(c, acts) == s
  }

  lemma ReachStep(c: Setup, s: State, a: Action) returns (t: State)
    requires c.slots >= 1 && Reachable(c, s)
    ensures t == Step(c, s, a) && Reachable(c, t)
  {
    t := Step(c, s, a);
    var acts :| Run(c, acts) == s;
    ExecAppend(c, Init(c), acts, [a]);
    assert [a][1..] == [];
    assert Exec(c, s, [a]) == t;
    assert Run(c, acts + [a]) == t;
  }

  /** `main` is at `m` and the consumer at `q`, the producer is running at `p`,
      the slots from `free` up are available and `queued` of the others queued. */
  predicate At(c: Setup, s: State, p: ProducerPc, free: nat, queued: nat, m: nat, q: ConsumerPc) {
    && s.producer == p && s.main == m && s.consumer == q && s.producing
    && Shaped(c, s.world) && PcsShaped(c, s) && |s.world.queue| == queued && s.world.dropped == 0
    && forall i :: 0 <= i < |s.world.available| ==> (s.world.available[i] <==> i >= free)
  }

  lemma {:induction false} Spin(c: Setup, s: State, i: nat, k: nat, m: nat, q: ConsumerPc) returns (t: State)
    requires c.slots >= 1 && Reachable(c, s)
    requires i <= k < c.slots && At(c, s, Acquire(i), k, k, m, q)
    ensures Reachable(c, t) && At(c, t, Acquire(k), k, k, m, q)
    decreases k - i
  {
    t := s;
    if i < k {
      t := ReachStep(c, s, Produce([], false));
      t := Spin(c, t, i + 1, k, m, q);
    }
  }

  /** One step of the producer when nobody else moves. */
  lemma TurnSearch(c: Setup, s: State, p: ProducerPc, k: nat, m: nat, q: ConsumerPc) returns (t: State)
    requires c.slots >= 1 && Reachable(c, s) && k < c.slots && At(c, s, p, k, k, m, q)
    requires p.Test? || p == Acquire(k)
    ensures Reachable(c, t)
    ensures p.Test? ==> At(c, t, Acquire(0), k, k, m, q)
    ensures p.Acquire? ==> At(c, t, Paint(k), k + 1, k, m, q)
  {
    t := ReachStep(c, s, Produce([], false));
  }

  lemma TurnPaint(c: Setup, s: State, k: nat, m: nat, q: ConsumerPc) returns (t: State)
    requires c.slots >= 1 && Reachable(c, s) && At(c, s, Paint(k), k + 1, k, m, q)
    ensures Reachable(c, t) && At(c, t, Push(k), k + 1, k, m, q)
  {
    t := ReachStep(c, s, Produce([], false));
  }

  lemma TurnPush(c: Setup, s: State, k: nat, m: nat, q: ConsumerPc) returns (t: State)
    requires c.slots >= 1 && Reachable(c, s) && At(c, s, Push(k), k + 1, k, m, q)
    requires c.capacity == 0 || k < c.capacity
    ensures Reachable(c, t) && At(c, t, CountUp, k + 1, k + 1, m, q)
  {
    t := ReachStep(c, s, Produce([], false));
  }

  lemma TurnRest(c: Setup, s: State, p: ProducerPc, k: nat, m: nat, q: ConsumerPc) returns (t: State)
    requires c.slots >= 1 && Reachable(c, s) && At(c, s, p, k, k, m, q)
    requires p.CountUp? || p.Sleep?
    ensures Reachable(c, t)
    ensures p.CountUp? ==> At(c, t, Sleep(c.sleepChunks), k, k, m, q)
    ensures p.Sleep? ==> At(c, t, if p.chunks > 0 then Sleep(p.chunks - 1) else Test, k, k, m, q)
  {
    t := ReachStep(c, s, Produce([], false));
  }

  lemma {:induction false} SleepOut(c: Setup, s: State, n: nat, k: nat, m: nat, q: ConsumerPc) returns (t: State)
    requires c.slots >= 1 && Reachable(c, s)
    requires At(c, s, Sleep(n), k, k, m, q)
    ensures Reachable(c, t) && At(c, t, Test, k, k, m, q)
    decreases n
  {
    t := TurnRest(c, s, Sleep(n), k, m, q);
    if n > 0 {
      t := SleepOut(c, t, n - 1, k, m, q);
    }
  }

  /** One round of the producer up to its push, with no help from the others. */
  lemma PaintOne(c: Setup, s: State, k: nat, m: nat, q: ConsumerPc) returns (t: State)
    requires c.slots >= 1 && Reachable(c, s)
    requires k < c.slots && At(c, s, Test, k, k, m, q)
    ensures Reachable(c, t) && At(c, t, Push(k), k + 1, k, m, q)
  {
    t := TurnSearch(c, s, Test, k, m, q);
    t := Spin(c, t, 0, k, m, q);
    t := TurnSearch(c, t, Acquire(k), k, m, q);
    t := TurnPaint(c, t, k, m, q);
  }

  lemma FillOne(c: Setup, s: State, k: nat, m: nat, q: ConsumerPc) returns (t: State)
    requires c.slots >= 1 && Reachable(c, s)
    requires k < c.slots && At(c, s, Test, k, k, m, q) && (c.capacity == 0 || k < c.capacity)
    ensures Reachable(c, t) && At(c, t, Test, k + 1, k + 1, m, q)
  {
    t := PaintOne(c, s, k, m, q);
    t := TurnPush(c, t, k, m, q);
    t := TurnRest(c, t, CountUp, k + 1, m, q);
    t := SleepOut(c, t, c.sleepChunks, k + 1, m, q);
  }

  lemma {:induction false} Fill(c: Setup, s: State, k: nat, goal: nat, m: nat, q: ConsumerPc) returns (t: State)
    requires c.slots >= 1 && Reachable(c, s)
    requires At(c, s, Test, k, k, m, q) && k <= goal <= c.slots && (c.capacity == 0 || goal <= c.capacity)
    ensures Reachable(c, t) && At(c, t, Test, goal, goal, m, q)
    decreases goal - k
  {
    t := s;
    if k < goal {
      t := FillOne(c, s, k, m, q);
      t := Fill(c, t, k + 1, goal, m, q);
    }
  }

  // ---- Losing frames ------------------------------------------------------

  lemma Begin(c: Setup) returns (t: State)
    requires c.slots >= 1
    ensures Reachable(c, t) && At(c, t, Test, 0, 0, 1, Unstarted)
  {
    assert Run(c, []) == Init(c);
    t := ReachStep(c, Init(c), Main);
  }

  /** No run drops a frame exactly when the queue can hold the whole pool. */
  lemma NeverDropsIffRoomy(c: Setup)
    requires c.slots >= 1
    ensures (forall acts :: Run(c, acts).world.dropped == 0) <==> Roomy(c)
  {
    if Roomy(c) {
      forall acts ensures Run(c, acts).world.dropped == 0 {
        RunIsSound(c, acts);
      }
    } else {
      var s := Begin(c);
      s := Fill(c, s, 0, c.capacity, 1, Unstarted);
      s := PaintOne(c, s, c.capacity, 1, Unstarted);
      s := ReachStep(c, s, Produce([], false));
      var acts :| Run(c, acts) == s;
    }
  }

  /** Every frame produced was processed or dropped. */
  predicate NoneLeft(s: State) {
    s.produced == s.processed + s.world.dropped
  }

  /** With one frame queued and the consumer gone, the program ends. */
  lemma EndsWithOneQueued(c: Setup, s: State) returns (t: State)
    requires c.slots >= 1 && c.order.ConsumerFirst? && Reachable(c, s)
    requires At(c, s, Test, 1, 1, 6, Gone)
    ensures Reachable(c, t) && Finished(t) && |t.world.queue| == 1
  {
    t := ReachStep(c, s, Main);
    t := ReachStep(c, t, Produce([], false));
    t := ReachStep(c, t, Main);
  }

  /** Every run that ends has processed or dropped every frame exactly when `main`
      stops the producer first. */
  lemma NoneLeftIff(c: Setup)
    requires c.slots >= 1
    ensures (forall acts :: Finished(Run(c, acts)) ==> NoneLeft(Run(c, acts))) <==> c.order.ProducerFirst?
  {
    if c.order.ProducerFirst? {
      forall acts ensures Finished(Run(c, acts)) ==> NoneLeft(Run(c, acts)) {
        if Finished(Run(c, acts)) {
          CleanShutdown(c, acts);
        }
      }
    } else {
      var s := StopConsumerEarly(c);
      s := FillOne(c, s, 0, 6, Gone);
      s := EndsWithOneQueued(c, s);
      var acts :| Run(c, acts) == s;
      LossyShutdown(c, acts);
    }
  }

  // ---- Hanging ------------------------------------------------------------

  /** The consumer is gone, no slot is free and the producer spins for one
      while `main` waits for it. */
  predicate Stuck(c: Setup, s: State) {
    && c.order.ConsumerFirst? && s.main == 7
    && s.consumer.Gone? && s.producer.Acquire? && true !in s.world.available
  }

  lemma {:induction false} StuckForever(c: Setup, s: State, acts: seq<Action>)
    requires c.slots >= 1 && Stuck(c, s)
    ensures !Finished(Exec(c, s, acts))
    decreases |acts|
  {
    if acts != [] {
      StuckForever(c, Step(c, s, acts[0]), acts[1..]);
    }
  }

  /** One step of `main` while it stops an idle consumer. */
  lemma MainTurn(c: Setup, s: State, m: nat, q: ConsumerPc) returns (t: State)
    requires c.slots >= 1 && c.order.ConsumerFirst? && Reachable(c, s)
    requires At(c, s, Test, 0, 0, m, q) && 1 <= m <= 5 && (m == 5 ==> q.Gone?)
    ensures Reachable(c, t) && At(c, t, Test, 0, 0, m + 1, if m == 1 then Pop else q)
  {
    t := ReachStep(c, s, Main);
  }

  lemma ConsumerTurn(c: Setup, s: State, q: ConsumerPc) returns (t: State)
    requires c.slots >= 1 && c.order.ConsumerFirst? && Reachable(c, s)
    requires At(c, s, Test, 0, 0, 5, q) && (q.Pop? || q.NullSeen?)
    ensures Reachable(c, t) && At(c, t, Test, 0, 0, 5, if q.Pop? then NullSeen else Gone)
  {
    var acts :| Run(c, acts) == s;
    RunIsSound(c, acts);
    t := ReachStep(c, s, Consume);
  }

  /** The consumer is stopped while the queue is still empty. */
  lemma StopConsumerEarly(c: Setup) returns (t: State)
    requires c.slots >= 1 && c.order.ConsumerFirst?
    ensures Reachable(c, t) && At(c, t, Test, 0, 0, 6, Gone)
  {
    t := Begin(c);
    t := MainTurn(c, t, 1, Unstarted);
    t := MainTurn(c, t, 2, Pop);
    t := MainTurn(c, t, 3, Pop);
    t := MainTurn(c, t, 4, Pop);
    t := ConsumerTurn(c, t, Pop);
    t := ConsumerTurn(c, t, NullSeen);
    t := MainTurn(c, t, 5, Gone);
  }

  /** With every slot queued, the producer starts to spin and is told to stop. */
  lemma SpinForNothing(c: Setup, s: State) returns (t: State)
    requires c.slots >= 1 && c.order.ConsumerFirst? && Reachable(c, s)
    requires At(c, s, Test, c.slots, c.slots, 6, Gone)
    ensures Reachable(c, t) && At(c, t, Acquire(0), c.slots, c.slots, 6, Gone)
  {
    t := ReachStep(c, s, Produce([], false));
  }

  lemma CanGetStuck(c: Setup) returns (s: State)
    requires c.slots >= 1 && c.order.ConsumerFirst? && Roomy(c)
    ensures Reachable(c, s) && Stuck(c, s)
  {
    s := StopConsumerEarly(c);
    s := Fill(c, s, 0, c.slots, 6, Gone);
    s := SpinForNothing(c, s);
    s := ReachStep(c, s, Main);
  }

  /** Shutdown is possible from every reachable state exactly when `main` stops
      the producer first, or the queue is too small to hold every slot. */
  lemma AlwaysStoppableIff(c: Setup)
    requires c.slots >= 1
    ensures AlwaysStoppable(c) <==> c.order.ProducerFirst? || !Roomy(c)
  {
    if c.order.ProducerFirst? || !Roomy(c) {
      forall acts ensures CanFinish(c, Run(c, acts)) {
        RunIsSound(c, acts);
        Stoppable(c, Run(c, acts));
      }
    } else {
      var s := CanGetStuck(c);
      var acts :| Run(c, acts) == s;
      forall more ensures !Finished(Exec(c, s, more)) {
        StuckForever(c, s, more);
      }
      assert !CanFinish(c, s);
    }
  }

  /** The daemon as shipped: four buffers, a queue for eight, producer first.
      It can always be stopped, and then every frame produced was processed. */
  lemma AsShipped(sleepChunks: nat, acts: seq<Action>)
    ensures
      var c := Setup(4, 8, sleepChunks, ProducerFirst);
      && CanFinish(c, Run(c, acts))
      && (Finished(Run(c, acts)) ==>
            var s := Run(c, acts);
            && s.processed == s.produced && s.world.dropped == 0 && s.seen == s.world.pushed
            && |s.world.available| == 4 && forall i :: 0 <= i < 4 ==> s.world.available[i])
  {
    var c := Setup(4, 8, sleepChunks, ProducerFirst);
    RunIsSound(c, acts);
    Stoppable(c, Run(c, acts));
    if Finished(Run(c, acts)) {
      CleanShutdown(c, acts);
    }
  }
}
