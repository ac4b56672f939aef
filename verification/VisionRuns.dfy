/** Whole runs of the vision daemon: accounting in every reachable state, and
what is left at the end. */
module VisionRuns {
  import opened VisionPipeline
  import opened VisionSafety

  /** One action; a malformed state, which no run reaches, stays as it is. */
  function Step(c: Setup, s: State, a: Action): State
    requires c.slots >= 1
  {
    if Shaped(c, s.world) && PcsShaped(c, s) then Apply(c, s, a) else s
  }

  /** The state after `acts`, the first action first. */
  function Exec(c: Setup, s: State, acts: seq<Action>): State
    requires c.slots >= 1
    decreases |acts|
  {
    if acts == [] then s else Exec(c, Step(c, s, acts[0]), acts[1..])
  }

  function Run(c: Setup, acts: seq<Action>): State
    requires c.slots >= 1
  {
    Exec(c, Init(c), acts)
  }

  lemma {:induction false} ExecIsSound(c: Setup, s: State, acts: seq<Action>)
    requires c.slots >= 1 && Sound(c, s)
    ensures Sound(c, Exec(c, s, acts))
    decreases |acts|
  {
    if acts != [] {
      StepIsSound(c, s, acts[0]);
      ExecIsSound(c, Step(c, s, acts[0]), acts[1..]);
    }
  }

  /** The invariant holds in every state of every run. */
  lemma RunIsSound(c: Setup, acts: seq<Action>)
    requires c.slots >= 1
    ensures Sound(c, Run(c, acts))
  {
    InitIsSound(c);
    ExecIsSound(c, Init(c), acts);
  }

  /** The flags follow `main`: each thread is told to run, and the queue to shut down,
      from the step that says so to the one that says stop. */
  predicate FlagsFollow(c: Setup, s: State) {
    && (s.producing <==> 1 <= s.main <= if c.order.ProducerFirst? then 3 else 6)
    && (s.consuming <==> 2 <= s.main <= if c.order.ProducerFirst? then 5 else 3)
    && (s.done <==> s.main > if c.order.ProducerFirst? then 6 else 4)
  }

  lemma StepKeepsFlags(c: Setup, s: State, a: Action)
    requires c.slots >= 1 && FlagsFollow(c, s)
    ensures FlagsFollow(c, Step(c, s, a))
  {
  }

  lemma {:induction false} ExecKeepsFlags(c: Setup, s: State, acts: seq<Action>)
    requires c.slots >= 1 && FlagsFollow(c, s)
    ensures FlagsFollow(c, Exec(c, s, acts))
    decreases |acts|
  {
    if acts != [] {
      StepKeepsFlags(c, s, acts[0]);
      ExecKeepsFlags(c, Step(c, s, acts[0]), acts[1..]);
    }
  }

  lemma RunsFollowMain(c: Setup, acts: seq<Action>)
    requires c.slots >= 1
    ensures FlagsFollow(c, Run(c, acts))
  {
    ExecKeepsFlags(c, Init(c), acts);
  }

  lemma {:induction false} ExecAppend(c: Setup, s: State, acts: seq<Action>, more: seq<Action>)
    requires c.slots >= 1
    ensures Exec(c, s, acts + more) == Exec(c, Exec(c, s, acts), more)
    decreases |acts|
  {
    if acts == [] {
      assert acts + more == more;
    } else {
      assert (acts + more)[1..] == acts[1..] + more;
      ExecAppend(c, Step(c, s, acts[0]), acts[1..], more);
    }
  }

  lemma {:induction false} FatesSplit(pushed: seq<Picture>, fates: seq<Fate>)
    requires |fates| <= |pushed|
    ensures |Taken(pushed, fates)| + Drops(fates) == |fates|
    decreases |fates|
  {
    if fates != [] {
      FatesSplit(pushed, fates[..|fates| - 1]);
    }
  }

  lemma {:induction false} NothingDropped(pushed: seq<Picture>, fates: seq<Fate>)
    requires |fates| <= |pushed| && Drops(fates) == 0
    ensures Taken(pushed, fates) == pushed[..|fates|]
    decreases |fates|
  {
    if fates != [] {
      NothingDropped(pushed, fates[..|fates| - 1]);
    }
  }

  /** Where the frames are, in every reachable state: each slot has one owner,
      pushes are pops plus drops plus what is queued, the bound holds, and the
      consumer has seen the frames that were not dropped, in production order
      and as they were painted. */
  lemma FramesAreAccountedFor(c: Setup, acts: seq<Action>)
    requires c.slots >= 1
    ensures
      var s := Run(c, acts);
      var w := s.world;
      && Owned(w.available, w.queue, ProducerSlot(s), ConsumerSlot(s))
      && |w.fates| <= |w.pushed|
      && |w.pushed| == |Taken(w.pushed, w.fates)| + w.dropped + |w.queue|
      && s.seen <= Taken(w.pushed, w.fates)
      && (c.capacity > 0 ==> |w.queue| <= c.capacity)
      && (Roomy(c) ==> w.dropped == 0 && Taken(w.pushed, w.fates) <= w.pushed)
  {
    RunIsSound(c, acts);
    var w := Run(c, acts).world;
    FatesSplit(w.pushed, w.fates);
    if Roomy(c) {
      NothingDropped(w.pushed, w.fates);
    }
  }

  /** What a run that ended leaves behind when the producer is stopped first. */
  lemma CleanShutdown(c: Setup, acts: seq<Action>)
    requires c.slots >= 1 && c.order.ProducerFirst?
    requires Finished(Run(c, acts))
    ensures
      var s := Run(c, acts);
      && s.world.queue == []
      && |s.world.available| == c.slots && (forall i :: 0 <= i < c.slots ==> s.world.available[i])
      && s.produced == |s.world.pushed| == s.processed + s.world.dropped
      && |s.world.fates| == |s.world.pushed|
      && s.seen == Taken(s.world.pushed, s.world.fates)
      && (Roomy(c) ==> s.world.dropped == 0 && s.processed == s.produced && s.seen == s.world.pushed)
  {
    RunIsSound(c, acts);
    var w := Run(c, acts).world;
    FatesSplit(w.pushed, w.fates);
    if Roomy(c) {
      NothingDropped(w.pushed, w.fates);
    }
  }

  /** When the consumer is stopped first, frames can be left in the queue. */
  lemma LossyShutdown(c: Setup, acts: seq<Action>)
    requires c.slots >= 1 && c.order.ConsumerFirst?
    requires Finished(Run(c, acts))
    ensures
      var s := Run(c, acts);
      && s.produced == s.processed + s.world.dropped + |s.world.queue|
      && |s.world.available| == c.slots
      && forall i :: 0 <= i < c.slots ==> (s.world.available[i] <==> i !in s.world.queue)
  {
    RunIsSound(c, acts);
    var w := Run(c, acts).world;
    FatesSplit(w.pushed, w.fates);
  }
}
