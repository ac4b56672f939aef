/** What every schedule of the vision daemon keeps: who owns each buffer, what
is in it, and how the counters relate. */
module VisionSafety {
  import opened FrameQueue
  import opened Wrappers
  import opened VisionPipeline

  // ---- Who owns a slot ----------------------------------------------------

  predicate Distinct(queue: seq<nat>) {
    forall i, j :: 0 <= i < j < |queue| ==> queue[i] != queue[j]
  }

  /** `slot`, if any, is a slot that is neither available nor queued. */
  predicate HeldAlone(available: seq<bool>, queue: seq<nat>, slot: Option<nat>) {
    slot.Some? ==> slot.value < |available| && !available[slot.value] && slot.value !in queue
  }

  /** Every slot is available, queued once, held by the producer (`p`) or held
      by the consumer (`q`), and only one of these. */
  predicate Owned(available: seq<bool>, queue: seq<nat>, p: Option<nat>, q: Option<nat>) {
    && Distinct(queue)
    && (forall k :: 0 <= k < |queue| ==> queue[k] < |available| && !available[queue[k]])
    && HeldAlone(available, queue, p) && HeldAlone(available, queue, q)
    && (p.Some? ==> p != q)
    && (forall i :: 0 <= i < |available| && !available[i] ==> i in queue || p == Some(i) || q == Some(i))
  }

  lemma OwnPushed(available: seq<bool>, queue: seq<nat>, slot: nat, q: Option<nat>)
    requires Owned(available, queue, Some(slot), q)
    ensures Owned(available, queue + [slot], None, q)
  {
  }

  lemma OwnEvicted(available: seq<bool>, queue: seq<nat>, p: Option<nat>, q: Option<nat>)
    requires Owned(available, queue, p, q) && queue != []
    ensures Owned(available[queue[0] := true], queue[1..], p, q)
  {
  }

  lemma OwnPopped(available: seq<bool>, queue: seq<nat>, p: Option<nat>)
    requires Owned(available, queue, p, None) && queue != []
    ensures Owned(available, queue[1..], p, Some(queue[0]))
  {
  }

  function Below(n: nat): set<nat> {
    if n == 0 then {} else Below(n - 1) + {n - 1}
  }

  function Elements(queue: seq<nat>): set<nat> {
    if queue == [] then {} else Elements(queue[1..]) + {queue[0]}
  }

  lemma {:induction false} BelowHas(n: nat)
    ensures |Below(n)| == n
    ensures forall i: nat :: i in Below(n) <==> i < n
  {
    if n > 0 {
      BelowHas(n - 1);
    }
  }

  lemma {:induction false} ElementsOf(queue: seq<nat>)
    requires Distinct(queue)
    ensures |Elements(queue)| == |queue|
    ensures forall x: nat :: x in Elements(queue) <==> x in queue
  {
    if queue != [] {
      ElementsOf(queue[1..]);
      assert queue == [queue[0]] + queue[1..];
    }
  }

  lemma {:induction false} SubsetCount(a: set<nat>, b: set<nat>)
    requires a <= b
    ensures |a| <= |b|
    decreases a
  {
    if a != {} {
      var x :| x in a;
      SubsetCount(a - {x}, b - {x});
    }
  }

  /** While the producer holds a slot, fewer slots than there are can be queued. */
  lemma FewerThanSlots(available: seq<bool>, queue: seq<nat>, slot: nat, q: Option<nat>)
    requires Owned(available, queue, Some(slot), q)
    ensures |queue| < |available|
  {
    BelowHas(|available|);
    ElementsOf(queue);
    SubsetCount(Elements(queue) + {slot}, Below(|available|));
  }

  // ---- What is in a slot --------------------------------------------------

  /** The pictures that left the queue towards the consumer, in order. */
  function Taken(pushed: seq<Picture>, fates: seq<Fate>): seq<Picture>
    requires |fates| <= |pushed|
  {
    if fates == [] then []
    else
      var n := |fates| - 1;
      Taken(pushed, fates[..n]) + if fates[n].Consumed? then [pushed[n]] else []
  }

  function Drops(fates: seq<Fate>): nat {
    if fates == [] then 0 else Drops(fates[..|fates| - 1]) + if fates[|fates| - 1].Dropped? then 1 else 0
  }

  lemma {:induction false} TakenStable(pushed: seq<Picture>, more: Picture, fates: seq<Fate>)
    requires |fates| <= |pushed|
    ensures Taken(pushed + [more], fates) == Taken(pushed, fates)
    decreases |fates|
  {
    if fates != [] {
      TakenStable(pushed, more, fates[..|fates| - 1]);
    }
  }

  lemma TakenSnoc(pushed: seq<Picture>, fates: seq<Fate>, fate: Fate)
    requires |fates| < |pushed|
    ensures Taken(pushed, fates + [fate]) == Taken(pushed, fates) + if fate.Consumed? then [pushed[|fates|]] else []
  {
  }

  lemma DropsSnoc(fates: seq<Fate>, fate: Fate)
    ensures Drops(fates + [fate]) == Drops(fates) + if fate.Dropped? then 1 else 0
  {
  }

  /** The queue holds the newest pictures pushed, each still as it was painted. */
  predicate Intact(pictures: seq<Picture>, queue: seq<nat>, pushed: seq<Picture>, fates: seq<Fate>) {
    && |pushed| == |fates| + |queue|
    && (forall k :: 0 <= k < |queue| ==> queue[k] < |pictures| && pictures[queue[k]] == pushed[|fates| + k])
  }

  lemma IntactPushed(pictures: seq<Picture>, queue: seq<nat>, pushed: seq<Picture>, fates: seq<Fate>, slot: nat)
    requires Intact(pictures, queue, pushed, fates) && slot < |pictures|
    ensures Intact(pictures, queue + [slot], pushed + [pictures[slot]], fates)
  {
  }

  lemma IntactPopped(pictures: seq<Picture>, queue: seq<nat>, pushed: seq<Picture>, fates: seq<Fate>, fate: Fate)
    requires Intact(pictures, queue, pushed, fates) && queue != []
    ensures Intact(pictures, queue[1..], pushed, fates + [fate])
  {
  }

  // ---- The invariant ------------------------------------------------------

  function ProducerSlot(s: State): Option<nat> {
    match s.producer
    case Paint(slot) => Some(slot)
    case Push(slot) => Some(slot)
    case _ => None
  }

  function ConsumerSlot(s: State): Option<nat> {
    match s.consumer
    case Infer(slot) => Some(slot)
    case Bookkeep(slot) => Some(slot)
    case Drop(slot) => Some(slot)
    case _ => None
  }

  /** The buffers and the queue, given who holds a slot outside it. */
  predicate SoundWorld(c: Setup, w: World, p: Option<nat>, q: Option<nat>) {
    && Shaped(c, w)
    && Owned(w.available, w.queue, p, q)
    && Intact(w.pictures, w.queue, w.pushed, w.fates)
    && w.dropped == Drops(w.fates)
    && (c.capacity > 0 ==> |w.queue| <= c.capacity)
    && (Roomy(c) ==> w.dropped == 0)
  }

  /** The queue can take every slot of the pool. */
  predicate Roomy(c: Setup) {
    c.capacity == 0 || c.capacity >= c.slots
  }

  /** The pictures taken from the queue are those the consumer has looked at, in
      order and unchanged, and the one it holds but has not looked at yet. */
  predicate Looked(w: World, consumer: ConsumerPc, seen: seq<Picture>) {
    && |w.fates| <= |w.pushed|
    && (consumer.Infer? ==> consumer.slot < |w.pictures|)
    && Taken(w.pushed, w.fates) == seen + if consumer.Infer? then [w.pictures[consumer.slot]] else []
  }

  predicate Counters(s: State) {
    && |s.world.pushed| == s.produced + (if s.producer.CountUp? then 1 else 0)
    && |s.seen| == s.processed + (if s.consumer.Bookkeep? then 1 else 0)
  }

  /** How far `main` is, and what the threads can be doing then. */
  predicate Control(c: Setup, s: State) {
    && s.main <= 8
    && (s.producer.Unborn? <==> s.main == 0)
    && (s.consumer.Unstarted? <==> s.main <= 1)
    && (s.producer.Unborn? ==> s.produced == 0)
    && (s.consumer.Unstarted? ==> s.processed == 0)
    && (s.producer.Exited? ==> !s.producing)
    && (s.consumer.NullSeen? || s.consumer.Gone? ==> s.done)
    && if c.order.ProducerFirst? then
         && (s.producing <==> 1 <= s.main <= 3)
         && (s.done <==> s.main >= 7)
         && (s.main >= 5 ==> s.producer.Exited?)
         && (s.main >= 8 ==> s.consumer.Gone?)
         && (s.consumer.NullSeen? || s.consumer.Gone? ==> s.world.queue == [])
       else
         && (s.producing <==> 1 <= s.main <= 6)
         && (s.done <==> s.main >= 5)
         && (s.main >= 6 ==> s.consumer.Gone?)
         && (s.main >= 8 ==> s.producer.Exited?)
  }

  predicate Sound(c: Setup, s: State) {
    && SoundWorld(c, s.world, ProducerSlot(s), ConsumerSlot(s))
    && PcsShaped(c, s)
    && Looked(s.world, s.consumer, s.seen)
    && Counters(s)
    && Control(c, s)
  }

  lemma InitIsSound(c: Setup)
    ensures Sound(c, Init(c))
  {
  }

  // ---- Every step keeps it ------------------------------------------------

  /** The world once the oldest frame has been evicted. */
  function Evict(w: World): World
    requires w.queue != [] && w.queue[0] < |w.available|
  {
    w.(available := w.available[w.queue[0] := true], queue := w.queue[1..],
       dropped := w.dropped + 1, fates := w.fates + [Dropped])
  }

  lemma WorldEvicted(c: Setup, w: World, slot: nat, q: Option<nat>)
    requires SoundWorld(c, w, Some(slot), q) && Full(w.queue, c.capacity)
    ensures !Roomy(c) && SoundWorld(c, Evict(w), Some(slot), q)
  {
    FewerThanSlots(w.available, w.queue, slot, q);
    OwnEvicted(w.available, w.queue, Some(slot), q);
    IntactPopped(w.pictures, w.queue, w.pushed, w.fates, Dropped);
    DropsSnoc(w.fates, Dropped);
  }

  lemma WorldAppended(c: Setup, w: World, slot: nat, q: Option<nat>)
    requires SoundWorld(c, w, Some(slot), q) && !Full(w.queue, c.capacity)
    ensures SoundWorld(c, w.(queue := w.queue + [slot], pushed := w.pushed + [w.pictures[slot]]), None, q)
  {
    OwnPushed(w.available, w.queue, slot, q);
    IntactPushed(w.pictures, w.queue, w.pushed, w.fates, slot);
  }

  lemma WorldPushed(c: Setup, w: World, slot: nat, q: Option<nat>)
    requires SoundWorld(c, w, Some(slot), q)
    ensures SoundWorld(c, PushFrame(c, w, slot), None, q)
  {
    if Full(w.queue, c.capacity) {
      WorldEvicted(c, w, slot, q);
      WorldAppended(c, Evict(w), slot, q);
    } else {
      WorldAppended(c, w, slot, q);
    }
  }

  lemma TakenPushed(c: Setup, w: World, slot: nat)
    requires Shaped(c, w) && slot < c.slots && |w.fates| + |w.queue| == |w.pushed|
    ensures Taken(PushFrame(c, w, slot).pushed, PushFrame(c, w, slot).fates) == Taken(w.pushed, w.fates)
  {
    TakenStable(w.pushed, w.pictures[slot], w.fates);
    if Full(w.queue, c.capacity) {
      TakenSnoc(w.pushed + [w.pictures[slot]], w.fates, Dropped);
    }
  }

  lemma WorldPopped(c: Setup, w: World, p: Option<nat>)
    requires SoundWorld(c, w, p, None) && w.queue != []
    ensures SoundWorld(c, PopFrame(w), p, Some(w.queue[0]))
  {
    OwnPopped(w.available, w.queue, p);
    IntactPopped(w.pictures, w.queue, w.pushed, w.fates, Consumed);
    DropsSnoc(w.fates, Consumed);
  }

  lemma TakenPopped(w: World)
    requires w.queue != [] && Intact(w.pictures, w.queue, w.pushed, w.fates)
    ensures Taken(PopFrame(w).pushed, PopFrame(w).fates) == Taken(w.pushed, w.fates) + [w.pictures[w.queue[0]]]
  {
  }

  lemma WorldAcquired(c: Setup, w: World, i: nat, q: Option<nat>)
    requires SoundWorld(c, w, None, q) && i < c.slots && w.available[i]
    ensures SoundWorld(c, w.(available := w.available[i := false]), Some(i), q)
  {
  }

  lemma WorldPainted(c: Setup, w: World, slot: nat, q: Option<nat>, picture: Picture)
    requires SoundWorld(c, w, Some(slot), q) && slot < c.slots
    ensures SoundWorld(c, w.(pictures := w.pictures[slot := picture]), Some(slot), q)
  {
  }

  lemma WorldReleased(c: Setup, w: World, p: Option<nat>, slot: nat)
    requires SoundWorld(c, w, p, Some(slot)) && slot < c.slots
    ensures SoundWorld(c, w.(available := w.available[slot := true]), p, None)
  {
  }

  predicate WorldPart(c: Setup, s: State) {
    SoundWorld(c, s.world, ProducerSlot(s), ConsumerSlot(s))
  }

  /** The producer's step on the buffers and the queue, and its slot after it. */
  lemma ProducerWorld(c: Setup, s: State, picture: Picture, spurious: bool)
    requires c.slots >= 1 && PcsShaped(c, s) && Shaped(c, s.world)
    ensures
      var t := ProducerStep(c, s, picture, spurious);
      && t.consumer == s.consumer
      && (t.world, ProducerSlot(t)) ==
         match s.producer
         case Acquire(i) =>
           if s.world.available[i] && !spurious
           then (s.world.(available := s.world.available[i := false]), Some(i)) else (s.world, None)
         case Paint(slot) => (s.world.(pictures := s.world.pictures[slot := picture]), Some(slot))
         case Push(slot) => (PushFrame(c, s.world, slot), None)
         case _ => (s.world, None)
  {
  }

  lemma ProducerKeepsWorld(c: Setup, s: State, picture: Picture, spurious: bool)
    requires c.slots >= 1 && PcsShaped(c, s) && WorldPart(c, s)
    ensures WorldPart(c, ProducerStep(c, s, picture, spurious))
  {
    ProducerWorld(c, s, picture, spurious);
    var t, q := ProducerStep(c, s, picture, spurious), ConsumerSlot(s);
    assert SoundWorld(c, t.world, ProducerSlot(t), q) by {
      match s.producer
      case Acquire(i) =>
        if s.world.available[i] && !spurious {
          WorldAcquired(c, s.world, i, q);
        }
      case Paint(slot) => WorldPainted(c, s.world, slot, q, picture);
      case Push(slot) => WorldPushed(c, s.world, slot, q);
      case _ =>
    }
  }

  lemma ProducerKeepsLooked(c: Setup, s: State, picture: Picture, spurious: bool)
    requires c.slots >= 1 && PcsShaped(c, s) && WorldPart(c, s) && Looked(s.world, s.consumer, s.seen)
    ensures
      var t := ProducerStep(c, s, picture, spurious);
      Looked(t.world, t.consumer, t.seen)
  {
    if s.producer.Push? {
      TakenPushed(c, s.world, s.producer.slot);
    }
  }

  lemma ProducerKeepsCounters(c: Setup, s: State, picture: Picture, spurious: bool)
    requires c.slots >= 1 && PcsShaped(c, s) && Shaped(c, s.world) && Counters(s)
    ensures Counters(ProducerStep(c, s, picture, spurious))
    ensures PcsShaped(c, ProducerStep(c, s, picture, spurious))
  {
  }

  lemma ProducerKeepsControl(c: Setup, s: State, picture: Picture, spurious: bool)
    requires c.slots >= 1 && PcsShaped(c, s) && Shaped(c, s.world) && Control(c, s)
    ensures Control(c, ProducerStep(c, s, picture, spurious))
  {
  }

  /** The consumer's step on the buffers and the queue, and its slot after it. */
  lemma ConsumerWorld(c: Setup, s: State)
    requires PcsShaped(c, s) && Shaped(c, s.world)
    ensures
      var t := ConsumerStep(c, s);
      && t.producer == s.producer
      && (t.world, ConsumerSlot(t)) ==
         match s.consumer
         case Pop => if s.world.queue != [] then (PopFrame(s.world), Some(s.world.queue[0])) else (s.world, None)
         case Drop(slot) => (s.world.(available := s.world.available[slot := true]), None)
         case _ => (s.world, ConsumerSlot(s))
  {
  }

  lemma ConsumerKeepsWorld(c: Setup, s: State)
    requires PcsShaped(c, s) && WorldPart(c, s)
    ensures WorldPart(c, ConsumerStep(c, s))
  {
    ConsumerWorld(c, s);
    var t, p := ConsumerStep(c, s), ProducerSlot(s);
    assert SoundWorld(c, t.world, p, ConsumerSlot(t)) by {
      match s.consumer
      case Pop =>
        if s.world.queue != [] {
          WorldPopped(c, s.world, p);
        }
      case Drop(slot) => WorldReleased(c, s.world, p, slot);
      case _ =>
    }
  }

  lemma ConsumerKeepsLooked(c: Setup, s: State)
    requires PcsShaped(c, s) && WorldPart(c, s) && Looked(s.world, s.consumer, s.seen)
    ensures
      var t := ConsumerStep(c, s);
      Looked(t.world, t.consumer, t.seen)
  {
    if s.consumer.Pop? && s.world.queue != [] {
      TakenPopped(s.world);
    }
  }

  lemma ConsumerKeepsCounters(c: Setup, s: State)
    requires PcsShaped(c, s) && Shaped(c, s.world) && Counters(s)
    ensures Counters(ConsumerStep(c, s)) && PcsShaped(c, ConsumerStep(c, s))
  {
  }

  lemma ConsumerKeepsControl(c: Setup, s: State)
    requires PcsShaped(c, s) && Shaped(c, s.world) && Control(c, s)
    ensures Control(c, ConsumerStep(c, s))
  {
  }

  /** What `main` does to the rest: at most it starts a thread. */
  predicate Started(s: State, t: State) {
    && t.world == s.world && t.seen == s.seen
    && t.produced == s.produced && t.processed == s.processed
    && (t.producer == s.producer || (s.producer.Unborn? && t.producer.Test?))
    && (t.consumer == s.consumer || (s.consumer.Unstarted? && t.consumer.Pop?))
  }

  lemma ExecuteOnlyStarts(instr: Instr, s: State)
    requires instr.StartProducer? ==> s.producer.Unborn? && s.produced == 0
    requires instr.StartConsumer? ==> s.consumer.Unstarted? && s.processed == 0
    ensures Started(s, Execute(instr, s))
  {
  }

  lemma MainKeepsData(c: Setup, s: State)
    requires s.main == 0 ==> s.producer.Unborn? && s.produced == 0
    requires s.main == 1 ==> s.consumer.Unstarted? && s.processed == 0
    ensures Started(s, MainStep(c, s))
  {
    if !Finished(s) {
      var instr := Instruction(c.order, s.main);
      assert instr.StartProducer? <==> s.main == 0;
      assert instr.StartConsumer? <==> s.main == 1;
      ExecuteOnlyStarts(instr, s);
      var t := Execute(instr, s);
      assert Started(s, t.(main := s.main + 1));
    }
  }

  lemma MainKeepsControl(c: Setup, s: State)
    requires Control(c, s)
    ensures Control(c, MainStep(c, s))
  {
  }

  /** One step of any thread, whatever the others are doing. */
  lemma StepIsSound(c: Setup, s: State, a: Action)
    requires c.slots >= 1 && Sound(c, s)
    ensures Sound(c, Apply(c, s, a))
  {
    match a
    case Produce(picture, spurious) =>
      ProducerKeepsWorld(c, s, picture, spurious);
      ProducerKeepsLooked(c, s, picture, spurious);
      ProducerKeepsCounters(c, s, picture, spurious);
      ProducerKeepsControl(c, s, picture, spurious);
    case Consume =>
      ConsumerKeepsWorld(c, s);
      ConsumerKeepsLooked(c, s);
      ConsumerKeepsCounters(c, s);
      ConsumerKeepsControl(c, s);
    case Main =>
      MainKeepsData(c, s);
      MainKeepsControl(c, s);
      assert WorldPart(c, MainStep(c, s));
  }
}
