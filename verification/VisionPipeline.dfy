/** The vision daemon as interleaved threads: the producer that acquires, paints
and pushes frames, the consumer that pops, processes and releases them, and
`main`, which starts and stops both.

A thread that cannot move stays where it is, so every sequence of actions is a
schedule and `Exec` of any such sequence is a run. */
module VisionPipeline {
  import opened FrameQueue

  /** A painted picture; its content does not matter here. */
  type Picture = seq<nat>

  /** The order of the two stop calls in `main`. */
  datatype StopOrder = ProducerFirst | ConsumerFirst

  datatype Setup = Setup(slots: nat, capacity: nat, sleepChunks: nat, order: StopOrder)

  datatype ProducerPc =
    | Unborn
    | Test
    | Acquire(i: nat)
    | Paint(slot: nat)
    | Push(slot: nat)
    | CountUp
    | Sleep(chunks: nat)
    | Exited

  datatype ConsumerPc =
    | Unstarted
    | Pop
    | NullSeen
    | Infer(slot: nat)
    | Bookkeep(slot: nat)
    | Drop(slot: nat)
    | Gone

  datatype Instr =
    | StartProducer
    | StartConsumer
    | AwaitSignal
    | StopProducer
    | JoinProducer
    | StopConsumer
    | ShutDownQueue
    | JoinConsumer

  datatype Fate = Consumed | Dropped

  /** The shared buffers and queue.  `pushed` is every picture pushed so far and
      `fates` what became of those that left the queue, oldest first. */
  datatype World = World(
    available: seq<bool>,
    pictures: seq<Picture>,
    queue: seq<nat>,
    dropped: nat,
    pushed: seq<Picture>,
    fates: seq<Fate>)

  /** `seen` is every picture the consumer has looked at so far. */
  datatype State = State(
    world: World,
    done: bool,
    producing: bool,
    consuming: bool,
    producer: ProducerPc,
    consumer: ConsumerPc,
    main: nat,
    produced: nat,
    processed: nat,
    seen: seq<Picture>)

  datatype Action = Produce(picture: Picture, spurious: bool) | Consume | Main

  /** The `k`th thing `main` does: three calls to start, five to stop. */
  function Instruction(order: StopOrder, k: nat): Instr
    requires k < 8
  {
    match k
    case 0 => StartProducer
    case 1 => StartConsumer
    case 2 => AwaitSignal
    case 3 => if order.ProducerFirst? then StopProducer else StopConsumer
    case 4 => if order.ProducerFirst? then JoinProducer else ShutDownQueue
    case 5 => if order.ProducerFirst? then StopConsumer else JoinConsumer
    case 6 => if order.ProducerFirst? then ShutDownQueue else StopProducer
    case _ => if order.ProducerFirst? then JoinConsumer else JoinProducer
  }

  function Init(c: Setup): State {
    State(World(seq(c.slots, i => true), seq(c.slots, i => []), [], 0, [], []),
          false, false, false, Unborn, Unstarted, 0, 0, 0, [])
  }

  predicate Finished(s: State) {
    s.main >= 8
  }

  predicate Shaped(c: Setup, w: World) {
    && |w.available| == c.slots && |w.pictures| == c.slots
    && (forall k :: 0 <= k < |w.queue| ==> w.queue[k] < c.slots)
  }

  predicate PcsShaped(c: Setup, s: State) {
    && (s.producer.Acquire? ==> s.producer.i < c.slots)
    && (s.producer.Paint? ==> s.producer.slot < c.slots)
    && (s.producer.Push? ==> s.producer.slot < c.slots)
    && (s.consumer.Infer? ==> s.consumer.slot < c.slots)
    && (s.consumer.Bookkeep? ==> s.consumer.slot < c.slots)
    && (s.consumer.Drop? ==> s.consumer.slot < c.slots)
  }

  /** `push` under the queue's lock: when the queue is full, the evicted
      shared_ptr is the last one to its slot, so its deleter frees the slot. */
  function PushFrame(c: Setup, w: World, slot: nat): World
    requires Shaped(c, w) && slot < c.slots
  {
    var w' := w.(queue := Pushed(w.queue, c.capacity, slot), pushed := w.pushed + [w.pictures[slot]]);
    if Full(w.queue, c.capacity)
    then w'.(available := w.available[w.queue[0] := true], dropped := w.dropped + 1, fates := w.fates + [Dropped])
    else w'
  }

  function PopFrame(w: World): World
    requires w.queue != []
  {
    w.(queue := w.queue[1..], fates := w.fates + [Consumed])
  }

  function ProducerStep(c: Setup, s: State, picture: Picture, spurious: bool): State
    requires c.slots >= 1 && Shaped(c, s.world) && PcsShaped(c, s)
  {
    match s.producer
    case Unborn => s
    case Test => s.(producer := if s.producing then Acquire(0) else Exited)
    case Acquire(i) =>
      if s.world.available[i] && !spurious
      then s.(world := s.world.(available := s.world.available[i := false]), producer := Paint(i))
      else s.(producer := Acquire(if i + 1 < c.slots then i + 1 else 0))
    case Paint(slot) =>
      s.(world := s.world.(pictures := s.world.pictures[slot := picture]), producer := Push(slot))
    case Push(slot) => s.(world := PushFrame(c, s.world, slot), producer := CountUp)
    case CountUp => s.(produced := s.produced + 1, producer := Sleep(c.sleepChunks))
    case Sleep(chunks) => s.(producer := if chunks > 0 && s.producing then Sleep(chunks - 1) else Test)
    case Exited => s
  }

  function ConsumerStep(c: Setup, s: State): State
    requires Shaped(c, s.world) && PcsShaped(c, s)
  {
    match s.consumer
    case Unstarted => s
    case Pop =>
      if s.world.queue != [] then s.(world := PopFrame(s.world), consumer := Infer(s.world.queue[0]))
      else if s.done then s.(consumer := NullSeen)
      else s
    case NullSeen => s.(consumer := if s.done then Gone else Pop)
    case Infer(slot) => s.(seen := s.seen + [s.world.pictures[slot]], consumer := Bookkeep(slot))
    case Bookkeep(slot) => s.(processed := s.processed + 1, consumer := Drop(slot))
    case Drop(slot) =>
      s.(world := s.world.(available := s.world.available[slot := true]), consumer := Pop)
    case Gone => s
  }

  function Execute(instr: Instr, s: State): State {
    match instr
    case StartProducer => s.(producing := true, produced := 0, producer := Test)
    case StartConsumer => s.(consuming := true, processed := 0, consumer := Pop)
    case AwaitSignal => s
    case StopProducer => s.(producing := false)
    case JoinProducer => s
    case StopConsumer => s.(consuming := false)
    case ShutDownQueue => s.(done := true)
    case JoinConsumer => s
  }

  /** Is `main` stuck in a join? */
  predicate Waiting(instr: Instr, s: State) {
    (instr.JoinProducer? && s.producer != Exited) || (instr.JoinConsumer? && s.consumer != Gone)
  }

  function MainStep(c: Setup, s: State): State {
    if Finished(s) || Waiting(Instruction(c.order, s.main), s) then s
    else Execute(Instruction(c.order, s.main), s).(main := s.main + 1)
  }

  function Apply(c: Setup, s: State, a: Action): State
    requires c.slots >= 1 && Shaped(c, s.world) && PcsShaped(c, s)
  {
    match a
    case Produce(picture, spurious) => ProducerStep(c, s, picture, spurious)
    case Consume => ConsumerStep(c, s)
    case Main => MainStep(c, s)
  }
}
