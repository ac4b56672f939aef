/** Whole runs of the gateway: messages arrive at any moment while the main loop
drains, inserts and re-queues, until it is told to stop. */
module GatewayRuns {
  import opened GatewayBuffer

  datatype Phase<T> =
    | Looping
    | Inserting(batch: seq<T>)
    | Requeuing(rest: seq<T>)
    | FinalDrain
    | FinalInsert(batch: seq<T>)
    | Stopped

  /** `arrived`, `inserted`, `dropped` and `lost` list the entries concerned, in
      the order in which that happened to them. */
  datatype State<T> = State(
    phase: Phase<T>,
    buffer: seq<T>,
    droppedCount: nat,
    shutdown: bool,
    arrived: seq<T>,
    inserted: seq<T>,
    dropped: seq<T>,
    lost: seq<T>)

  /** An entry of a message, a signal, or a step of the main loop; `ok` is what an
      insert returns. */
  datatype Action<T> = Arrive(entry: T) | Signal | Main(ok: bool)

  function Init<T>(): State<T> {
    State(Looping, [], 0, false, [], [], [], [])
  }

  function Enqueue<T>(max: int, s: State<T>, entry: T): State<T> {
    s.(buffer := Enqueued(s.buffer, max, entry),
       droppedCount := s.droppedCount + Evicted(s.buffer, max),
       dropped := s.dropped + s.buffer[..Evicted(s.buffer, max)])
  }

  function MainStep<T>(max: int, s: State<T>, ok: bool): State<T> {
    match s.phase
    case Looping =>
      if s.shutdown then s.(phase := FinalDrain)
      else if |s.buffer| == 0 then s
      else s.(phase := Inserting(s.buffer), buffer := [])
    case Inserting(batch) =>
      if ok then s.(phase := Looping, inserted := s.inserted + batch)
      else s.(phase := Requeuing(batch))
    case Requeuing(rest) =>
      if |rest| == 0 then s.(phase := Looping) else Enqueue(max, s, rest[0]).(phase := Requeuing(rest[1..]))
    case FinalDrain =>
      if |s.buffer| == 0 then s.(phase := Stopped) else s.(phase := FinalInsert(s.buffer), buffer := [])
    case FinalInsert(batch) =>
      if ok then s.(phase := Stopped, inserted := s.inserted + batch)
      else s.(phase := Stopped, lost := s.lost + batch)
    case Stopped => s
  }

  function Step<T>(max: int, s: State<T>, a: Action<T>): State<T> {
    match a
    case Arrive(entry) => Enqueue(max, s, entry).(arrived := s.arrived + [entry])
    case Signal => s.(shutdown := true)
    case Main(ok) => MainStep(max, s, ok)
  }

  function Exec<T>(max: int, s: State<T>, acts: seq<Action<T>>): State<T>
    decreases |acts|
  {
    if |acts| == 0 then s else Exec(max, Step(max, s, acts[0]), acts[1..])
  }

  lemma {:induction false} ExecAppend<T>(max: int, s: State<T>, acts: seq<Action<T>>, more: seq<Action<T>>)
    ensures Exec(max, s, acts + more) == Exec(max, Exec(max, s, acts), more)
    decreases |acts|
  {
    if |acts| == 0 {
      assert acts + more == more;
    } else {
      assert (acts + more)[1..] == acts[1..] + more;
      ExecAppend(max, Step(max, s, acts[0]), acts[1..], more);
    }
  }

  /** The entries the main loop has taken out and not yet settled. */
  function InFlight<T>(s: State<T>): seq<T> {
    match s.phase
    case Inserting(batch) => batch
    case Requeuing(rest) => rest
    case FinalInsert(batch) => batch
    case _ => []
  }

  /** How often `x` occurs in `entries`. */
  ghost function Times<T>(entries: seq<T>, x: T): nat {
    if |entries| == 0 then 0
    else Times(entries[..|entries| - 1], x) + if entries[|entries| - 1] == x then 1 else 0
  }

  lemma {:induction false} TimesAppend<T>(a: seq<T>, b: seq<T>, x: T)
    ensures Times(a + b, x) == Times(a, x) + Times(b, x)
    decreases |b|
  {
    if |b| == 0 {
      assert a + b == a;
    } else {
      var n := |b| - 1;
      TimesAppend(a, b[..n], x);
      assert (a + b)[..|a| + n] == a + b[..n];
    }
  }

  lemma {:induction false} TimesIsMultiplicity<T>(entries: seq<T>, x: T)
    ensures Times(entries, x) == multiset(entries)[x]
    decreases |entries|
  {
    if |entries| > 0 {
      var n := |entries| - 1;
      TimesIsMultiplicity(entries[..n], x);
      assert entries == entries[..n] + [entries[n]];
    }
  }

  /** Where every `x` that arrived is. */
  ghost predicate Accounted<T>(s: State<T>, x: T) {
    Times(s.arrived, x) ==
      Times(s.inserted, x) + Times(s.dropped, x) + Times(s.lost, x) + Times(InFlight(s), x) + Times(s.buffer, x)
  }

  lemma EnqueueAccounts<T>(max: int, s: State<T>, entry: T, x: T)
    ensures
      var t := Enqueue(max, s, entry);
      && Times(t.dropped, x) + Times(t.buffer, x) == Times(s.dropped, x) + Times(s.buffer, x) + Times([entry], x)
      && |t.dropped| - |s.dropped| == t.droppedCount - s.droppedCount
  {
    var n := Evicted(s.buffer, max);
    assert s.buffer == s.buffer[..n] + s.buffer[n..];
    TimesAppend(s.buffer[..n], s.buffer[n..], x);
    TimesAppend(s.buffer[n..], [entry], x);
    TimesAppend(s.dropped, s.buffer[..n], x);
  }

  lemma RequeueAccounts<T>(max: int, s: State<T>, rest: seq<T>, ok: bool, x: T)
    requires Accounted(s, x) && s.phase == Requeuing(rest)
    ensures Accounted(MainStep(max, s, ok), x)
  {
    if |rest| > 0 {
      EnqueueAccounts(max, s, rest[0], x);
      assert rest == [rest[0]] + rest[1..];
      TimesAppend([rest[0]], rest[1..], x);
    }
  }

  lemma InsertAccounts<T>(max: int, s: State<T>, batch: seq<T>, ok: bool, x: T)
    requires Accounted(s, x) && s.phase == Inserting(batch)
    ensures Accounted(MainStep(max, s, ok), x)
  {
    TimesAppend(s.inserted, batch, x);
  }

  lemma FinalAccounts<T>(max: int, s: State<T>, batch: seq<T>, ok: bool, x: T)
    requires Accounted(s, x) && s.phase == FinalInsert(batch)
    ensures Accounted(MainStep(max, s, ok), x)
  {
    if ok {
      TimesAppend(s.inserted, batch, x);
    } else {
      TimesAppend(s.lost, batch, x);
    }
  }

  lemma DrainMoves<T>(max: int, s: State<T>, ok: bool)
    requires s.phase.Looping? || s.phase.FinalDrain? || s.phase.Stopped?
    ensures
      var t := MainStep(max, s, ok);
      && t.arrived == s.arrived && t.inserted == s.inserted && t.dropped == s.dropped && t.lost == s.lost
      && InFlight(s) == []
      && ((t.buffer == s.buffer && InFlight(t) == []) || (t.buffer == [] && InFlight(t) == s.buffer))
  {
  }

  lemma DrainAccounts<T>(max: int, s: State<T>, ok: bool, x: T)
    requires Accounted(s, x) && (s.phase.Looping? || s.phase.FinalDrain? || s.phase.Stopped?)
    ensures Accounted(MainStep(max, s, ok), x)
  {
    DrainMoves(max, s, ok);
  }

  lemma ArriveMoves<T>(max: int, s: State<T>, entry: T)
    ensures
      var e, t := Enqueue(max, s, entry), Step(max, s, Arrive(entry));
      && t.phase == s.phase && t.inserted == s.inserted && t.lost == s.lost
      && t.dropped == e.dropped && t.buffer == e.buffer && t.arrived == s.arrived + [entry]
  {
  }

  lemma ArriveAccounts<T>(max: int, s: State<T>, entry: T, x: T)
    requires Accounted(s, x)
    ensures Accounted(Step(max, s, Arrive(entry)), x)
  {
    EnqueueAccounts(max, s, entry, x);
    TimesAppend(s.arrived, [entry], x);
    ArriveMoves(max, s, entry);
    assert InFlight(Step(max, s, Arrive(entry))) == InFlight(s);
  }

  lemma StepAccounts<T>(max: int, s: State<T>, a: Action<T>, x: T)
    requires Accounted(s, x)
    ensures Accounted(Step(max, s, a), x)
  {
    match a
    case Arrive(entry) => ArriveAccounts(max, s, entry, x);
    case Signal =>
    case Main(ok) =>
      match s.phase
      case Requeuing(rest) => RequeueAccounts(max, s, rest, ok, x);
      case Inserting(batch) => InsertAccounts(max, s, batch, ok, x);
      case FinalInsert(batch) => FinalAccounts(max, s, batch, ok, x);
      case _ => DrainAccounts(max, s, ok, x);
  }

  lemma {:induction false} RunAccounts<T>(max: int, s: State<T>, acts: seq<Action<T>>, x: T)
    requires Accounted(s, x)
    ensures Accounted(Exec(max, s, acts), x)
    decreases |acts|
  {
    if |acts| > 0 {
      StepAccounts(max, s, acts[0], x);
      RunAccounts(max, Step(max, s, acts[0]), acts[1..], x);
    }
  }

  predicate Counted<T>(max: int, s: State<T>) {
    |s.dropped| == s.droppedCount && Within(s.buffer, max)
  }

  lemma EnqueueCounts<T>(max: int, s: State<T>, entry: T)
    requires Counted(max, s)
    ensures Counted(max, Enqueue(max, s, entry))
  {
  }

  lemma MainCounts<T>(max: int, s: State<T>, ok: bool)
    requires Counted(max, s)
    ensures Counted(max, MainStep(max, s, ok))
  {
    if s.phase.Requeuing? && |s.phase.rest| > 0 {
      EnqueueCounts(max, s, s.phase.rest[0]);
    }
  }

  lemma StepCounts<T>(max: int, s: State<T>, a: Action<T>)
    requires Counted(max, s)
    ensures Counted(max, Step(max, s, a))
  {
    match a
    case Arrive(entry) => EnqueueCounts(max, s, entry);
    case Signal =>
    case Main(ok) => MainCounts(max, s, ok);
  }

  lemma {:induction false} RunCounts<T>(max: int, s: State<T>, acts: seq<Action<T>>)
    requires Counted(max, s)
    ensures Counted(max, Exec(max, s, acts))
    decreases |acts|
  {
    if |acts| > 0 {
      StepCounts(max, s, acts[0]);
      RunCounts(max, Step(max, s, acts[0]), acts[1..]);
    }
  }

  // ---- Everything is accounted for ----------------------------------------

  /** All entries the gateway knows of. */
  function All<T>(s: State<T>): seq<T> {
    s.inserted + s.dropped + s.lost + InFlight(s) + s.buffer
  }

  lemma TimesInAll<T>(s: State<T>, x: T)
    requires Accounted(s, x)
    ensures multiset(s.arrived)[x] == multiset(All(s))[x]
  {
    TimesAppend(s.inserted, s.dropped, x);
    TimesAppend(s.inserted + s.dropped, s.lost, x);
    TimesAppend(s.inserted + s.dropped + s.lost, InFlight(s), x);
    TimesAppend(s.inserted + s.dropped + s.lost + InFlight(s), s.buffer, x);
    TimesIsMultiplicity(s.arrived, x);
    TimesIsMultiplicity(All(s), x);
  }

  /** In every reachable state each entry that arrived is inserted, dropped and
      counted, lost by the final insert, in flight, or buffered, and the buffer stays
      bounded. */
  lemma EveryEntryIsAccountedFor<T>(max: int, acts: seq<Action<T>>)
    ensures
      var s := Exec(max, Init(), acts);
      && multiset(s.arrived) == multiset(All(s))
      && |s.dropped| == s.droppedCount && Within(s.buffer, max)
  {
    var s := Exec(max, Init<T>(), acts);
    RunCounts(max, Init<T>(), acts);
    forall x: T ensures multiset(s.arrived)[x] == multiset(All(s))[x] {
      RunAccounts(max, Init<T>(), acts, x);
      TimesInAll(s, x);
    }
    assert multiset(s.arrived) == multiset(All(s));
  }

  /** The entries evicted when `entries` are enqueued one by one. */
  function Displaced<T>(buffer: seq<T>, max: int, entries: seq<T>): seq<T>
    requires Within(buffer, max)
  {
    (buffer + entries)[..Excess(|buffer| + |entries|, max)]
  }

  lemma DisplacedFirst<T>(buffer: seq<T>, max: int, entries: seq<T>)
    requires Within(buffer, max) && |entries| > 0
    ensures
      var n, next := Evicted(buffer, max), Enqueued(buffer, max, entries[0]);
      && Within(next, max)
      && Displaced(buffer, max, entries) == buffer[..n] + Displaced(next, max, entries[1..])
  {
    var n, next := Evicted(buffer, max), Enqueued(buffer, max, entries[0]);
    assert entries == [entries[0]] + entries[1..];
    assert buffer + entries == buffer[..n] + (next + entries[1..]);
  }

  /** `n` undisturbed steps of the main loop. */
  function Turns<T>(n: nat): seq<Action<T>> {
    seq(n, i => Main(true))
  }

  /** The state once `rest` is put back and nothing else happened. */
  function PutBack<T>(max: int, s: State<T>, rest: seq<T>): State<T>
    decreases |rest|
  {
    if |rest| == 0 then s.(phase := Looping) else PutBack(max, Enqueue(max, s, rest[0]), rest[1..])
  }

  lemma RequeueTurn<T>(max: int, s: State<T>, rest: seq<T>)
    requires s.phase == Requeuing(rest)
    ensures
      var t := if |rest| == 0 then s.(phase := Looping)
               else Enqueue(max, s, rest[0]).(phase := Requeuing(rest[1..]));
      Exec(max, s, Turns(|rest| + 1)) == Exec(max, t, Turns(|rest|))
  {
    assert Turns<T>(|rest| + 1)[1..] == Turns(|rest|);
  }

  lemma {:induction false} PutBackIgnoresPhase<T>(max: int, s: State<T>, rest: seq<T>, phase: Phase<T>)
    ensures PutBack(max, s.(phase := phase), rest) == PutBack(max, s, rest)
    decreases |rest|
  {
    if |rest| > 0 {
      PutBackIgnoresPhase(max, Enqueue(max, s, rest[0]), rest[1..], phase);
    }
  }

  lemma {:induction false} RequeueIsPutBack<T>(max: int, s: State<T>, rest: seq<T>)
    requires s.phase == Requeuing(rest)
    ensures Exec(max, s, Turns(|rest| + 1)) == PutBack(max, s, rest)
    decreases |rest|
  {
    RequeueTurn(max, s, rest);
    if |rest| == 0 {
      assert Turns<T>(0) == [];
    } else {
      var t := Enqueue(max, s, rest[0]);
      RequeueIsPutBack(max, t.(phase := Requeuing(rest[1..])), rest[1..]);
      PutBackIgnoresPhase(max, t, rest[1..], Requeuing(rest[1..]));
    }
  }

  /** What putting a batch back changes. */
  lemma {:induction false} PutBackEffect<T>(max: int, s: State<T>, rest: seq<T>)
    ensures
      var t := PutBack(max, s, rest);
      && t.phase == Looping && t.buffer == EnqueueAll(s.buffer, max, rest)
      && t.arrived == s.arrived && t.inserted == s.inserted && t.shutdown == s.shutdown
    decreases |rest|
  {
    if |rest| > 0 {
      PutBackEffect(max, Enqueue(max, s, rest[0]), rest[1..]);
    }
  }

  lemma {:induction false} PutBackDrops<T>(max: int, s: State<T>, rest: seq<T>)
    requires Within(s.buffer, max)
    ensures PutBack(max, s, rest).dropped == s.dropped + Displaced(s.buffer, max, rest)
    decreases |rest|
  {
    if |rest| > 0 {
      DisplacedFirst(s.buffer, max, rest);
      PutBackDrops(max, Enqueue(max, s, rest[0]), rest[1..]);
    }
  }

  /** The steps of the main loop that put a failed batch back. */
  lemma RequeueRun<T>(max: int, s: State<T>, rest: seq<T>)
    requires s.phase == Requeuing(rest) && Within(s.buffer, max)
    ensures
      var t := Exec(max, s, Turns(|rest| + 1));
      && t.phase == Looping && t.buffer == EnqueueAll(s.buffer, max, rest)
      && t.arrived == s.arrived && t.inserted == s.inserted && t.shutdown == s.shutdown
      && t.dropped == s.dropped + Displaced(s.buffer, max, rest)
  {
    RequeueIsPutBack(max, s, rest);
    PutBackEffect(max, s, rest);
    PutBackDrops(max, s, rest);
  }

  /** A failed insert during which nothing arrives leaves the buffer as it was. */
  lemma FailedInsertRestores<T>(max: int, s: State<T>, batch: seq<T>)
    requires s.phase == Inserting(batch) && s.buffer == [] && Within(batch, max)
    ensures Exec(max, Step(max, s, Main(false)), Turns(|batch| + 1)).buffer == batch
  {
    EnqueueAllKeepsLast([], max, batch);
    assert [] + batch == batch;
    RequeueRun(max, Step(max, s, Main(false)), batch);
  }

  /** Entries that arrived during an insert that failed end up in front of its
      batch, and are dropped first when the two do not fit. */
  lemma FailedBatchGoesBehind<T>(max: int, s: State<T>, batch: seq<T>)
    requires s.phase == Inserting(batch) && Within(s.buffer, max) && Within(batch, max)
    ensures
      var t := Exec(max, Step(max, s, Main(false)), Turns(|batch| + 1));
      var excess := Excess(|s.buffer| + |batch|, max);
      && t.phase == Looping && t.shutdown == s.shutdown && t.arrived == s.arrived && t.inserted == s.inserted
      && excess <= |s.buffer| && t.buffer == s.buffer[excess..] + batch && t.dropped == s.dropped + s.buffer[..excess]
  {
    RequeueDropsNewest(s.buffer, max, batch);
    assert Displaced(s.buffer, max, batch) == s.buffer[..Excess(|s.buffer| + |batch|, max)];
    RequeueRun(max, Step(max, s, Main(false)), batch);
  }
}
