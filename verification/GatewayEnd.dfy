/** The end of the gateway: after the signal the main loop stops in a bounded number of
steps, and what it still held is inserted, or lost by the final insert. */
module GatewayEnd {
  import opened GatewayBuffer
  import opened GatewayRuns

  // ---- Stopping -----------------------------------------------------------

  /** How many steps the main loop still needs at most, once the signal is given. */
  function Left<T>(phase: Phase<T>): nat {
    match phase
    case Inserting(batch) => |batch| + 5
    case Requeuing(rest) => |rest| + 4
    case Looping => 3
    case FinalDrain => 2
    case FinalInsert(_) => 1
    case Stopped => 0
  }

  /** The steps of the main loop among `acts`. */
  function MainTurns<T>(acts: seq<Action<T>>): nat {
    if |acts| == 0 then 0 else (if acts[0].Main? then 1 else 0) + MainTurns(acts[1..])
  }

  lemma MainGetsOn<T>(max: int, s: State<T>, ok: bool)
    requires s.shutdown
    ensures
      var t := MainStep(max, s, ok);
      t.shutdown && (Left(t.phase) < Left(s.phase) || t.phase == s.phase == Stopped)
  {
  }

  lemma OthersWait<T>(max: int, s: State<T>, a: Action<T>)
    requires !a.Main?
    ensures Step(max, s, a).phase == s.phase && Step(max, s, a).shutdown == (s.shutdown || a.Signal?)
  {
  }

  /** Once the signal is given, so many steps of the main loop end it, whatever arrives
      and whatever the inserts return. */
  lemma {:induction false} StopsByTurns<T>(max: int, s: State<T>, acts: seq<Action<T>>)
    requires s.shutdown && MainTurns(acts) >= Left(s.phase)
    ensures Exec(max, s, acts).phase == Stopped
    decreases |acts|
  {
    if |acts| > 0 {
      match acts[0] {
        case Main(ok) => MainGetsOn(max, s, ok);
        case _ => OthersWait(max, s, acts[0]);
      }
      StopsByTurns(max, Step(max, s, acts[0]), acts[1..]);
    }
  }

  // ---- Nothing is left behind ---------------------------------------------

  /** The main loop is at its end, or gone. */
  predicate Ending<T>(phase: Phase<T>) {
    phase.FinalDrain? || phase.FinalInsert? || phase.Stopped?
  }

  /** What the final drain took out is all there was. */
  predicate Drained<T>(s: State<T>) {
    s.phase.FinalInsert? || s.phase.Stopped? ==> |s.buffer| == 0
  }

  predicate NoArrival<T>(acts: seq<Action<T>>) {
    forall i :: 0 <= i < |acts| ==> !acts[i].Arrive?
  }

  lemma EndsAfterSignal<T>(max: int, s: State<T>, a: Action<T>)
    requires Ending(s.phase) ==> s.shutdown
    ensures Ending(Step(max, s, a).phase) ==> Step(max, s, a).shutdown
  {
  }

  lemma {:induction false} RunsAreSignalled<T>(max: int, s: State<T>, acts: seq<Action<T>>)
    requires Ending(s.phase) ==> s.shutdown
    ensures Ending(Exec(max, s, acts).phase) ==> Exec(max, s, acts).shutdown
    decreases |acts|
  {
    if |acts| > 0 {
      EndsAfterSignal(max, s, acts[0]);
      RunsAreSignalled(max, Step(max, s, acts[0]), acts[1..]);
    }
  }

  lemma StepKeepsDrained<T>(max: int, s: State<T>, a: Action<T>)
    requires Drained(s) && !a.Arrive?
    ensures Drained(Step(max, s, a))
  {
  }

  lemma {:induction false} RunKeepsDrained<T>(max: int, s: State<T>, acts: seq<Action<T>>)
    requires Drained(s) && NoArrival(acts)
    ensures Drained(Exec(max, s, acts))
    decreases |acts|
  {
    if |acts| > 0 {
      StepKeepsDrained(max, s, acts[0]);
      RunKeepsDrained(max, Step(max, s, acts[0]), acts[1..]);
    }
  }

  lemma AllSettled<T>(s: State<T>)
    requires s.phase.Stopped? && |s.buffer| == 0
    ensures All(s) == s.inserted + s.dropped + s.lost
  {
  }

  /** When nothing arrives after the first signal, the main loop stops after at most
      `Left` steps, and then every entry was inserted, dropped and counted, or lost by the
      final insert. */
  lemma ShutdownSettlesAll<T>(max: int, before: seq<Action<T>>, after: seq<Action<T>>)
    requires !Exec(max, Init(), before).shutdown && NoArrival(after)
    ensures
      var s, t := Exec(max, Init(), before), Exec(max, Init(), before + ([Signal] + after));
      && (MainTurns(after) >= Left(s.phase) ==> t.phase == Stopped)
      && (t.phase == Stopped ==>
            |t.buffer| == 0 && multiset(t.arrived) == multiset(t.inserted + t.dropped + t.lost))
  {
    var s := Exec(max, Init<T>(), before);
    var acts := [Signal] + after;
    var signalled := Step(max, s, Signal);
    assert acts[1..] == after;
    assert Exec(max, s, acts) == Exec(max, signalled, after);
    ExecAppend(max, Init<T>(), before, acts);
    if MainTurns(after) >= Left(s.phase) {
      StopsByTurns(max, signalled, after);
    }
    RunsAreSignalled(max, Init<T>(), before);
    RunKeepsDrained(max, signalled, after);
    var t := Exec(max, Init<T>(), before + acts);
    EveryEntryIsAccountedFor(max, before + acts);
    if t.phase == Stopped {
      AllSettled(t);
    }
  }

  // ---- What is lost -------------------------------------------------------

  /** The final insert fails. */
  predicate LosesBatch<T>(s: State<T>, a: Action<T>) {
    a.Main? && !a.ok && s.phase.FinalInsert?
  }

  predicate FinalFails<T>(max: int, s: State<T>, acts: seq<Action<T>>)
    decreases |acts|
  {
    |acts| > 0 && (LosesBatch(s, acts[0]) || FinalFails(max, Step(max, s, acts[0]), acts[1..]))
  }

  predicate FinalBatch<T>(s: State<T>) {
    s.phase.FinalInsert? ==> |s.phase.batch| > 0
  }

  lemma StepLosesIff<T>(max: int, s: State<T>, a: Action<T>)
    requires FinalBatch(s)
    ensures FinalBatch(Step(max, s, a))
    ensures
      var t := Step(max, s, a);
      t.lost == (if LosesBatch(s, a) then s.lost + s.phase.batch else s.lost)
      && (LosesBatch(s, a) ==> |t.lost| > |s.lost|)
  {
  }

  lemma {:induction false} RunLosesIff<T>(max: int, s: State<T>, acts: seq<Action<T>>)
    requires FinalBatch(s)
    ensures |Exec(max, s, acts).lost| >= |s.lost|
    ensures |Exec(max, s, acts).lost| > |s.lost| <==> FinalFails(max, s, acts)
    decreases |acts|
  {
    if |acts| > 0 {
      StepLosesIff(max, s, acts[0]);
      RunLosesIff(max, Step(max, s, acts[0]), acts[1..]);
    }
  }

  /** Entries are lost exactly when the final insert fails. */
  lemma LostIff<T>(max: int, acts: seq<Action<T>>)
    ensures |Exec(max, Init(), acts).lost| > 0 <==> FinalFails(max, Init(), acts)
  {
    RunLosesIff(max, Init<T>(), acts);
  }
}
