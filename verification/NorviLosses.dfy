/** When the Norvi node loses events: exactly the steps that throw one away. */
module NorviLosses {
  import opened NorviSpool

  /** Event `e` was handed to the broker, or is in the spool file or the queue. */
  predicate Held(s: State, e: nat) {
    e in s.published || e in s.spool || e in s.queue
  }

  /** So is every event counted since boot. */
  predicate AllHeld(s: State) {
    forall e: nat :: 1 <= e <= s.counter ==> Held(s, e)
  }

  /** A pulse meets a full queue, or an offline turn takes an event that it cannot
      spool: the clock was never set, or the file does not open. */
  predicate Loses(s: State, a: Action) {
    match a
    case Pulse => |s.queue| >= QUEUE_LENGTH
    case Turn(env) =>
      var t := SwitchTurn(Checked(s, env), env);
      !t.connection.Connected? && t.queue != [] && !(t.ntpSynced && env.opensAppend)
  }

  predicate NoneLost(s: State, acts: seq<Action>)
    decreases |acts|
  {
    acts == [] || (!Loses(s, acts[0]) && NoneLost(Step(s, acts[0]), acts[1..]))
  }

  /** Events are numbered from 1 and leave in order: those published are older than
      those in the queue. */
  predicate Numbered(s: State) {
    && Waiting(s)
    && (forall i :: 0 <= i < |s.queue| ==> s.queue[i] >= 1)
    && (forall e :: e in s.published ==> e <= s.counter)
    && (forall e, i :: e in s.published && 0 <= i < |s.queue| ==> e < s.queue[i])
  }

  lemma SpoolIsOlder(s: State, e: nat, i: nat)
    requires Waiting(s) && e in s.spool && i < |s.queue|
    ensures e < s.queue[i]
  {
    var j :| 0 <= j < |s.spool| && s.spool[j] == e;
    assert (s.spool + s.queue)[j] == e && (s.spool + s.queue)[|s.spool| + i] == s.queue[i];
  }

  lemma SpoolIsCounted(s: State, e: nat)
    requires Waiting(s) && e in s.spool
    ensures e <= s.counter
  {
    var j :| 0 <= j < |s.spool| && s.spool[j] == e;
    assert (s.spool + s.queue)[j] == e;
  }

  lemma QueueIsOrdered(s: State, i: nat)
    requires Waiting(s) && i < |s.queue|
    ensures s.queue[i] <= s.counter && (i > 0 ==> s.queue[0] < s.queue[i])
  {
    var all := s.spool + s.queue;
    assert all[|s.spool|] == s.queue[0] && all[|s.spool| + i] == s.queue[i];
  }

  // ---- One step -----------------------------------------------------------

  lemma OfflineExactly(s: State, env: Env)
    requires !ConnectedNow(s, env)
    ensures
      var t := AfterTurn(s, env);
      && t.published == s.published && t.counter == s.counter
      && (if Loses(s, Turn(env)) then s.queue != [] && t.queue == s.queue[1..] && t.spool == s.spool
          else || (t.queue == s.queue && t.spool == s.spool)
               || (s.queue != [] && t.queue == s.queue[1..] && t.spool == s.spool + [s.queue[0]]))
  {
    SwitchKeepsEvents(Checked(s, env), env);
  }

  /** A connected turn publishes some spooled events, and the head of the queue or not. */
  lemma ConnectedExactly(s: State, env: Env)
    requires ConnectedNow(s, env)
    ensures !Loses(s, Turn(env))
    ensures
      var t := AfterTurn(s, env);
      && t.counter == s.counter && s.published <= t.published
      && (t.spool == s.spool || (t.spool == [] && forall e :: e in s.spool ==> e in t.published))
      && (t.queue == s.queue || (s.queue != [] && t.queue == s.queue[1..] && s.queue[0] in t.published))
      && (forall e :: e in t.published ==>
            || e in s.published || e in s.spool
            || (s.queue != [] && t.queue == s.queue[1..] && e == s.queue[0]))
  {
    ConnectedEffect(s, env);
  }

  /** A step that loses no event keeps each, and the new one. */
  lemma StepHolds(s: State, a: Action, e: nat)
    requires Numbered(s) && !Loses(s, a)
    requires Held(s, e) || (a.Pulse? && e == s.counter + 1)
    ensures Held(Step(s, a), e)
  {
    var t := Step(s, a);
    if a.Turn? {
      if ConnectedNow(s, a.env) {
        ConnectedExactly(s, a.env);
      } else {
        OfflineExactly(s, a.env);
      }
      if e in s.queue && e !in t.queue {
        assert s.queue == [s.queue[0]] + s.queue[1..];
      }
    }
  }

  lemma PulseKeepsNumbered(s: State)
    requires Numbered(s)
    ensures Numbered(AfterPulse(s))
  {
    PulseKeeps(s);
  }

  lemma PublishedIsOlder(s: State, env: Env, e: nat)
    requires Numbered(s) && e in AfterTurn(s, env).published
    ensures
      var t := AfterTurn(s, env);
      e <= t.counter && forall i :: 0 <= i < |t.queue| ==> e < t.queue[i]
  {
    var t := AfterTurn(s, env);
    if ConnectedNow(s, env) {
      ConnectedExactly(s, env);
    } else {
      OfflineExactly(s, env);
    }
    if e in s.spool {
      SpoolIsCounted(s, e);
    } else if e !in s.published {
      QueueIsOrdered(s, 0);
    }
    forall i | 0 <= i < |t.queue| ensures e < t.queue[i] {
      var j := if t.queue == s.queue then i else i + 1;
      assert t.queue[i] == s.queue[j];
      if e in s.spool {
        SpoolIsOlder(s, e, j);
      } else if e !in s.published {
        QueueIsOrdered(s, j);
      }
    }
  }

  lemma TurnKeepsNumbered(s: State, env: Env)
    requires Numbered(s)
    ensures Numbered(AfterTurn(s, env))
  {
    var t := AfterTurn(s, env);
    TurnKeepsWaiting(s, env);
    if ConnectedNow(s, env) {
      ConnectedExactly(s, env);
    } else {
      OfflineExactly(s, env);
    }
    forall e | e in t.published ensures e <= t.counter && forall i :: 0 <= i < |t.queue| ==> e < t.queue[i] {
      PublishedIsOlder(s, env, e);
    }
  }

  /** The event a losing step loses. */
  function LostBy(s: State, a: Action): nat
    requires Loses(s, a)
  {
    match a
    case Pulse => s.counter + 1
    case Turn(env) => SwitchTurn(Checked(s, env), env).queue[0]
  }

  lemma TurnLoses(s: State, env: Env)
    requires Numbered(s) && Loses(s, Turn(env))
    ensures
      var e := LostBy(s, Turn(env));
      1 <= e <= s.counter && AfterTurn(s, env).counter == s.counter && !Held(AfterTurn(s, env), e)
  {
    if ConnectedNow(s, env) {
      ConnectedExactly(s, env);
    } else {
      OfflineExactly(s, env);
      SwitchKeepsEvents(Checked(s, env), env);
      var e, t := LostBy(s, Turn(env)), AfterTurn(s, env);
      assert e == s.queue[0];
      QueueIsOrdered(s, 0);
      if e in s.spool {
        SpoolIsOlder(s, e, 0);
      }
      if e in t.queue {
        var i :| 0 <= i < |t.queue| && t.queue[i] == e;
        QueueIsOrdered(s, i + 1);
      }
    }
  }

  lemma StepLoses(s: State, a: Action)
    requires Numbered(s) && Loses(s, a)
    ensures 1 <= LostBy(s, a) <= Step(s, a).counter && !Held(Step(s, a), LostBy(s, a))
  {
    var e := LostBy(s, a);
    if e in s.spool {
      SpoolIsCounted(s, e);
    }
    if a.Turn? {
      TurnLoses(s, a.env);
    } else if e in s.queue {
      var i :| 0 <= i < |s.queue| && s.queue[i] == e;
      QueueIsOrdered(s, i);
    }
  }

  /** Nothing lost comes back. */
  lemma StepKeepsMissing(s: State, a: Action, e: nat)
    requires Numbered(s) && e <= s.counter && !Held(s, e)
    ensures e <= Step(s, a).counter && !Held(Step(s, a), e)
  {
    if a.Turn? {
      if ConnectedNow(s, a.env) {
        ConnectedExactly(s, a.env);
      } else {
        OfflineExactly(s, a.env);
      }
    }
  }

  // ---- Whole runs ---------------------------------------------------------

  lemma StepKeepsNumbered(s: State, a: Action)
    requires Numbered(s)
    ensures Numbered(Step(s, a))
  {
    match a
    case Pulse => PulseKeepsNumbered(s);
    case Turn(env) => TurnKeepsNumbered(s, env);
  }

  lemma {:induction false} RunKeepsMissing(s: State, acts: seq<Action>, e: nat)
    requires Numbered(s) && 1 <= e <= s.counter && !Held(s, e)
    ensures !AllHeld(Exec(s, acts))
    decreases |acts|
  {
    if acts != [] {
      StepKeepsMissing(s, acts[0], e);
      StepKeepsNumbered(s, acts[0]);
      RunKeepsMissing(Step(s, acts[0]), acts[1..], e);
    }
  }

  lemma CounterMoves(s: State, a: Action)
    ensures Step(s, a).counter == s.counter + if a.Pulse? then 1 else 0
  {
    if a.Turn? {
      if ConnectedNow(s, a.env) {
        ConnectedExactly(s, a.env);
      } else {
        OfflineExactly(s, a.env);
      }
    }
  }

  lemma StepHoldsAll(s: State, a: Action)
    requires Numbered(s) && AllHeld(s) && !Loses(s, a)
    ensures AllHeld(Step(s, a))
  {
    forall e: nat | 1 <= e <= Step(s, a).counter ensures Held(Step(s, a), e) {
      CounterMoves(s, a);
      StepHolds(s, a, e);
    }
  }

  lemma {:induction false} RunHoldsIff(s: State, acts: seq<Action>)
    requires Numbered(s) && AllHeld(s)
    ensures AllHeld(Exec(s, acts)) <==> NoneLost(s, acts)
    decreases |acts|
  {
    if acts != [] {
      var t := Step(s, acts[0]);
      StepKeepsNumbered(s, acts[0]);
      if Loses(s, acts[0]) {
        StepLoses(s, acts[0]);
        RunKeepsMissing(t, acts[1..], LostBy(s, acts[0]));
      } else {
        StepHoldsAll(s, acts[0]);
        RunHoldsIff(t, acts[1..]);
      }
    }
  }

  /** After a run from boot every event counted was handed to the broker, or is in the
      spool file or the queue, exactly when no step of the run loses one. */
  lemma NoneLostIff(acts: seq<Action>)
    ensures AllHeld(Exec(Init(), acts)) <==> NoneLost(Init(), acts)
  {
    RunHoldsIff(Init(), acts);
  }

  /** An event counted before the first turn after boot is lost in that turn. */
  lemma EarlyEventIsLost(env: Env)
    ensures Exec(Init(), [Pulse, Turn(env)]).counter == 1 && !AllHeld(Exec(Init(), [Pulse, Turn(env)]))
  {
    var acts := [Pulse, Turn(env)];
    var s := AfterPulse(Init());
    assert acts[1..] == [Turn(env)] && acts[1..][1..] == [];
    assert s.queue == [1];
    assert Exec(s, [Turn(env)]) == AfterTurn(s, env);
    assert !Held(AfterTurn(s, env), 1);
  }
}
