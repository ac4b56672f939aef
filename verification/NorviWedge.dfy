/** What happens once the spool file holds more events than one pass sends. */
module NorviWedge {
  import opened NorviSpool

  /** The spool file is too long for one pass. */
  predicate Wedged(s: State) {
    |s.spool| > FLUSH_LIMIT
  }

  /** Whenever a run reads the spool file, it can open it. */
  predicate AlwaysReads(acts: seq<Action>) {
    forall i :: 0 <= i < |acts| && acts[i].Turn? ==> acts[i].env.opensRead
  }

  /** A connected turn in a wedged state sends the ten oldest events again, and
      leaves file and queue as they are. */
  lemma PassChangesNothing(s: State, env: Env)
    requires Wedged(s) && ConnectedNow(s, env) && env.opensRead
    ensures AfterTurn(s, env) == s.(published := s.published + s.spool[..FLUSH_LIMIT])
  {
  }

  /** The rest of the run sends only copies of the ten oldest events. */
  predicate OnlyRepeats(sent: seq<nat>, oldest: seq<nat>) {
    forall i :: 0 <= i < |sent| ==> sent[i] in oldest
  }

  lemma StepKeepsFile(s: State, a: Action)
    requires Wedged(s)
    ensures s.spool <= Step(s, a).spool
  {
    if a.Turn? {
      if ConnectedNow(s, a.env) {
        ConnectedEffect(s, a.env);
      } else {
        OfflineEffect(s, a.env);
      }
    }
  }

  /** The spool file of a wedged node never shrinks again, whatever happens. */
  lemma {:induction false} WedgedForGood(s: State, acts: seq<Action>)
    requires Wedged(s)
    ensures s.spool <= Exec(s, acts).spool
    decreases |acts|
  {
    if acts != [] {
      StepKeepsFile(s, acts[0]);
      WedgedForGood(Step(s, acts[0]), acts[1..]);
    }
  }

  /** Online, except that nothing is spooled. */
  const DRAINING := Env(true, true, true, false, true, true, true, false)

  lemma {:induction false} Drains(s: State, n: nat)
    requires !Wedged(s)
    requires n >= match s.connection
                  case Disconnected => 5
                  case ConnectingWifi => 4
                  case SyncingTime => 3
                  case ConnectingMqtt => 2
                  case Connected => 1
    ensures Exec(s, seq(n, i => Turn(DRAINING))).spool == []
    decreases n
  {
    var acts := seq(n, i => Turn(DRAINING));
    var t := AfterTurn(s, DRAINING);
    assert acts[1..] == seq(n - 1, i => Turn(DRAINING));
    if s.connection.Connected? {
      ConnectedEffect(s, DRAINING);
      StaysDrained(t, n - 1);
    } else {
      SwitchKeepsEvents(s, DRAINING);
      Drains(t, n - 1);
    }
  }

  lemma {:induction false} StaysDrained(s: State, n: nat)
    requires s.connection.Connected? && s.spool == []
    ensures Exec(s, seq(n, i => Turn(DRAINING))).spool == []
    decreases n
  {
    if n > 0 {
      var acts := seq(n, i => Turn(DRAINING));
      assert acts[1..] == seq(n - 1, i => Turn(DRAINING));
      ConnectedEffect(s, DRAINING);
      StaysDrained(AfterTurn(s, DRAINING), n - 1);
    }
  }

  /** The spool file can ever be emptied again exactly when it holds no more than
      one pass sends. */
  lemma CanDrainIff(s: State)
    ensures (exists acts :: Exec(s, acts).spool == []) <==> !Wedged(s)
  {
    if Wedged(s) {
      forall acts ensures Exec(s, acts).spool != [] {
        WedgedForGood(s, acts);
      }
    } else {
      Drains(s, 5);
    }
  }

  /** As long as the file can be read, a wedged node publishes nothing but its ten
      oldest events, again and again. */
  lemma {:induction false} WedgedRepeats(s: State, acts: seq<Action>)
    requires Wedged(s) && AlwaysReads(acts)
    ensures
      var t := Exec(s, acts);
      s.published <= t.published && OnlyRepeats(t.published[|s.published|..], s.spool[..FLUSH_LIMIT])
    decreases |acts|
  {
    if acts != [] {
      var t := Step(s, acts[0]);
      StepKeepsFile(s, acts[0]);
      if acts[0].Turn? {
        if ConnectedNow(s, acts[0].env) {
          PassChangesNothing(s, acts[0].env);
        } else {
          OfflineEffect(s, acts[0].env);
        }
      }
      assert t.spool[..FLUSH_LIMIT] == s.spool[..FLUSH_LIMIT];
      WedgedRepeats(t, acts[1..]);
      SentSoFar(s.published, t.published, Exec(s, acts).published, s.spool[..FLUSH_LIMIT]);
    }
  }

  lemma SentSoFar(before: seq<nat>, after: seq<nat>, end: seq<nat>, oldest: seq<nat>)
    requires after == before || after == before + oldest
    requires after <= end && OnlyRepeats(end[|after|..], oldest)
    ensures before <= end && OnlyRepeats(end[|before|..], oldest)
  {
  }

  const ONLINE := Env(true, true, true, false, true, true, true, true)

  /** Two passes over a file that is too long publish its first event twice. */
  lemma TwoPassesRepeat(s: State)
    requires Wedged(s) && s.connection.Connected?
    ensures
      var t := AfterTurn(AfterTurn(s, ONLINE), ONLINE);
      Wedged(t) && !Increasing(t.published, t.counter)
  {
    PassChangesNothing(s, ONLINE);
    var once := AfterTurn(s, ONLINE);
    PassChangesNothing(once, ONLINE);
    var twice := AfterTurn(once, ONLINE);
    assert twice.published[|s.published|] == twice.published[|once.published|] == s.spool[0];
  }

  // ---- Runs from boot that go wrong ---------------------------------------

  const OFFLINE := Env(false, false, false, false, false, false, true, true)

  ghost predicate Reachable(s: State) {
    exists acts :: Exec(Init(), acts) == s
  }

  lemma {:induction false} ExecAppend(s: State, acts: seq<Action>, a: Action)
    ensures Exec(s, acts + [a]) == Step(Exec(s, acts), a)
    decreases |acts|
  {
    if acts == [] {
      assert [a][1..] == [];
      assert acts + [a] == [a];
      assert Exec(s, [a]) == Exec(Step(s, a), []);
    } else {
      assert (acts + [a])[1..] == acts[1..] + [a];
      ExecAppend(Step(s, acts[0]), acts[1..], a);
    }
  }

  lemma ReachStep(s: State, a: Action)
    requires Reachable(s)
    ensures Reachable(Step(s, a))
  {
    var acts :| Exec(Init(), acts) == s;
    ExecAppend(Init(), acts, a);
  }

  /** Connected once to set the clock, then offline, with `n` events spooled. */
  predicate Offline(s: State, n: nat) {
    s.connection.Disconnected? && s.ntpSynced && s.queue == [] && |s.spool| == n
  }

  lemma {:induction false} SpoolGrowsTo(n: nat) returns (s: State)
    ensures Reachable(s) && Offline(s, n)
    decreases n
  {
    if n == 0 {
      assert Exec(Init(), []) == Init();
      var a := Step(Init(), Turn(ONLINE));
      ReachStep(Init(), Turn(ONLINE));
      var b := Step(a, Turn(ONLINE));
      ReachStep(a, Turn(ONLINE));
      var c := Step(b, Turn(ONLINE));
      ReachStep(b, Turn(ONLINE));
      s := Step(c, Turn(OFFLINE));
      ReachStep(c, Turn(OFFLINE));
    } else {
      var shorter := SpoolGrowsTo(n - 1);
      var pulsed := Step(shorter, Pulse);
      ReachStep(shorter, Pulse);
      s := Step(pulsed, Turn(OFFLINE));
      ReachStep(pulsed, Turn(OFFLINE));
    }
  }

  /** Back online, with the events still spooled. */
  lemma Reconnect(s: State, n: nat) returns (t: State)
    requires Reachable(s) && Offline(s, n)
    ensures Reachable(t) && t.connection.Connected? && t.queue == [] && t.spool == s.spool
  {
    var a := Step(s, Turn(ONLINE));
    ReachStep(s, Turn(ONLINE));
    var b := Step(a, Turn(ONLINE));
    ReachStep(a, Turn(ONLINE));
    var c := Step(b, Turn(ONLINE));
    ReachStep(b, Turn(ONLINE));
    t := Step(c, Turn(ONLINE));
    ReachStep(c, Turn(ONLINE));
  }

  /** Eleven events while a node is offline wedge it; once it is connected again,
      two passes publish their first event twice. */
  lemma WedgedNodePublishesTwice() returns (s: State)
    ensures Reachable(s) && Wedged(s) && !Increasing(s.published, s.counter)
  {
    var offline := SpoolGrowsTo(FLUSH_LIMIT + 1);
    var online := Reconnect(offline, FLUSH_LIMIT + 1);
    var once := AfterTurn(online, ONLINE);
    ReachStep(online, Turn(ONLINE));
    s := AfterTurn(once, ONLINE);
    ReachStep(once, Turn(ONLINE));
    TwoPassesRepeat(online);
  }

  /** Online, except that the spool file cannot be opened for reading. */
  const UNREADABLE := Env(true, true, true, false, true, true, false, true)

  /** One event spooled, one live event and one failed open: the live event is
      published first, the spooled one after it. */
  lemma FailedOpenSwapsEvents() returns (s: State)
    ensures Reachable(s) && !Wedged(s) && !Increasing(s.published, s.counter)
  {
    var offline := SpoolGrowsTo(1);
    var online := Reconnect(offline, 1);
    ReachWaiting(online);
    var pulsed := Step(online, Pulse);
    ReachStep(online, Pulse);
    var ahead := AfterTurn(pulsed, UNREADABLE);
    ReachStep(pulsed, Turn(UNREADABLE));
    s := AfterTurn(ahead, ONLINE);
    ReachStep(ahead, Turn(ONLINE));
    var n := |online.published|;
    assert s.published[n] == online.counter + 1 && s.published[n + 1] == online.spool[0];
    assert (online.spool + online.queue)[0] == online.spool[0];
  }

  lemma ReachWaiting(s: State)
    requires Reachable(s)
    ensures Waiting(s)
  {
    var acts :| Exec(Init(), acts) == s;
    RunKeepsWaiting(Init(), acts);
  }
}
