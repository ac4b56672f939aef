/** The Norvi node's networking loop: events from the interrupt go through a queue,
and through a flash file while the node is offline, to the broker.  The file's
life within one boot, with event numbers that do not wrap. */
module NorviSpool {

  const QUEUE_LENGTH: nat := 50
  const FLUSH_LIMIT: nat := 10

  datatype Connection = Disconnected | ConnectingWifi | SyncingTime | ConnectingMqtt | Connected

  /** What one turn of the loop finds: Wi-Fi and broker connections, elapsed
      timers, the results of connecting and of opening the spool file. */
  datatype Env = Env(
    wifi: bool,
    wifiWhileSyncing: bool,
    retryDue: bool,
    timedOut: bool,
    mqttConnects: bool,
    mqttUp: bool,
    opensRead: bool,
    opensAppend: bool)

  /** `published` lists the events handed to the broker, in order. */
  datatype State = State(
    connection: Connection,
    ntpSynced: bool,
    counter: nat,
    queue: seq<nat>,
    spool: seq<nat>,
    published: seq<nat>)

  /** A debounced pulse, or one turn of the loop. */
  datatype Action = Pulse | Turn(env: Env)

  function Init(): State {
    State(Disconnected, false, 0, [], [], [])
  }

  /** The interrupt: an event that finds the queue full is lost. */
  function AfterPulse(s: State): State {
    s.(counter := s.counter + 1,
       queue := if |s.queue| < QUEUE_LENGTH then s.queue + [s.counter + 1] else s.queue)
  }

  function FirstTen(spool: seq<nat>): seq<nat> {
    if |spool| <= FLUSH_LIMIT then spool else spool[..FLUSH_LIMIT]
  }

  /** The spool file after a pass: the file is opened at its start each time, so it
      goes only if the pass got to its end. */
  function AfterPass(spool: seq<nat>): seq<nat> {
    if |spool| <= FLUSH_LIMIT then [] else spool
  }

  /** The loop that flushes the spool file, one turn's worth of it. */
  method FlushPass(spool: seq<nat>) returns (sent: seq<nat>, left: seq<nat>, pending: bool)
    ensures sent == FirstTen(spool) && left == AfterPass(spool)
    ensures pending <==> left != []
  {
    sent := [];
    var position := 0;
    while position < |spool| && |sent| < FLUSH_LIMIT
      invariant position <= |spool| && |sent| == position <= FLUSH_LIMIT && sent == spool[..position]
    {
      sent := sent + [spool[position]];
      position := position + 1;
    }
    if position == |spool| {
      left, pending := [], false;
    } else {
      left, pending := spool, true;
    }
  }

  /** Publish the next event of the queue, if there is one. */
  function PublishLive(s: State): State {
    if s.queue == [] then s else s.(published := s.published + [s.queue[0]], queue := s.queue[1..])
  }

  /** A connected turn: first the spool file, then, unless some of it is left, one
      event of the queue. */
  function ConnectedTurn(s: State, env: Env): State {
    if s.spool == [] || !env.opensRead then PublishLive(s)
    else
      var t := s.(published := s.published + FirstTen(s.spool), spool := AfterPass(s.spool));
      if t.spool == [] then PublishLive(t) else t
  }

  /** The connection state machine; only a connected turn touches the events. */
  function SwitchTurn(s: State, env: Env): State {
    match s.connection
    case Disconnected => if env.retryDue then s.(connection := ConnectingWifi) else s
    case ConnectingWifi =>
      if env.wifi then s.(connection := SyncingTime)
      else if env.timedOut then s.(connection := Disconnected)
      else s
    case SyncingTime =>
      if env.wifiWhileSyncing then s.(ntpSynced := true, connection := ConnectingMqtt)
      else s.(connection := Disconnected)
    case ConnectingMqtt => if env.retryDue && env.mqttConnects then s.(connection := Connected) else s
    case Connected => if env.mqttUp then ConnectedTurn(s, env) else s.(connection := ConnectingMqtt)
  }

  /** An offline turn takes one event off the queue, and spools it if the clock was
      ever set and the file can be opened. */
  function OfflineTurn(s: State, env: Env): State {
    if s.connection.Connected? || s.queue == [] then s
    else s.(queue := s.queue[1..],
            spool := if s.ntpSynced && env.opensAppend then s.spool + [s.queue[0]] else s.spool)
  }

  /** The check for a lost Wi-Fi connection that starts a turn. */
  function Checked(s: State, env: Env): State {
    if !env.wifi && !s.connection.Disconnected? && !s.connection.ConnectingWifi? then s.(connection := Disconnected)
    else s
  }

  function AfterTurn(s: State, env: Env): State {
    OfflineTurn(SwitchTurn(Checked(s, env), env), env)
  }

  /** A turn ends online exactly when it found Wi-Fi and the broker, either still
      connected or just now; a broker that refuses leaves the node offline. */
  lemma OnlineIff(s: State, env: Env)
    ensures AfterTurn(s, env).connection.Connected? <==>
      && env.wifi
      && ((s.connection.Connected? && env.mqttUp)
          || (s.connection.ConnectingMqtt? && env.retryDue && env.mqttConnects))
  {
  }

  /** How a turn ends offline, by where it began: whatever comes after a Wi-Fi connection
      falls back to the start when Wi-Fi is lost, and to the broker's step when only the
      broker is. */
  lemma OfflineIff(s: State, env: Env)
    ensures
      var c, t := s.connection, AfterTurn(s, env).connection;
      && (t.Disconnected? <==>
            || (c.Disconnected? && !env.retryDue)
            || (c.ConnectingWifi? && !env.wifi && env.timedOut)
            || (!c.Disconnected? && !c.ConnectingWifi? && !env.wifi && !env.retryDue)
            || (c.SyncingTime? && env.wifi && !env.wifiWhileSyncing))
      && (t.ConnectingWifi? <==>
            || (c.Disconnected? && env.retryDue)
            || (c.ConnectingWifi? && !env.wifi && !env.timedOut)
            || (!c.Disconnected? && !c.ConnectingWifi? && !env.wifi && env.retryDue))
      && (t.SyncingTime? <==> c.ConnectingWifi? && env.wifi)
      && (t.ConnectingMqtt? <==>
            && env.wifi
            && (|| (c.SyncingTime? && env.wifiWhileSyncing)
                || (c.ConnectingMqtt? && !(env.retryDue && env.mqttConnects))
                || (c.Connected? && !env.mqttUp)))
  {
  }

  /** The clock is set exactly by a turn that waits for the time and keeps Wi-Fi. */
  lemma ClockSetIff(s: State, env: Env)
    ensures AfterTurn(s, env).ntpSynced <==>
      s.ntpSynced || (s.connection.SyncingTime? && env.wifi && env.wifiWhileSyncing)
  {
  }

  function Step(s: State, a: Action): State {
    match a
    case Pulse => AfterPulse(s)
    case Turn(env) => AfterTurn(s, env)
  }

  function Exec(s: State, acts: seq<Action>): State
    decreases |acts|
  {
    if acts == [] then s else Exec(Step(s, acts[0]), acts[1..])
  }

  // ---- Order --------------------------------------------------------------

  predicate Increasing(events: seq<nat>, last: nat) {
    && (forall i, j :: 0 <= i < j < |events| ==> events[i] < events[j])
    && forall i :: 0 <= i < |events| ==> events[i] <= last
  }

  /** The events still on the node are in order. */
  predicate Waiting(s: State) {
    Increasing(s.spool + s.queue, s.counter)
  }

  /** All events are in order, those already published first. */
  predicate AllOrdered(s: State) {
    Increasing(s.published + s.spool + s.queue, s.counter)
  }

  lemma IncreasingAppend(events: seq<nat>, last: nat)
    requires Increasing(events, last)
    ensures Increasing(events + [last + 1], last + 1)
  {
  }

  lemma PulseKeeps(s: State)
    ensures Waiting(s) ==> Waiting(AfterPulse(s))
    ensures AllOrdered(s) ==> AllOrdered(AfterPulse(s))
  {
    var t := AfterPulse(s);
    if |s.queue| < QUEUE_LENGTH {
      assert s.spool + t.queue == (s.spool + s.queue) + [s.counter + 1];
      assert s.published + s.spool + t.queue == (s.published + s.spool + s.queue) + [s.counter + 1];
      if Waiting(s) {
        IncreasingAppend(s.spool + s.queue, s.counter);
      }
      if AllOrdered(s) {
        IncreasingAppend(s.published + s.spool + s.queue, s.counter);
      }
    }
  }

  /** Taking events out of an ordered list leaves it ordered. */
  lemma IncreasingDrop(a: seq<nat>, b: seq<nat>, c: seq<nat>, last: nat)
    requires Increasing(a + b + c, last)
    ensures Increasing(a + c, last)
  {
    var s, t := a + b + c, a + c;
    forall i, j | 0 <= i < j < |t| ensures t[i] < t[j] {
      var i', j' := if i < |a| then i else i + |b|, if j < |a| then j else j + |b|;
      assert t[i] == s[i'] && t[j] == s[j'];
    }
    forall i | 0 <= i < |t| ensures t[i] <= last {
      var i' := if i < |a| then i else i + |b|;
      assert t[i] == s[i'];
    }
  }

  // ---- What a turn does to the events -------------------------------------

  predicate ConnectedNow(s: State, env: Env) {
    Checked(s, env).connection.Connected? && env.mqttUp
  }

  predicate SameEvents(s: State, t: State) {
    t.published == s.published && t.counter == s.counter && t.queue == s.queue && t.spool == s.spool
  }

  lemma SwitchKeepsEvents(s: State, env: Env)
    requires !(s.connection.Connected? && env.mqttUp)
    ensures SameEvents(s, SwitchTurn(s, env))
  {
  }

  /** A turn that ends offline takes the oldest event off the queue, into the spool file
      if the clock was set and the file opens, and publishes nothing. */
  lemma OfflineSpools(s: State, env: Env)
    requires !AfterTurn(s, env).connection.Connected?
    ensures
      var t := AfterTurn(s, env);
      && t.published == s.published && t.counter == s.counter
      && t.queue == (if s.queue == [] then [] else s.queue[1..])
      && t.spool == (if s.queue != [] && t.ntpSynced && env.opensAppend then s.spool + [s.queue[0]] else s.spool)
  {
    SwitchKeepsEvents(Checked(s, env), env);
  }

  /** A turn that is not connected publishes nothing and takes at most the head of
      the queue, into the spool or nowhere. */
  lemma OfflineEffect(s: State, env: Env)
    requires !ConnectedNow(s, env)
    ensures
      var t := AfterTurn(s, env);
      && t.published == s.published && t.counter == s.counter
      && ((t.queue == s.queue && t.spool == s.spool)
          || (s.queue != [] && t.queue == s.queue[1..] && (t.spool == s.spool || t.spool == s.spool + [s.queue[0]])))
  {
    SwitchKeepsEvents(Checked(s, env), env);
  }

  lemma ConnectedEffect(s: State, env: Env)
    requires ConnectedNow(s, env)
    ensures AfterTurn(s, env) == ConnectedTurn(s, env)
  {
  }

  lemma HeadMoves(a: seq<nat>, queue: seq<nat>)
    requires queue != []
    ensures a + [queue[0]] + queue[1..] == a + queue
  {
  }

  lemma PublishKeepsOrder(s: State)
    requires s.spool == [] && AllOrdered(s)
    ensures AllOrdered(PublishLive(s))
  {
    if s.queue != [] {
      HeadMoves(s.published, s.queue);
      assert s.published + s.spool + s.queue == s.published + s.queue;
      assert s.published + [s.queue[0]] + s.spool + s.queue[1..] == s.published + s.queue;
    }
  }

  /** A connected turn that meets spooled events opens the file and gets to its end;
      or it cannot open it, and has no live event to send ahead of it. */
  predicate MayPublish(s: State, env: Env) {
    ConnectedNow(s, env) && s.spool != [] ==>
      if env.opensRead then |s.spool| <= FLUSH_LIMIT else s.queue == []
  }

  lemma TurnKeepsOrder(s: State, env: Env)
    requires AllOrdered(s) && MayPublish(s, env)
    ensures AllOrdered(AfterTurn(s, env))
  {
    if ConnectedNow(s, env) {
      ConnectedEffect(s, env);
      var flushed := s.spool == [] || env.opensRead;
      var t := if flushed then s.(published := s.published + s.spool, spool := []) else s;
      assert t.published + t.spool + t.queue == s.published + s.spool + s.queue;
      if flushed {
        assert s.published + [] == s.published;
        PublishKeepsOrder(t);
      }
    } else {
      OfflineEffect(s, env);
      OfflineKeeps(s.published + s.spool, s.queue, s.counter);
      if s.queue != [] {
        assert s.published + (s.spool + [s.queue[0]]) + s.queue[1..]
          == s.published + s.spool + [s.queue[0]] + s.queue[1..];
      }
    }
  }

  /** Sending the first spooled events again, or a live one ahead of them, puts two
      events out of order. */
  lemma TurnBreaksOrder(s: State, env: Env)
    requires AllOrdered(s) && !MayPublish(s, env)
    ensures !AllOrdered(AfterTurn(s, env))
  {
    ConnectedEffect(s, env);
    var t := AfterTurn(s, env);
    var all, n := t.published + t.spool + t.queue, |s.published|;
    if env.opensRead {
      assert all[n] == s.spool[0] == all[n + FLUSH_LIMIT];
    } else {
      var before := s.published + s.spool + s.queue;
      assert before[n] == s.spool[0] && before[n + |s.spool|] == s.queue[0];
      assert all[n] == s.queue[0] && all[n + 1] == s.spool[0];
    }
  }

  /** Exactly which turns keep the events in one order. */
  lemma TurnKeepsOrderIff(s: State, env: Env)
    requires AllOrdered(s)
    ensures AllOrdered(AfterTurn(s, env)) <==> MayPublish(s, env)
  {
    if MayPublish(s, env) {
      TurnKeepsOrder(s, env);
    } else {
      TurnBreaksOrder(s, env);
    }
  }

  lemma OfflineKeeps(front: seq<nat>, queue: seq<nat>, last: nat)
    requires Increasing(front + queue, last)
    ensures queue != [] ==> Increasing(front + queue[1..], last) && Increasing(front + [queue[0]] + queue[1..], last)
  {
    if queue != [] {
      HeadMoves(front, queue);
      IncreasingDrop(front, [queue[0]], queue[1..], last);
    }
  }

  lemma DropFront(front: seq<nat>, rest: seq<nat>, last: nat)
    requires Increasing(front + rest, last)
    ensures Increasing(rest, last)
  {
    assert [] + front + rest == front + rest && [] + rest == rest;
    IncreasingDrop([], front, rest, last);
  }

  lemma ConnectedKeepsWaiting(s: State, env: Env)
    requires Waiting(s)
    ensures Waiting(ConnectedTurn(s, env))
  {
    DropFront(s.spool, s.queue, s.counter);
    OfflineKeeps(s.spool, s.queue, s.counter);
    if s.queue != [] {
      assert s.queue == [s.queue[0]] + s.queue[1..];
      DropFront([s.queue[0]], s.queue[1..], s.counter);
    }
    assert [] + s.queue == s.queue && (s.queue != [] ==> [] + s.queue[1..] == s.queue[1..]);
  }

  lemma TurnKeepsWaiting(s: State, env: Env)
    requires Waiting(s)
    ensures Waiting(AfterTurn(s, env))
  {
    if ConnectedNow(s, env) {
      ConnectedEffect(s, env);
      ConnectedKeepsWaiting(s, env);
    } else {
      OfflineEffect(s, env);
      OfflineKeeps(s.spool, s.queue, s.counter);
    }
  }

  /** Every connected turn of the run may publish. */
  predicate AllMayPublish(s: State, acts: seq<Action>)
    decreases |acts|
  {
    acts == [] ||
    ((acts[0].Turn? ==> MayPublish(s, acts[0].env)) && AllMayPublish(Step(s, acts[0]), acts[1..]))
  }

  /** The events are in order in every state of the run. */
  predicate OrderedThroughout(s: State, acts: seq<Action>)
    decreases |acts|
  {
    AllOrdered(s) && (acts == [] || OrderedThroughout(Step(s, acts[0]), acts[1..]))
  }

  lemma {:induction false} RunKeepsWaiting(s: State, acts: seq<Action>)
    requires Waiting(s)
    ensures Waiting(Exec(s, acts))
    decreases |acts|
  {
    if acts != [] {
      match acts[0] {
        case Pulse => PulseKeeps(s);
        case Turn(env) => TurnKeepsWaiting(s, env);
      }
      RunKeepsWaiting(Step(s, acts[0]), acts[1..]);
    }
  }

  lemma {:induction false} RunKeepsOrderIff(s: State, acts: seq<Action>)
    requires AllOrdered(s)
    ensures OrderedThroughout(s, acts) <==> AllMayPublish(s, acts)
    decreases |acts|
  {
    if acts != [] {
      match acts[0] {
        case Pulse => PulseKeeps(s);
        case Turn(env) => TurnKeepsOrderIff(s, env);
      }
      if AllOrdered(Step(s, acts[0])) {
        RunKeepsOrderIff(Step(s, acts[0]), acts[1..]);
      }
    }
  }

  lemma {:induction false} OrderedAtEnd(s: State, acts: seq<Action>)
    requires OrderedThroughout(s, acts)
    ensures AllOrdered(Exec(s, acts))
    decreases |acts|
  {
    if acts != [] {
      OrderedAtEnd(Step(s, acts[0]), acts[1..]);
    }
  }

  /** In every run from a fresh boot, spool and queue together are in order.  All
      events, those published first, are in one order throughout exactly when every
      connected turn may publish; then events are published in order. */
  lemma EventsStayInOrder(acts: seq<Action>)
    ensures
      var s := Exec(Init(), acts);
      && Increasing(s.spool + s.queue, s.counter)
      && (OrderedThroughout(Init(), acts) <==> AllMayPublish(Init(), acts))
      && (AllMayPublish(Init(), acts) ==> Increasing(s.published, s.counter))
  {
    RunKeepsWaiting(Init(), acts);
    RunKeepsOrderIff(Init(), acts);
    var s := Exec(Init(), acts);
    if AllMayPublish(Init(), acts) {
      OrderedAtEnd(Init(), acts);
      assert s.published + s.spool + s.queue == s.published + (s.spool + s.queue) + [];
      IncreasingDrop(s.published, s.spool + s.queue, [], s.counter);
      assert s.published + [] == s.published;
    }
  }
}
