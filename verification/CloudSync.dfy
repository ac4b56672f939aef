/** The upload of buffered rows to the cloud: what one chain of attempts does to
its row, and what overlapping chains can do to it. */
module CloudSync {

  datatype Status = Pending | Synced | Failed

  /** What an attempt to POST a row can meet; `Refused` is any other HTTP status
      and `Broken` a network or parse error. */
  datatype Answer = Accepted | ServerError | Refused | Broken

  function Min(a: nat, b: nat): nat {
    if a < b then a else b
  }

  function Pow2(k: nat): nat {
    if k == 0 then 1 else 2 * Pow2(k - 1)
  }

  /** The pause, in milliseconds, before retry number `attempt`. */
  function Delay(base: nat, attempt: nat): nat
    requires attempt >= 1
  {
    Min(base * Pow2(attempt - 1), 60000)
  }

  function Sum(pauses: seq<nat>): nat {
    if pauses == [] then 0 else Sum(pauses[..|pauses| - 1]) + pauses[|pauses| - 1]
  }

  /** The pauses of a chain that starts with `retry` retries behind it. */
  predicate Backoff(base: nat, retry: nat, pauses: seq<nat>) {
    forall i :: 0 <= i < |pauses| ==> pauses[i] == Delay(base, retry + i + 1)
  }

  // ---- One chain on its own -----------------------------------------------

  /** How often a row may still be posted in one chain. */
  function Tries(retry: nat, max: nat): nat {
    if retry + 1 >= max then 1 else max - retry
  }

  lemma BackoffPrepend(base: nat, retry: nat, pauses: seq<nat>)
    requires Backoff(base, retry + 1, pauses)
    ensures Backoff(base, retry, [Delay(base, retry + 1)] + pauses)
  {
  }

  /** How a chain that finds its row with `before` retries ends after `posts` POSTs: only
      server errors go on, and the last answer settles the row. */
  predicate Settled(answers: nat -> Answer, max: nat, before: nat, posts: nat, status: Status, retry: nat) {
    && 1 <= posts <= Tries(before, max)
    && (forall i :: 0 <= i < posts - 1 ==> answers(i) == ServerError)
    && match answers(posts - 1)
       case Accepted => status == Synced && retry == before + posts - 1
       case ServerError => status == Failed && retry == before + posts && posts == Tries(before, max)
       case _ => status == Pending && retry == before + posts - 1
  }

  class BufferedRow {
    var status: Status
    var retry: nat
    const validPayload: bool

    constructor (retry: nat, validPayload: bool)
      ensures status == Pending && this.retry == retry && this.validPayload == validPayload
    {
      status, this.retry, this.validPayload := Pending, retry, validPayload;
    }

    /** `syncRecord` when no other chain touches the row; `answers(i)` is what its
        `i`th POST meets.  The result counts the POSTs and lists the pauses. */
    method SyncRecord(answers: nat -> Answer, max: nat, base: nat) returns (posts: nat, slept: seq<nat>)
      requires status == Pending
      modifies this
      ensures !validPayload ==> posts == 0 && slept == [] && status == Pending && retry == old(retry)
      ensures Backoff(base, old(retry), slept)
      ensures validPayload ==> |slept| == posts - 1 && Settled(answers, max, old(retry), posts, status, retry)
      decreases if retry < max then max - retry else 0
    {
      posts, slept := 0, [];
      if !validPayload {
        return;
      }
      posts := 1;
      match answers(0)
      case Accepted => status := Synced;
      case ServerError =>
        var attempt := retry + 1;
        retry := attempt;
        if attempt >= max {
          status := Failed;
          return;
        }
        var rest := (i: nat) => answers(i + 1);
        var later, pauses := SyncRecord(rest, max, base);
        posts, slept := 1 + later, [Delay(base, attempt)] + pauses;
        assert answers(posts - 1) == rest(later - 1);
        forall i | 0 <= i < posts - 1 ensures answers(i) == ServerError {
          if i > 0 {
            assert answers(i) == rest(i - 1);
          }
        }
        BackoffPrepend(base, attempt - 1, pauses);
      case _ =>
    }
  }

  lemma GeometricStep(base: nat, retry: nat, count: nat)
    requires count > 0
    ensures base * Pow2(retry + count) == 2 * (base * Pow2(retry + count - 1))
    ensures count > 1 ==> base * Pow2(retry + count - 2) <= base * Pow2(retry + count - 1)
  {
    var last := Pow2(retry + count - 1);
    assert Pow2(retry + count) == 2 * last;
    assert base * (2 * last) == 2 * (base * last);
    if count > 1 {
      var before := Pow2(retry + count - 2);
      assert last == 2 * before;
      assert base * last == base * before + base * before;
    }
  }

  /** A chain's pauses add up to at most a minute per retry, and to a geometric sum
      as long as none of them is cut off. */
  lemma {:induction false} PausesAddUp(base: nat, retry: nat, pauses: seq<nat>)
    requires Backoff(base, retry, pauses)
    ensures Sum(pauses) <= 60000 * |pauses|
    ensures pauses != [] && base * Pow2(retry + |pauses| - 1) <= 60000 ==>
      Sum(pauses) == base * Pow2(retry + |pauses|) - base * Pow2(retry)
    decreases |pauses|
  {
    if pauses != [] {
      PausesAddUp(base, retry, pauses[..|pauses| - 1]);
      GeometricStep(base, retry, |pauses|);
    }
  }

  /** The first pause is the base, each later one twice the one before, up to a minute. */
  lemma PausesDouble(base: nat, attempt: nat)
    requires attempt >= 1
    ensures Delay(base, 1) == Min(base, 60000)
    ensures Delay(base, attempt + 1) == Min(2 * Delay(base, attempt), 60000)
  {
    var last := Pow2(attempt - 1);
    assert base * (2 * last) == 2 * (base * last);
  }

  /** A pause is cut off at a minute, and so is every later one. */
  lemma CutOffPauses(base: nat, retry: nat, pauses: seq<nat>, i: nat, j: nat)
    requires Backoff(base, retry, pauses) && i <= j < |pauses|
    ensures base * Pow2(retry + i) >= 60000 ==> pauses[i] == pauses[j] == 60000
    ensures base * Pow2(retry + i) <= 60000 ==> pauses[i] == base * Pow2(retry + i)
  {
    Doubling(base, retry + i, retry + j);
  }

  lemma {:induction false} Doubling(base: nat, k: nat, n: nat)
    requires k <= n
    ensures base * Pow2(k) <= base * Pow2(n)
    decreases n
  {
    if k < n {
      Doubling(base, k, n - 1);
      var last := Pow2(n - 1);
      assert base * (2 * last) == base * last + base * last;
    }
  }

  // ---- Overlapping chains -------------------------------------------------

  /** Where a chain is: awaiting its POST with the row as it read it, or pausing. */
  datatype Chain = Posting(retry: nat) | Sleeping

  /** `acked` says whether some POST of the row was accepted. */
  datatype State = State(status: Status, retry: nat, chains: seq<Chain>, acked: bool)

  /** A poll that finds the row, an answer to chain `i`, the end of its pause. */
  datatype Action = Poll | Reply(i: nat, answer: Answer) | Wake(i: nat)

  function Init(retry: nat): State {
    State(Pending, retry, [], false)
  }

  function Without(chains: seq<Chain>, i: nat): seq<Chain>
    requires i < |chains|
  {
    chains[..i] + chains[i + 1..]
  }

  /** The part of `syncRecord` between its POST and its next await. */
  function Answered(max: nat, s: State, i: nat, retry: nat, answer: Answer): State
    requires i < |s.chains|
  {
    match answer
    case Accepted => s.(status := Synced, chains := Without(s.chains, i), acked := true)
    case ServerError =>
      if retry + 1 >= max then s.(status := Failed, retry := retry + 1, chains := Without(s.chains, i))
      else s.(retry := retry + 1, chains := s.chains[i := Sleeping])
    case _ => s.(chains := Without(s.chains, i))
  }

  function Step(max: nat, s: State, a: Action): State {
    match a
    case Poll => if s.status.Pending? then s.(chains := s.chains + [Posting(s.retry)]) else s
    case Reply(i, answer) =>
      if i < |s.chains| && s.chains[i].Posting? then Answered(max, s, i, s.chains[i].retry, answer) else s
    case Wake(i) =>
      if i < |s.chains| && s.chains[i].Sleeping? then
        if s.status.Pending? then s.(chains := s.chains[i := Posting(s.retry)])
        else s.(chains := Without(s.chains, i))
      else s
  }

  /** Chain `i` is awaiting an answer. */
  predicate Awaits(s: State, i: nat) {
    i < |s.chains| && s.chains[i].Posting?
  }

  /** The row becomes synced exactly when a chain is told that its POST was accepted, and
      failed exactly when a chain on its last try meets a server error; else it stays as
      it is. */
  lemma StatusChangesIff(max: nat, s: State, a: Action)
    ensures
      var t := Step(max, s, a);
      var accepted := a.Reply? && Awaits(s, a.i) && a.answer.Accepted?;
      var failed := a.Reply? && Awaits(s, a.i) && a.answer.ServerError? && s.chains[a.i].retry + 1 >= max;
      && (s.status.Pending? ==> (t.status.Synced? <==> accepted) && (t.status.Failed? <==> failed))
      && (s.status.Synced? ==> (t.status.Failed? <==> failed) && !t.status.Pending?)
      && (s.status.Failed? ==> (t.status.Synced? <==> accepted) && !t.status.Pending?)
  {
  }

  /** How many chains are awaiting an answer. */
  function Open(chains: seq<Chain>): nat {
    if chains == [] then 0 else Open(chains[..|chains| - 1]) + if chains[|chains| - 1].Posting? then 1 else 0
  }

  lemma {:induction false} OpenAppend(a: seq<Chain>, b: seq<Chain>)
    ensures Open(a + b) == Open(a) + Open(b)
    decreases |b|
  {
    if b == [] {
      assert a + b == a;
    } else {
      assert (a + b)[..|a + b| - 1] == a + b[..|b| - 1];
      OpenAppend(a, b[..|b| - 1]);
    }
  }

  lemma OpenAround(chains: seq<Chain>, i: nat, chain: Chain)
    requires i < |chains|
    ensures Open(chains) == Open(Without(chains, i)) + (if chains[i].Posting? then 1 else 0)
    ensures Open(chains[i := chain]) == Open(Without(chains, i)) + (if chain.Posting? then 1 else 0)
  {
    var a, b := chains[..i], chains[i + 1..];
    assert chains == a + ([chains[i]] + b) && chains[i := chain] == a + ([chain] + b);
    OpenAppend(a, b);
    OpenAppend(a, [chains[i]] + b);
    OpenAppend(a, [chain] + b);
    OpenAppend([chains[i]], b);
    OpenAppend([chain], b);
  }

  /** A POST is sent exactly when a poll or the end of a pause finds the row pending, and
      none is over before its answer. */
  lemma PostsOpenIff(max: nat, s: State, a: Action)
    ensures
      var t := Step(max, s, a);
      var sent := s.status.Pending? && (a.Poll? || (a.Wake? && a.i < |s.chains| && s.chains[a.i].Sleeping?));
      var over := a.Reply? && Awaits(s, a.i);
      Open(t.chains) == Open(s.chains) + (if sent then 1 else 0) - (if over then 1 else 0)
  {
    match a
    case Poll => OpenAppend(s.chains, [Posting(s.retry)]);
    case Reply(i, _) =>
      if Awaits(s, i) {
        OpenAround(s.chains, i, Sleeping);
      }
    case Wake(i) =>
      if i < |s.chains| && s.chains[i].Sleeping? {
        OpenAround(s.chains, i, Posting(s.retry));
      }
  }

  function Exec(max: nat, s: State, acts: seq<Action>): State
    decreases |acts|
  {
    if acts == [] then s else Exec(max, Step(max, s, acts[0]), acts[1..])
  }

  /** The answers to a chain that nothing disturbs, and the ends of its pauses. */
  function LoneRun(answers: nat -> Answer, posts: nat): seq<Action>
    decreases posts
  {
    if posts == 0 then []
    else if posts == 1 then [Reply(0, answers(0))]
    else [Reply(0, answers(0)), Wake(0)] + LoneRun((i: nat) => answers(i + 1), posts - 1)
  }

  lemma LoneAnswer(max: nat, s: State, answer: Answer)
    requires s.chains == [Posting(s.retry)] && (answer.ServerError? ==> s.retry + 1 >= max)
    ensures
      Exec(max, s, [Reply(0, answer)])
      == match answer
         case Accepted => State(Synced, s.retry, [], true)
         case ServerError => State(Failed, s.retry + 1, [], s.acked)
         case _ => State(s.status, s.retry, [], s.acked)
  {
    assert Without(s.chains, 0) == [];
    assert Exec(max, s, [Reply(0, answer)]) == Step(max, s, Reply(0, answer));
  }

  lemma LoneRetry(max: nat, s: State, rest: seq<Action>)
    requires s.status.Pending? && s.chains == [Posting(s.retry)] && s.retry + 1 < max
    ensures
      Exec(max, s, [Reply(0, ServerError), Wake(0)] + rest)
      == Exec(max, State(Pending, s.retry + 1, [Posting(s.retry + 1)], s.acked), rest)
  {
    var t := Step(max, s, Reply(0, ServerError));
    assert t.chains == [Sleeping];
    assert Step(max, t, Wake(0)).chains == [Posting(s.retry + 1)];
    assert ([Reply(0, ServerError), Wake(0)] + rest)[1..] == [Wake(0)] + rest && ([Wake(0)] + rest)[1..] == rest;
  }

  /** A chain that nothing disturbs ends as `syncRecord` on its own does. */
  lemma {:induction false} LoneChainSettles(max: nat, before: nat, acked: bool, answers: nat -> Answer, posts: nat,
                                            status: Status, retry: nat)
    requires Settled(answers, max, before, posts, status, retry)
    ensures
      Exec(max, State(Pending, before, [Posting(before)], acked), LoneRun(answers, posts))
      == State(status, retry, [], acked || answers(posts - 1).Accepted?)
    decreases posts
  {
    var s := State(Pending, before, [Posting(before)], acked);
    if posts == 1 {
      LoneAnswer(max, s, answers(0));
    } else {
      var rest := (i: nat) => answers(i + 1);
      assert answers(0) == ServerError;
      LoneRetry(max, s, LoneRun(rest, posts - 1));
      assert rest(posts - 2) == answers(posts - 1);
      LoneChainSettles(max, before + 1, acked, rest, posts - 1, status, retry);
    }
  }

  /** The end of a settled row's first chain. */
  lemma FirstChainEnds(max: nat, s: State)
    requires !s.status.Pending? && s.chains != []
    ensures
      var answered := if s.chains[0].Posting? then Step(max, s, Reply(0, Refused)) else Step(max, s, Wake(0));
      answered == s.(chains := s.chains[1..])
  {
    assert Without(s.chains, 0) == s.chains[1..];
  }

  /** Once the row is settled, one more step of each chain can end them all. */
  lemma {:induction false} SettledChainsEnd(max: nat, s: State) returns (acts: seq<Action>)
    requires !s.status.Pending?
    ensures |acts| == |s.chains| && Exec(max, s, acts) == s.(chains := [])
    decreases |s.chains|
  {
    acts := [];
    if s.chains != [] {
      FirstChainEnds(max, s);
      var a := if s.chains[0].Posting? then Reply(0, Refused) else Wake(0);
      var rest := SettledChainsEnd(max, Step(max, s, a));
      acts := [a] + rest;
      assert acts[1..] == rest;
    }
  }

  predicate Sound(max: nat, s: State) {
    && s.retry <= max
    && (s.status.Pending? ==> s.retry < max)
    && (s.status.Synced? ==> s.acked)
    && forall i :: 0 <= i < |s.chains| && s.chains[i].Posting? ==> s.chains[i].retry < max
  }

  lemma StepIsSound(max: nat, s: State, a: Action)
    requires Sound(max, s)
    ensures Sound(max, Step(max, s, a))
    ensures Step(max, s, a).status.Pending? ==> s.status.Pending?
    ensures s.acked ==> Step(max, s, a).acked
  {
  }

  /** Every schedule of any number of chains keeps the retry count in bounds,
      marks a row synced only after it was accepted, and never reopens it. */
  lemma {:induction false} ChainsAreSound(max: nat, s: State, acts: seq<Action>)
    requires Sound(max, s)
    ensures Sound(max, Exec(max, s, acts))
    ensures Exec(max, s, acts).status.Pending? ==> s.status.Pending?
    decreases |acts|
  {
    if acts != [] {
      StepIsSound(max, s, acts[0]);
      ChainsAreSound(max, Step(max, s, acts[0]), acts[1..]);
    }
  }

  /** No poll finds the row while a chain is still at work on it. */
  predicate NoOverlap(max: nat, s: State, acts: seq<Action>)
    decreases |acts|
  {
    acts == [] || ((acts[0].Poll? ==> s.chains == []) && NoOverlap(max, Step(max, s, acts[0]), acts[1..]))
  }

  /** At most one chain, and none once the row was accepted. */
  predicate Alone(s: State) {
    |s.chains| <= 1 && (s.acked ==> s.status.Synced? && s.chains == [])
  }

  lemma {:induction false} AcceptedStaysSynced(max: nat, s: State, acts: seq<Action>)
    requires Alone(s) && NoOverlap(max, s, acts)
    ensures Alone(Exec(max, s, acts))
    decreases |acts|
  {
    if acts != [] {
      AcceptedStaysSynced(max, Step(max, s, acts[0]), acts[1..]);
    }
  }

  /** No chain is awaiting the last POST it may make. */
  predicate NoLastTry(max: nat, s: State) {
    forall i :: 0 <= i < |s.chains| && s.chains[i].Posting? ==> s.chains[i].retry + 1 < max
  }

  lemma {:induction false} SyncedStays(max: nat, s: State, acts: seq<Action>)
    requires s.status.Synced? && NoLastTry(max, s)
    ensures Exec(max, s, acts).status.Synced?
    decreases |acts|
  {
    if acts != [] {
      SyncedStays(max, Step(max, s, acts[0]), acts[1..]);
    }
  }

  /** Overlapping chains can turn a synced row into a failed one exactly when one
      of them is awaiting its last POST. */
  lemma StaysSyncedIff(max: nat, s: State)
    requires s.status.Synced?
    ensures (forall acts :: Exec(max, s, acts).status.Synced?) <==> NoLastTry(max, s)
  {
    if NoLastTry(max, s) {
      forall acts ensures Exec(max, s, acts).status.Synced? {
        SyncedStays(max, s, acts);
      }
    } else {
      var i :| 0 <= i < |s.chains| && s.chains[i].Posting? && s.chains[i].retry + 1 >= max;
      LastTryFails(max, s, i);
      assert !Exec(max, s, [Reply(i, ServerError)]).status.Synced?;
    }
  }

  lemma LastTryFails(max: nat, s: State, i: nat)
    requires i < |s.chains| && s.chains[i].Posting? && s.chains[i].retry + 1 >= max
    ensures Exec(max, s, [Reply(i, ServerError)]).status.Failed?
  {
  }

  /** A row accepted by the cloud can end as failed once two chains overlap on
      its last try, whatever the limit. */
  lemma OverlapLosesSync(max: nat)
    requires max >= 1
    ensures
      var s := Step(max, Step(max, Init(max - 1), Poll), Poll);
      var t := Step(max, Step(max, s, Reply(0, Accepted)), Reply(0, ServerError));
      Sound(max, t) && t.acked && t.status.Failed? && t.chains == []
  {
  }

  /** Two overlapping chains can take the retry count of a fresh row back. */
  lemma OverlapLowersRetry(max: nat)
    requires max >= 3
    ensures
      var s := Step(max, Step(max, Init(0), Poll), Poll);
      var t := Step(max, Step(max, s, Reply(0, ServerError)), Wake(0));
      var u := Step(max, t, Reply(0, ServerError));
      u.retry == 2 && Step(max, u, Reply(1, ServerError)).retry == 1
  {
  }

  /** No chain is awaiting an answer that could set the count below `bound`. */
  predicate AtLeast(bound: nat, s: State) {
    forall i :: 0 <= i < |s.chains| && s.chains[i].Posting? ==> s.chains[i].retry + 1 >= bound
  }

  lemma {:induction false} CountStaysUp(max: nat, bound: nat, s: State, acts: seq<Action>)
    requires s.retry >= bound && AtLeast(bound, s)
    ensures Exec(max, s, acts).retry >= bound
    decreases |acts|
  {
    if acts != [] {
      CountStaysUp(max, bound, Step(max, s, acts[0]), acts[1..]);
    }
  }

  lemma ServerErrorSetsCount(max: nat, s: State, i: nat)
    requires i < |s.chains| && s.chains[i].Posting?
    ensures Exec(max, s, [Reply(i, ServerError)]).retry == s.chains[i].retry + 1
  {
    var acts := [Reply(i, ServerError)];
    assert Exec(max, s, acts) == Exec(max, Step(max, s, acts[0]), acts[1..]);
  }

  /** Overlapping chains can take the retry count back exactly when one of them is
      awaiting an answer with an older count. */
  lemma CountNeverFallsIff(max: nat, s: State)
    ensures (forall acts :: Exec(max, s, acts).retry >= s.retry) <==> AtLeast(s.retry, s)
  {
    if AtLeast(s.retry, s) {
      forall acts ensures Exec(max, s, acts).retry >= s.retry {
        CountStaysUp(max, s.retry, s, acts);
      }
    } else {
      var i :| 0 <= i < |s.chains| && s.chains[i].Posting? && s.chains[i].retry + 1 < s.retry;
      ServerErrorSetsCount(max, s, i);
      assert Exec(max, s, [Reply(i, ServerError)]).retry < s.retry;
    }
  }

  /** How many POSTs of a run met a server error. */
  function ServerErrors(max: nat, s: State, acts: seq<Action>): nat
    decreases |acts|
  {
    if acts == [] then 0
    else
      var a := acts[0];
      (if a.Reply? && a.answer.ServerError? && a.i < |s.chains| && s.chains[a.i].Posting? then 1 else 0)
      + ServerErrors(max, Step(max, s, a), acts[1..])
  }

  /** At most one chain, and it posts with the row's own count. */
  predicate InStep(s: State) {
    |s.chains| <= 1 && (s.chains != [] && s.chains[0].Posting? ==> s.chains[0].retry == s.retry)
  }

  /** Without overlap, each server error uses up one of the row's tries. */
  lemma {:induction false} ErrorsAreCounted(max: nat, s: State, acts: seq<Action>)
    requires InStep(s) && NoOverlap(max, s, acts)
    ensures ServerErrors(max, s, acts) == Exec(max, s, acts).retry - s.retry
    decreases |acts|
  {
    if acts != [] {
      ErrorsAreCounted(max, Step(max, s, acts[0]), acts[1..]);
    }
  }

  /** Without overlap, a row below the limit meets at most as many server errors as
      it has tries left. */
  lemma ErrorsAreBounded(max: nat, retry: nat, acts: seq<Action>)
    requires retry < max && NoOverlap(max, Init(retry), acts)
    ensures ServerErrors(max, Init(retry), acts) <= max - retry
  {
    ErrorsAreCounted(max, Init(retry), acts);
    ChainsAreSound(max, Init(retry), acts);
  }

  /** `n` polls that all find the row before any answer is in. */
  function PolledState(n: nat): State {
    State(Pending, 0, seq(n, i => Posting(0)), false)
  }

  lemma {:induction false} ErrorsOfPolls(max: nat, s: State, i: nat, acts: seq<Action>)
    requires max >= 2 && s.status.Pending? && i <= |s.chains|
    requires forall j :: i <= j < |s.chains| ==> s.chains[j] == Posting(0)
    requires acts == seq(|s.chains| - i, j requires 0 <= j < |s.chains| - i => Reply(i + j, ServerError))
    ensures ServerErrors(max, s, acts) == |s.chains| - i && Exec(max, s, acts).status.Pending?
    decreases |acts|
  {
    if acts != [] {
      ErrorsOfPolls(max, Step(max, s, acts[0]), i + 1, acts[1..]);
    }
  }

  lemma {:induction false} PollsPileUp(max: nat, k: nat, n: nat, acts: seq<Action>)
    requires k <= n
    ensures Exec(max, PolledState(k), seq(n - k, i => Poll) + acts) == Exec(max, PolledState(n), acts)
    ensures ServerErrors(max, PolledState(k), seq(n - k, i => Poll) + acts) == ServerErrors(max, PolledState(n), acts)
    decreases n - k
  {
    var polls := seq(n - k, i => Poll);
    if k == n {
      assert polls + acts == acts;
    } else {
      assert (polls + acts)[1..] == seq(n - (k + 1), i => Poll) + acts;
      assert PolledState(k).chains + [Posting(0)] == PolledState(k + 1).chains;
      PollsPileUp(max, k + 1, n, acts);
    }
  }

  /** With overlap there is no bound: a fresh row can meet any number of server
      errors and still be pending, whatever the limit above one. */
  lemma ErrorsAreUnbounded(max: nat, n: nat) returns (acts: seq<Action>)
    requires max >= 2
    ensures ServerErrors(max, Init(0), acts) == n && Exec(max, Init(0), acts).status.Pending?
  {
    var replies := seq(n, j requires 0 <= j < n => Reply(j, ServerError));
    acts := seq(n, i => Poll) + replies;
    assert Init(0) == PolledState(0);
    PollsPileUp(max, 0, n, replies);
    ErrorsOfPolls(max, PolledState(n), 0, replies);
  }
}
