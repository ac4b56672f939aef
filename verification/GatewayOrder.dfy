/** When the gateway inserts entries in the order they arrived, and drops the
oldest. */
module GatewayOrder {
  import opened GatewayBuffer
  import opened GatewayRuns

  // ---- Subsequences -------------------------------------------------------

  /** `a` is `b` with some entries left out. */
  ghost predicate Subsequence<T>(a: seq<T>, b: seq<T>) {
    |a| == 0
    || (|b| > 0
        && (Subsequence(a, b[..|b| - 1])
            || (a[|a| - 1] == b[|b| - 1] && Subsequence(a[..|a| - 1], b[..|b| - 1]))))
  }

  lemma {:induction false} SubsequenceDrop<T>(a: seq<T>, x: T, c: seq<T>, b: seq<T>)
    requires Subsequence(a + [x] + c, b)
    ensures Subsequence(a + c, b)
    decreases |b|
  {
    var s, n := a + [x] + c, |b| - 1;
    if |a + c| > 0 {
      if Subsequence(s, b[..n]) {
        SubsequenceDrop(a, x, c, b[..n]);
      } else if |c| == 0 {
        assert s[..|s| - 1] == a == a + c;
      } else {
        var c' := c[..|c| - 1];
        assert s[..|s| - 1] == a + [x] + c' && (a + c)[..|a + c| - 1] == a + c';
        SubsequenceDrop(a, x, c', b[..n]);
      }
    }
  }

  lemma {:induction false} SubsequenceAppend<T>(a: seq<T>, b: seq<T>, x: T)
    requires Subsequence(a, b)
    ensures Subsequence(a + [x], b + [x])
  {
    assert (a + [x])[..|a|] == a && (b + [x])[..|b|] == b;
  }

  lemma {:induction false} SubsequenceLength<T>(a: seq<T>, b: seq<T>)
    requires Subsequence(a, b)
    ensures |a| <= |b| && (|a| == |b| ==> a == b)
    decreases |b|
  {
    if |a| > 0 {
      var n := |b| - 1;
      if Subsequence(a, b[..n]) {
        SubsequenceLength(a, b[..n]);
      } else {
        SubsequenceLength(a[..|a| - 1], b[..n]);
        assert a == a[..|a| - 1] + [a[|a| - 1]] && b == b[..n] + [b[n]];
      }
    }
  }

  lemma {:induction false} SubsequencePrefix<T>(a: seq<T>, c: seq<T>, b: seq<T>)
    requires Subsequence(a + c, b)
    ensures Subsequence(a, b)
    decreases |c|
  {
    if |c| == 0 {
      assert a + c == a;
    } else {
      var n := |c| - 1;
      assert a + c == (a + c[..n]) + [c[n]] + [];
      SubsequenceDrop(a + c[..n], c[n], [], b);
      assert (a + c[..n]) + [] == a + c[..n];
      SubsequencePrefix(a, c[..n], b);
    }
  }

  lemma {:induction false} DropMiddle<T>(a: seq<T>, m: seq<T>, c: seq<T>, b: seq<T>)
    requires Subsequence(a + m + c, b)
    ensures Subsequence(a + c, b)
    decreases |m|
  {
    if |m| == 0 {
      assert a + m == a;
    } else {
      assert a + m + c == a + [m[0]] + (m[1..] + c);
      SubsequenceDrop(a, m[0], m[1..] + c, b);
      assert a + (m[1..] + c) == a + m[1..] + c;
      DropMiddle(a, m[1..], c, b);
    }
  }

  lemma {:induction false} SubsequenceMember<T>(a: seq<T>, b: seq<T>, i: nat) returns (p: nat)
    requires Subsequence(a, b) && i < |a|
    ensures p < |b| && b[p] == a[i]
    decreases |b|
  {
    var n := |b| - 1;
    if Subsequence(a, b[..n]) {
      p := SubsequenceMember(a, b[..n], i);
    } else if i == |a| - 1 {
      p := n;
    } else {
      p := SubsequenceMember(a[..|a| - 1], b[..n], i);
    }
  }

  /** A subsequence keeps the order of any two entries. */
  lemma {:induction false} SubsequencePair<T>(a: seq<T>, b: seq<T>, i: nat, j: nat) returns (p: nat, q: nat)
    requires Subsequence(a, b) && i < j < |a|
    ensures p < q < |b| && b[p] == a[i] && b[q] == a[j]
    decreases |b|
  {
    var n := |b| - 1;
    if Subsequence(a, b[..n]) {
      p, q := SubsequencePair(a, b[..n], i, j);
    } else if j == |a| - 1 {
      p := SubsequenceMember(a[..|a| - 1], b[..n], i);
      q := n;
    } else {
      p, q := SubsequencePair(a[..|a| - 1], b[..n], i, j);
    }
  }

  predicate Distinct<T(==)>(entries: seq<T>) {
    forall i, j :: 0 <= i < j < |entries| ==> entries[i] != entries[j]
  }

  // ---- One step -----------------------------------------------------------

  /** The entries inserted and those still to be, in the order in which they stand:
      what is being put back goes behind the buffer. */
  function Queued<T>(s: State<T>): seq<T> {
    if s.phase.Requeuing? then s.inserted + s.buffer + s.phase.rest
    else s.inserted + InFlight(s) + s.buffer
  }

  /** The entries stand in the order they arrived. */
  ghost predicate Ordered<T>(s: State<T>) {
    Subsequence(Queued(s), s.arrived)
  }

  /** An insert fails after newer entries arrived, or an entry arrives while a failed
      batch is not yet all put back. */
  predicate Overtakes<T>(s: State<T>, a: Action<T>) {
    || (a.Main? && !a.ok && s.phase.Inserting? && |s.buffer| > 0)
    || (a.Arrive? && s.phase.Requeuing? && |s.phase.rest| > 0)
  }

  predicate HasBatch<T>(s: State<T>) {
    s.phase.Inserting? ==> |s.phase.batch| > 0
  }

  lemma EvictionKeepsOrder<T>(front: seq<T>, buffer: seq<T>, max: int, arrived: seq<T>)
    requires Subsequence(front + buffer, arrived)
    ensures Subsequence(front + buffer[Evicted(buffer, max)..], arrived)
  {
    if Evicted(buffer, max) == 0 {
      assert buffer[0..] == buffer;
    } else {
      assert front + buffer == front + [buffer[0]] + buffer[1..];
      SubsequenceDrop(front, buffer[0], buffer[1..], arrived);
    }
  }

  /** What stands in front of the buffer, unless a failed batch is being put back. */
  function Front<T>(s: State<T>): seq<T> {
    if s.phase.Requeuing? then s.inserted else s.inserted + InFlight(s)
  }

  lemma BufferIsLast<T>(s: State<T>)
    requires s.phase.Requeuing? ==> |s.phase.rest| == 0
    ensures Queued(s) == Front(s) + s.buffer
  {
  }

  lemma ArriveKeepsOrder<T>(max: int, s: State<T>, entry: T)
    requires Ordered(s) && !Overtakes(s, Arrive(entry))
    ensures Ordered(Step(max, s, Arrive(entry)))
  {
    var t := Step(max, s, Arrive(entry));
    ArriveMoves(max, s, entry);
    BufferIsLast(s);
    BufferIsLast(t);
    EvictionKeepsOrder(Front(s), s.buffer, max, s.arrived);
    var kept := s.buffer[Evicted(s.buffer, max)..];
    SubsequenceAppend(Front(s) + kept, s.arrived, entry);
    assert Queued(t) == (Front(s) + kept) + [entry];
  }

  /** Putting one entry of a failed batch back: it moves from the front of the rest
      to the end of the buffer. */
  lemma RequeueKeepsOrder<T>(max: int, s: State<T>, rest: seq<T>, ok: bool)
    requires Ordered(s) && s.phase == Requeuing(rest) && |rest| > 0
    ensures Ordered(MainStep(max, s, ok))
  {
    var n := Evicted(s.buffer, max);
    var t := MainStep(max, s, ok);
    if n == 0 {
      assert s.buffer[0..] == s.buffer;
      assert Queued(t) == s.inserted + s.buffer + ([rest[0]] + rest[1..]);
      assert rest == [rest[0]] + rest[1..];
    } else {
      assert Queued(s) == s.inserted + [s.buffer[0]] + (s.buffer[1..] + rest);
      SubsequenceDrop(s.inserted, s.buffer[0], s.buffer[1..] + rest, s.arrived);
      assert Queued(t) == s.inserted + (s.buffer[1..] + rest);
    }
  }

  lemma FinalKeepsOrder<T>(max: int, s: State<T>, batch: seq<T>, ok: bool)
    requires Ordered(s) && s.phase == FinalInsert(batch)
    ensures Ordered(MainStep(max, s, ok))
  {
    var t := MainStep(max, s, ok);
    if ok {
      assert Queued(t) == Queued(s);
    } else {
      DropMiddle(s.inserted, batch, s.buffer, s.arrived);
      assert Queued(t) == s.inserted + s.buffer;
    }
  }

  lemma MainKeepsOrder<T>(max: int, s: State<T>, ok: bool)
    requires Ordered(s) && !Overtakes(s, Main(ok))
    ensures Ordered(MainStep(max, s, ok))
  {
    var t := MainStep(max, s, ok);
    match s.phase
    case Requeuing(rest) =>
      if |rest| > 0 {
        RequeueKeepsOrder(max, s, rest, ok);
      } else {
        assert Queued(t) == Queued(s);
      }
    case FinalInsert(batch) => FinalKeepsOrder(max, s, batch, ok);
    case _ => assert Queued(t) == Queued(s);
  }

  lemma StepKeepsOrder<T>(max: int, s: State<T>, a: Action<T>)
    requires Ordered(s) && !Overtakes(s, a)
    ensures Ordered(Step(max, s, a))
  {
    match a
    case Arrive(entry) => ArriveKeepsOrder(max, s, entry);
    case Signal => assert Queued(Step(max, s, a)) == Queued(s);
    case Main(ok) => MainKeepsOrder(max, s, ok);
  }

  /** Newer entries end up in front of a batch that could not be inserted. */
  lemma FailureBreaksOrder<T>(max: int, s: State<T>, batch: seq<T>)
    requires Ordered(s) && s.phase == Inserting(batch) && |batch| > 0 && |s.buffer| > 0 && Distinct(s.arrived)
    ensures !Ordered(MainStep(max, s, false))
  {
    var t := MainStep(max, s, false);
    var n := |s.inserted|;
    assert Queued(s)[n] == batch[0] && Queued(s)[n + |batch|] == s.buffer[0];
    assert Queued(t)[n] == s.buffer[0] && Queued(t)[n + |s.buffer|] == batch[0];
    var p, q := SubsequencePair(Queued(s), s.arrived, n, n + |batch|);
    if Ordered(t) {
      var p', q' := SubsequencePair(Queued(t), t.arrived, n, n + |s.buffer|);
    }
  }

  /** A new entry ends up in front of the older ones not yet put back. */
  lemma ArrivalBreaksOrder<T>(max: int, s: State<T>, rest: seq<T>, entry: T)
    requires s.phase == Requeuing(rest) && |rest| > 0 && Distinct(s.arrived + [entry])
    ensures !Ordered(Step(max, s, Arrive(entry)))
  {
    var t := Step(max, s, Arrive(entry));
    var n := |s.inserted| + |s.buffer| - Evicted(s.buffer, max);
    assert Queued(t)[n] == entry && Queued(t)[n + 1] == rest[0];
    assert t.arrived[|s.arrived|] == entry;
    if Ordered(t) {
      var p, q := SubsequencePair(Queued(t), t.arrived, n, n + 1);
    }
  }

  /** Exactly which steps keep the entries in order. */
  lemma StepKeepsOrderIff<T>(max: int, s: State<T>, a: Action<T>)
    requires Ordered(s) && HasBatch(s) && Distinct(Step(max, s, a).arrived)
    ensures Ordered(Step(max, s, a)) <==> !Overtakes(s, a)
  {
    if !Overtakes(s, a) {
      StepKeepsOrder(max, s, a);
    } else if a.Arrive? {
      ArrivalBreaksOrder(max, s, s.phase.rest, a.entry);
    } else {
      FailureBreaksOrder(max, s, s.phase.batch);
    }
  }

  // ---- Whole runs ---------------------------------------------------------

  predicate NoneOvertakes<T>(max: int, s: State<T>, acts: seq<Action<T>>)
    decreases |acts|
  {
    |acts| == 0 || (!Overtakes(s, acts[0]) && NoneOvertakes(max, Step(max, s, acts[0]), acts[1..]))
  }

  /** The entries are in order in every state of the run. */
  ghost predicate OrderedThroughout<T>(max: int, s: State<T>, acts: seq<Action<T>>)
    decreases |acts|
  {
    Ordered(s) && (|acts| == 0 || OrderedThroughout(max, Step(max, s, acts[0]), acts[1..]))
  }

  lemma {:induction false} ArrivalsGrow<T>(max: int, s: State<T>, acts: seq<Action<T>>)
    ensures s.arrived <= Exec(max, s, acts).arrived
    decreases |acts|
  {
    if |acts| > 0 {
      ArrivalsGrow(max, Step(max, s, acts[0]), acts[1..]);
    }
  }

  lemma BatchesAreNonEmpty<T>(max: int, s: State<T>, a: Action<T>)
    requires HasBatch(s)
    ensures HasBatch(Step(max, s, a))
  {
  }

  lemma {:induction false} RunKeepsOrder<T>(max: int, s: State<T>, acts: seq<Action<T>>)
    requires Ordered(s) && NoneOvertakes(max, s, acts)
    ensures Ordered(Exec(max, s, acts)) && OrderedThroughout(max, s, acts)
    decreases |acts|
  {
    if |acts| > 0 {
      StepKeepsOrder(max, s, acts[0]);
      RunKeepsOrder(max, Step(max, s, acts[0]), acts[1..]);
    }
  }

  lemma {:induction false} RunKeepsOrderIff<T>(max: int, s: State<T>, acts: seq<Action<T>>)
    requires Ordered(s) && HasBatch(s) && Distinct(Exec(max, s, acts).arrived)
    ensures OrderedThroughout(max, s, acts) <==> NoneOvertakes(max, s, acts)
    decreases |acts|
  {
    if |acts| > 0 {
      var t := Step(max, s, acts[0]);
      ArrivalsGrow(max, t, acts[1..]);
      StepKeepsOrderIff(max, s, acts[0]);
      if Ordered(t) {
        BatchesAreNonEmpty(max, s, acts[0]);
        RunKeepsOrderIff(max, t, acts[1..]);
      }
    }
  }

  /** When the entries of a run are distinct, they stand in the order they arrived in
      every state of it exactly when none overtakes another, whatever else failed and
      whatever was dropped. */
  lemma EntriesStayInOrderIff<T>(max: int, acts: seq<Action<T>>)
    requires Distinct(Exec(max, Init(), acts).arrived)
    ensures OrderedThroughout(max, Init(), acts) <==> NoneOvertakes(max, Init(), acts)
  {
    RunKeepsOrderIff(max, Init<T>(), acts);
  }

  lemma InsertedInOrder<T>(s: State<T>)
    requires Ordered(s)
    ensures Subsequence(s.inserted, s.arrived)
  {
    var rest := if s.phase.Requeuing? then s.buffer + s.phase.rest else InFlight(s) + s.buffer;
    assert Queued(s) == s.inserted + rest;
    SubsequencePrefix(s.inserted, rest, s.arrived);
  }

  lemma NoneMissing<T>(s: State<T>)
    requires multiset(s.arrived) == multiset(All(s)) && |s.dropped| == 0 && |s.lost| == 0 && Ordered(s)
    ensures Queued(s) == s.arrived
  {
    assert |multiset(s.arrived)| == |s.arrived| && |multiset(All(s))| == |All(s)|;
    SubsequenceLength(Queued(s), s.arrived);
  }

  /** When none overtakes another, entries are inserted in the order they arrived; if
      moreover none was dropped or lost, they stand exactly as they arrived. */
  lemma EntriesStayInOrder<T>(max: int, acts: seq<Action<T>>)
    requires NoneOvertakes(max, Init(), acts)
    ensures
      var s := Exec(max, Init(), acts);
      && Subsequence(s.inserted, s.arrived)
      && (s.droppedCount == 0 && |s.lost| == 0 ==> Queued(s) == s.arrived)
  {
    RunKeepsOrder(max, Init<T>(), acts);
    EveryEntryIsAccountedFor(max, acts);
    var s := Exec(max, Init<T>(), acts);
    InsertedInOrder(s);
    if s.droppedCount == 0 && |s.lost| == 0 {
      NoneMissing(s);
    }
  }

  // ---- Dropping the oldest ------------------------------------------------

  /** `x` arrived before `y`. */
  ghost predicate Older<T>(arrived: seq<T>, x: T, y: T) {
    exists p, q :: 0 <= p < q < |arrived| && arrived[p] == x && arrived[q] == y
  }

  lemma QueuedIsOlder<T>(s: State<T>, i: nat, j: nat)
    requires Ordered(s) && i < j < |Queued(s)|
    ensures Older(s.arrived, Queued(s)[i], Queued(s)[j])
  {
    var p, q := SubsequencePair(Queued(s), s.arrived, i, j);
  }

  lemma OlderIsAsymmetric<T>(arrived: seq<T>, x: T, y: T)
    requires Distinct(arrived) && Older(arrived, x, y)
    ensures !Older(arrived, y, x)
  {
  }

  /** The next entry to be evicted is older than all that wait with it. */
  lemma OldestIsNext<T>(s: State<T>, j: nat)
    requires Ordered(s) && 0 < j < |s.buffer| + if s.phase.Requeuing? then |s.phase.rest| else 0
    requires |s.buffer| > 0
    ensures Older(s.arrived, s.buffer[0], if j < |s.buffer| then s.buffer[j] else s.phase.rest[j - |s.buffer|])
  {
    QueuedIsOlder(s, |Front(s)|, |Front(s)| + j);
  }

  /** Putting a failed batch back drops only entries older than those it keeps exactly
      when it drops none, that is when the batch and the entries that arrived during the
      insert fit the buffer together. */
  lemma RequeueDropsOldestIff<T>(max: int, s: State<T>, batch: seq<T>)
    requires s.phase == Inserting(batch) && Within(s.buffer, max) && Within(batch, max)
    requires Ordered(s) && |batch| > 0 && Distinct(s.arrived)
    ensures
      var t := Exec(max, Step(max, s, Main(false)), Turns(|batch| + 1));
      && |s.dropped| <= |t.dropped|
      && ((forall x, y :: x in t.dropped[|s.dropped|..] && y in t.buffer ==> Older(s.arrived, x, y))
          <==> max <= 0 || |s.buffer| + |batch| <= max)
  {
    var t := Exec(max, Step(max, s, Main(false)), Turns(|batch| + 1));
    FailedBatchGoesBehind(max, s, batch);
    var excess := Excess(|s.buffer| + |batch|, max);
    assert t.dropped[|s.dropped|..] == s.buffer[..excess];
    if excess > 0 {
      var n := |s.inserted|;
      assert Queued(s)[n] == batch[0] && Queued(s)[n + |batch|] == s.buffer[0];
      QueuedIsOlder(s, n, n + |batch|);
      OlderIsAsymmetric(s.arrived, batch[0], s.buffer[0]);
      assert s.buffer[0] in s.buffer[..excess] && t.buffer[|s.buffer| - excess] == batch[0];
    }
  }

  // ---- An entry overtaken -------------------------------------------------

  /** `b` arrives while `a` is being inserted, which then fails. */
  function Late<T>(a: T, b: T): seq<Action<T>> {
    [Arrive(a), Main(true), Arrive(b), Main(false)]
  }

  lemma ExecFirst<T>(max: int, s: State<T>, a: Action<T>, rest: seq<Action<T>>)
    ensures Exec(max, s, [a] + rest) == Exec(max, Step(max, s, a), rest)
  {
    assert ([a] + rest)[1..] == rest;
  }

  lemma FourSteps<T>(max: int, s: State<T>, w: Action<T>, x: Action<T>, y: Action<T>, z: Action<T>)
    ensures Exec(max, s, [w, x, y, z]) == Step(max, Step(max, Step(max, Step(max, s, w), x), y), z)
  {
    var t := Step(max, s, w);
    var u := Step(max, t, x);
    assert [w, x, y, z] == [w] + [x, y, z] && [x, y, z] == [x] + [y, z] && [y, z] == [y] + [z] && [z] == [z] + [];
    ExecFirst(max, s, w, [x, y, z]);
    ExecFirst(max, t, x, [y, z]);
    ExecFirst(max, u, y, [z]);
    ExecFirst(max, Step(max, u, y), z, []);
  }

  lemma ArriveFirst<T>(max: int, s: State<T>, entry: T) returns (t: State<T>)
    requires |s.buffer| == 0
    ensures t == Step(max, s, Arrive(entry)) && t.buffer == [entry] && t.arrived == s.arrived + [entry]
    ensures t.phase == s.phase && t.shutdown == s.shutdown && t.inserted == s.inserted && t.dropped == s.dropped
  {
    t := Step(max, s, Arrive(entry));
    assert s.buffer[Evicted(s.buffer, max)..] + [entry] == [entry];
  }

  /** `a` is drained, and `b` arrives. */
  lemma LateArrival<T>(max: int, a: T, b: T) returns (s: State<T>)
    ensures s.phase == Inserting([a]) && s.buffer == [b] && !s.shutdown
    ensures s.arrived == [a, b] && s.inserted == [] && s.dropped == []
    ensures Exec(max, Init(), Late(a, b)) == Step(max, s, Main(false))
  {
    FourSteps(max, Init(), Arrive(a), Main(true), Arrive(b), Main(false));
    s := ArriveFirst(max, Init(), a);
    assert s.arrived == [a];
    s := ArriveFirst(max, Step(max, s, Main(true)), b);
    assert s.arrived == [a, b];
  }

  /** The buffer is drained and inserted. */
  lemma InsertRun<T>(max: int, s: State<T>)
    requires s.phase == Looping && !s.shutdown && |s.buffer| > 0
    ensures Exec(max, s, Turns(2)) == s.(buffer := [], inserted := s.inserted + s.buffer)
  {
    assert Turns<T>(2)[1..] == Turns(1) && Turns<T>(1)[1..] == [];
  }

  /** A run in which `b` overtakes `a`: it is inserted first, or, when there is room for
      one only, dropped although it is newer. */
  lemma NewerOvertakes<T>(max: int, a: T, b: T)
    ensures
      var s := Exec(max, Init(), Late(a, b) + Turns(2) + Turns(2));
      && s.arrived == [a, b]
      && (if max == 1 then s.inserted == [a] && s.dropped == [b] else s.inserted == [b, a] && s.dropped == [])
  {
    var late := LateArrival(max, a, b);
    ExecAppend(max, Init(), Late(a, b), Turns(2));
    FailedBatchGoesBehind(max, late, [a]);
    var s := Exec(max, Init(), Late(a, b) + Turns(2));
    ExecAppend(max, Init(), Late(a, b) + Turns(2), Turns(2));
    InsertRun(max, s);
  }
}
