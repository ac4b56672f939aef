/** The gateway's bounded buffer between the message callback and the insert loop,
and the insert with its retries. */
module GatewayBuffer {

  // ---- The buffer ---------------------------------------------------------

  function Evicted<T>(buffer: seq<T>, max: int): nat {
    if max > 0 && |buffer| >= max then 1 else 0
  }

  function Enqueued<T>(buffer: seq<T>, max: int, entry: T): seq<T> {
    buffer[Evicted(buffer, max)..] + [entry]
  }

  function EnqueueAll<T>(buffer: seq<T>, max: int, entries: seq<T>): seq<T>
    decreases |entries|
  {
    if entries == [] then buffer else EnqueueAll(Enqueued(buffer, max, entries[0]), max, entries[1..])
  }

  predicate Within<T>(buffer: seq<T>, max: int) {
    max > 0 ==> |buffer| <= max
  }

  /** How many of `count` entries do not fit. */
  function Excess(count: nat, max: int): nat {
    if max > 0 && count > max then count - max else 0
  }

  /** Enqueuing a list keeps the last `max` entries of the buffer and the list. */
  lemma {:induction false} EnqueueAllKeepsLast<T>(buffer: seq<T>, max: int, entries: seq<T>)
    requires Within(buffer, max)
    ensures EnqueueAll(buffer, max, entries) == (buffer + entries)[Excess(|buffer| + |entries|, max)..]
    ensures Within(EnqueueAll(buffer, max, entries), max)
    decreases |entries|
  {
    if entries == [] {
      assert buffer + entries == buffer;
    } else {
      var next, rest := Enqueued(buffer, max, entries[0]), entries[1..];
      EnqueueAllKeepsLast(next, max, rest);
      assert entries == [entries[0]] + rest;
      assert next + rest == (buffer + entries)[Evicted(buffer, max)..];
    }
  }

  class GatewayWorker<T> {
    const maxBuffer: int
    var buffer: seq<T>
    var droppedCount: nat

    constructor (maxBuffer: int)
      ensures this.maxBuffer == maxBuffer && buffer == [] && droppedCount == 0
    {
      this.maxBuffer, buffer, droppedCount := maxBuffer, [], 0;
    }

    method EnqueueTelemetry(entry: T)
      modifies this
      ensures buffer == Enqueued(old(buffer), maxBuffer, entry)
      ensures droppedCount == old(droppedCount) + Evicted(old(buffer), maxBuffer)
    {
      if maxBuffer > 0 && |buffer| >= maxBuffer {
        buffer := buffer[1..];
        droppedCount := droppedCount + 1;
      }
      buffer := buffer + [entry];
    }

    method DrainBuffer() returns (items: seq<T>)
      modifies this`buffer
      ensures items == old(buffer) && buffer == []
    {
      items := buffer;
      buffer := [];
    }

    /** The loop of the message callback, and of re-queuing a failed batch. */
    method EnqueueEach(entries: seq<T>)
      requires Within(buffer, maxBuffer)
      modifies this
      ensures buffer == EnqueueAll(old(buffer), maxBuffer, entries) && Within(buffer, maxBuffer)
      ensures droppedCount == old(droppedCount) + Excess(|old(buffer)| + |entries|, maxBuffer)
    {
      var i := 0;
      while i < |entries|
        invariant i <= |entries| && Within(buffer, maxBuffer)
        invariant EnqueueAll(buffer, maxBuffer, entries[i..]) == EnqueueAll(old(buffer), maxBuffer, entries)
        invariant droppedCount + Excess(|buffer| + |entries| - i, maxBuffer)
          == old(droppedCount) + Excess(|old(buffer)| + |entries|, maxBuffer)
      {
        assert entries[i..][0] == entries[i] && entries[i..][1..] == entries[i + 1..];
        EnqueueTelemetry(entries[i]);
        i := i + 1;
      }
    }

    /** One turn of the main loop when no message arrives during it: what the buffer held
        is posted, and back in it as it was if it could not be inserted. */
    method FlushOnce(answers: nat -> Answer) returns (batch: seq<T>, ok: bool, posts: nat)
      requires Within(buffer, maxBuffer)
      modifies this
      ensures batch == old(buffer) && droppedCount == old(droppedCount)
      ensures if batch == [] then ok && posts == 0 else Attempted(answers, posts, ok)
      ensures buffer == if ok then [] else old(buffer)
    {
      batch := DrainBuffer();
      if batch == [] {
        ok, posts := true, 0;
        return;
      }
      var slept;
      ok, posts, slept := InsertTelemetryBatch(|batch|, answers);
      if !ok {
        EnqueueAllKeepsLast([], maxBuffer, batch);
        assert [] + batch == batch;
        EnqueueEach(batch);
      }
    }
  }

  /** After a failed insert the batch is queued behind the entries `arrived`
      meanwhile; when room runs out, those newer entries are dropped first. */
  lemma {:induction false} RequeueDropsNewest<T>(arrived: seq<T>, max: int, batch: seq<T>)
    requires Within(arrived, max) && Within(batch, max)
    ensures
      var excess := Excess(|arrived| + |batch|, max);
      excess <= |arrived| && EnqueueAll(arrived, max, batch) == arrived[excess..] + batch
  {
    EnqueueAllKeepsLast(arrived, max, batch);
  }

  // ---- The insert ---------------------------------------------------------

  /** What one POST of a batch can meet. */
  datatype Answer = Inserted | ClientError | Retriable

  const RETRY_BACKOFFS := [2, 4, 8]

  /** An insert of a batch that ends after `posts` POSTs: only retriable answers go on, and
      no more than twice. */
  predicate Attempted(answers: nat -> Answer, posts: nat, ok: bool) {
    && 1 <= posts <= 3
    && (forall i :: 0 <= i < posts - 1 ==> answers(i) == Retriable)
    && (ok <==> answers(posts - 1) == Inserted)
    && (!ok ==> posts == 3 || answers(posts - 1) == ClientError)
  }

  /** `insert_telemetry_batch`; `answers(i)` is what the `i`th POST meets.  The
      first of the three backoffs is never slept. */
  method InsertTelemetryBatch(size: nat, answers: nat -> Answer) returns (ok: bool, posts: nat, slept: seq<nat>)
    ensures size == 0 ==> ok && posts == 0 && slept == []
    ensures size > 0 ==> Attempted(answers, posts, ok) && slept == [4, 8][..posts - 1]
  {
    ok, posts, slept := true, 0, [];
    if size == 0 {
      return;
    }
    ok := false;
    while posts < |RETRY_BACKOFFS|
      invariant posts <= 3
      invariant slept == if posts <= 1 then [] else [4, 8][..posts - 1]
      invariant forall i :: 0 <= i < posts ==> answers(i) == Retriable
    {
      if posts > 0 {
        slept := slept + [RETRY_BACKOFFS[posts]];
      }
      posts := posts + 1;
      match answers(posts - 1)
      case Inserted => return true, posts, slept;
      case ClientError => return false, posts, slept;
      case Retriable =>
    }
  }
}
