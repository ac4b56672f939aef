/** Which buffered rows the cloud upload reaches at all, poll after poll. */
module CloudPolls {

  const BATCH: nat := 10

  /** A buffered row in order of its id; every POST of a `refused` row is turned
      down for good (or its payload is not JSON), every other one is accepted. */
  datatype Row = Row(refused: bool, pending: bool)

  /** One poll: of the first `budget` pending rows, those not refused are synced. */
  function Poll(rows: seq<Row>, budget: nat): (after: seq<Row>)
    ensures |after| == |rows|
    ensures forall i :: 0 <= i < |rows| ==>
      after[i].refused == rows[i].refused && (after[i].pending ==> rows[i].pending)
  {
    if rows == [] || budget == 0 then rows
    else if rows[0].pending then [rows[0].(pending := rows[0].refused)] + Poll(rows[1..], budget - 1)
    else [rows[0]] + Poll(rows[1..], budget)
  }

  function Polls(rows: seq<Row>, n: nat): (after: seq<Row>)
    ensures |after| == |rows|
    ensures forall i :: 0 <= i < |rows| ==>
      after[i].refused == rows[i].refused && (after[i].pending ==> rows[i].pending)
    decreases n
  {
    if n == 0 then rows else Polls(Poll(rows, BATCH), n - 1)
  }

  /** The pending rows among `rows` that are refused, or that are not. */
  function Count(rows: seq<Row>, refused: bool): nat {
    if rows == [] then 0
    else (if rows[0].pending && rows[0].refused == refused then 1 else 0) + Count(rows[1..], refused)
  }

  /** Rows that arrive later do not change what a poll does to earlier ones. */
  lemma {:induction false} PollPrefix(rows: seq<Row>, more: seq<Row>, budget: nat)
    ensures Poll(rows + more, budget)[..|rows|] == Poll(rows, budget)
    decreases |rows|
  {
    if rows == [] {
    } else if budget == 0 {
      assert (rows + more)[..|rows|] == rows;
    } else {
      var rest := if rows[0].pending then budget - 1 else budget;
      assert (rows + more)[1..] == rows[1..] + more;
      PollPrefix(rows[1..], more, rest);
      var whole, part := Poll(rows + more, budget), Poll(rows[1..] + more, rest);
      assert whole[1..] == part;
      assert whole[..|rows|] == [whole[0]] + part[..|rows| - 1];
    }
  }

  /** Does a poll get as far as row `i`? */
  predicate Reached(rows: seq<Row>, i: nat, budget: nat)
    requires i < |rows|
  {
    Count(rows[..i], true) + Count(rows[..i], false) < budget
  }

  lemma {:induction false} PollAt(rows: seq<Row>, i: nat, budget: nat)
    requires i < |rows|
    ensures Poll(rows, budget)[i].pending <==>
      rows[i].pending && (rows[i].refused || !Reached(rows, i, budget))
    decreases |rows|
  {
    if i > 0 {
      assert rows[..i][1..] == rows[1..][..i - 1];
      if budget > 0 {
        PollAt(rows[1..], i - 1, if rows[0].pending then budget - 1 else budget);
      }
    }
  }

  /** A poll leaves the refused rows pending, and syncs some other row unless
      refused rows use up its batch. */
  lemma {:induction false} PollCounts(rows: seq<Row>, budget: nat)
    ensures Count(Poll(rows, budget), true) == Count(rows, true)
    ensures Count(Poll(rows, budget), false) <= Count(rows, false)
    ensures Count(rows, true) < budget && Count(rows, false) > 0 ==>
      Count(Poll(rows, budget), false) < Count(rows, false)
    decreases |rows|
  {
    if rows != [] && budget > 0 {
      var rest := if rows[0].pending then budget - 1 else budget;
      PollCounts(rows[1..], rest);
      assert Poll(rows, budget)[1..] == Poll(rows[1..], rest);
    }
  }

  lemma PollBefore(rows: seq<Row>, i: nat)
    requires i < |rows|
    ensures Poll(rows, BATCH)[..i] == Poll(rows[..i], BATCH)
  {
    assert rows == rows[..i] + rows[i..];
    PollPrefix(rows[..i], rows[i..], BATCH);
  }

  /** Ten refused rows in front of a row keep it pending for ever. */
  lemma {:induction false} BlockedForEver(rows: seq<Row>, i: nat, n: nat)
    requires i < |rows| && rows[i].pending && Count(rows[..i], true) >= BATCH
    ensures Polls(rows, n)[i].pending
    decreases n
  {
    if n > 0 {
      PollAt(rows, i, BATCH);
      PollBefore(rows, i);
      PollCounts(rows[..i], BATCH);
      BlockedForEver(Poll(rows, BATCH), i, n - 1);
    }
  }

  /** With fewer, it is synced after at most one poll per row in front of it and
      one for itself. */
  lemma {:induction false} SyncedInTime(rows: seq<Row>, i: nat, n: nat)
    requires i < |rows| && !rows[i].refused && Count(rows[..i], true) < BATCH
    requires n > Count(rows[..i], false)
    ensures !Polls(rows, n)[i].pending
    decreases n
  {
    var next := Poll(rows, BATCH);
    if next[i].pending {
      PollAt(rows, i, BATCH);
      PollBefore(rows, i);
      PollCounts(rows[..i], BATCH);
      SyncedInTime(next, i, n - 1);
    } else {
      assert !Polls(next, n - 1)[i].pending;
    }
  }

  /** A row the cloud would accept is synced eventually exactly when fewer than
      ten refused rows are pending in front of it. */
  lemma SyncedIffNotBlocked(rows: seq<Row>, i: nat)
    requires i < |rows| && rows[i].pending && !rows[i].refused
    ensures (exists n :: !Polls(rows, n)[i].pending) <==> Count(rows[..i], true) < BATCH
  {
    if Count(rows[..i], true) < BATCH {
      SyncedInTime(rows, i, Count(rows[..i], false) + 1);
    } else {
      forall n: nat ensures Polls(rows, n)[i].pending {
        BlockedForEver(rows, i, n);
      }
    }
  }
}
