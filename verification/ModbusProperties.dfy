/** Reading inverts a conforming slave, damaged replies never yield values, and
when one slave's exchange can disturb the node of another. */
module ModbusProperties {
  import opened Wrappers
  import opened CrcDetection
  import opened CrcTable
  import opened CrcFrames
  import opened CrcTwoBits
  import opened ModbusRtu

  // ---- Registers on the wire ----------------------------------------------

  lemma {:induction false} BigEndianParts(w: bv16)
    ensures BigEndian(HighByte(w), LowByte(w)) == w
  {
  }

  lemma {:induction false} PartsBigEndian(high: byte, low: byte)
    ensures HighByte(BigEndian(high, low)) == high && LowByte(BigEndian(high, low)) == low
  {
  }

  lemma {:induction false} WordsAt(values: seq<bv16>, i: nat)
    requires i < |values|
    ensures Words(values)[2 * i] == HighByte(values[i])
    ensures Words(values)[2 * i + 1] == LowByte(values[i])
  {
    if i < |values| - 1 {
      WordsAt(values[..|values| - 1], i);
    }
  }

  lemma {:induction false} WordsUnique(values: seq<bv16>, bytes: seq<byte>)
    requires |bytes| == 2 * |values|
    requires forall i :: 0 <= i < |values| ==> values[i] == BigEndian(bytes[2 * i], bytes[2 * i + 1])
    ensures Words(values) == bytes
  {
    var n := |values|;
    if n == 0 {
    } else {
      WordsUnique(values[..n - 1], bytes[..2 * n - 2]);
      PartsBigEndian(bytes[2 * n - 2], bytes[2 * n - 1]);
      assert bytes == bytes[..2 * n - 2] + [bytes[2 * n - 2], bytes[2 * n - 1]];
    }
  }

  lemma {:induction false} ValuesOf(header: seq<byte>, values: seq<bv16>, tail: seq<byte>, i: nat)
    requires |header| == 3 && |tail| == 2 && i < |values|
    ensures Value(header + Words(values) + tail, i) == values[i]
  {
    WordsAt(values, i);
    BigEndianParts(values[i]);
    var all := header + Words(values) + tail;
    assert all[3 + 2 * i] == Words(values)[2 * i] && all[4 + 2 * i] == Words(values)[2 * i + 1];
  }

  // ---- The parser inverts the printer -------------------------------------

  lemma {:induction false} ReplyChecks(slave: byte, values: seq<bv16>)
    requires |values| <= 125
    ensures var r := Reply(slave, values);
      |r| == 2 * |values| + 5 && CrcOk(r) && r[1] == 0x04 && r[2] == (2 * |values|) as byte
      && forall i :: 0 <= i < |values| ==> Value(r, i) == values[i]
  {
    var header := [slave, 0x04, (2 * |values|) as byte];
    var adu := header + Words(values);
    FramedOk(adu);
    var tail := Framed(adu)[|adu|..];
    assert Reply(slave, values) == header + Words(values) + tail;
    forall i | 0 <= i < |values|
      ensures Value(Reply(slave, values), i) == values[i]
    {
      ValuesOf(header, values, tail, i);
    }
  }

  /** A conforming reply, whatever follows it on the line, is read back. */
  lemma {:induction false} ReplyIsRead(slave: byte, values: seq<bv16>, line: Exchange)
    requires 1 <= |values| <= 125 && line.accepts >= 8
    requires Reply(slave, values) <= line.arrives
    ensures Outcome04(|values|, line) == Registers(values)
  {
    ReplyChecks(slave, values);
    assert Delivered(|values|, line.arrives) == Reply(slave, values);
  }

  /** `count` registers of a slave from `start` on. */
  function Bank(registers: nat -> bv16, start: nat, count: nat): (values: seq<bv16>)
    ensures |values| == count
  {
    seq(count, i requires i >= 0 => registers(start + i))
  }

  /** What a slave with these registers answers to a frame: its registers, as asked. */
  function Answered(registers: nat -> bv16, frame: seq<byte>): seq<byte> {
    match ReadRequest(frame)
    case None => []
    case Some(q) => if 1 <= q.count <= 125 then Reply(q.slave, Bank(registers, q.start, q.count)) else []
  }

  /** A slave that answers what it was asked has its registers read, those asked for
      and in order. */
  lemma {:induction false} RegistersAreRead(slave: byte, start: uint16, count: uint16, registers: nat -> bv16,
                                            line: Exchange)
    requires 1 <= count <= 125 && line.accepts >= 8
    requires Answered(registers, Framed(Request(slave, start, count))) <= line.arrives
    ensures Outcome04(count, line) == Registers(Bank(registers, start, count))
  {
    RequestIsRead(slave, start, count);
    ReplyIsRead(slave, Bank(registers, start, count), line);
  }

  lemma {:induction false} RequestsCount(n: nat)
    requires n < 256
    ensures |Requests(n)| == n
    decreases n
  {
    if n > 0 {
      RequestsCount(n - 1);
    }
  }

  lemma {:induction false} RequestsAt(n: nat, i: nat)
    requires i < n < 256
    ensures i < |Requests(n)| && Requests(n)[i] == Framed(Request((i + 1) as byte, 0, 1))
    decreases n
  {
    RequestsCount(n - 1);
    if i < n - 1 {
      RequestsAt(n - 1, i);
    }
  }

  /** A poll asks the slaves 1 to 5 for register 0, in that order. */
  lemma {:induction false} PollAsks(i: nat)
    requires i < POLLED
    ensures |Requests(POLLED)| == POLLED
    ensures ReadRequest(Requests(POLLED)[i]) == Some(Query((i + 1) as byte, 0, 1))
  {
    RequestsCount(POLLED);
    RequestsAt(POLLED, i);
    RequestIsRead((i + 1) as byte, 0, 1);
  }

  lemma {:induction false} RegistersWereWords(count: uint16, resp: seq<byte>, values: seq<bv16>)
    requires |resp| == 2 * count + 5 && Interpret(count, resp) == Registers(values)
    ensures |values| == count && resp[1] == 0x04 && resp[2] == (2 * count % 256) as byte
    ensures Words(values) == resp[3..2 * count + 3]
  {
    var body := resp[3..2 * count + 3];
    forall i | 0 <= i < count
      ensures values[i] == BigEndian(body[2 * i], body[2 * i + 1])
    {
      assert values[i] == Value(resp, i);
    }
    WordsUnique(values, body);
  }

  lemma {:induction false} InterpretedReply(count: uint16, resp: seq<byte>, values: seq<bv16>)
    requires count <= 125 && |resp| == 2 * count + 5 && CrcOk(resp) && Interpret(count, resp) == Registers(values)
    ensures |values| == count && resp == Reply(resp[0], values)
  {
    RegistersWereWords(count, resp, values);
    OkIsFramed(resp);
    assert resp[..2 * count + 3] == [resp[0], 0x04, (2 * count) as byte] + resp[3..2 * count + 3];
  }

  /** And only a conforming reply yields values. */
  lemma {:induction false} ReadWasReply(count: uint16, line: Exchange, values: seq<bv16>)
    requires Outcome04(count, line) == Registers(values)
    ensures 1 <= count <= 125 && line.accepts >= 8 && |values| == count
    ensures line.arrives != [] && Reply(line.arrives[0], values) <= line.arrives
  {
    var resp := Delivered(count, line.arrives);
    assert CrcOk(resp) && Interpret(count, resp) == Registers(values);
    InterpretedReply(count, resp, values);
  }

  /** Values come back exactly when what arrives starts with a conforming reply
      carrying them.  The slave address in it may be any: it is not compared. */
  lemma {:induction false} ReadIffReply(count: uint16, line: Exchange, values: seq<bv16>)
    ensures Outcome04(count, line) == Registers(values)
      <==> (1 <= count <= 125 && line.accepts >= 8 && |values| == count
            && exists slave: byte :: Reply(slave, values) <= line.arrives)
  {
    if Outcome04(count, line) == Registers(values) {
      ReadWasReply(count, line, values);
    } else if 1 <= count <= 125 && line.accepts >= 8 && |values| == count {
      forall slave: byte | Reply(slave, values) <= line.arrives
        ensures false
      {
        ReplyIsRead(slave, values, line);
      }
    }
  }

  lemma {:induction false} ExceptionWasReply(count: uint16, line: Exchange, code: byte)
    returns (slave: byte, more: seq<byte>)
    requires Outcome04(count, line) == ExceptionResponse(code)
    ensures 1 <= count <= 125 && line.accepts >= 8
    ensures Delivered(count, line.arrives) == Framed([slave, 0x84, code] + more)
  {
    var resp := Delivered(count, line.arrives);
    slave, more := resp[0], resp[3..|resp| - 2];
    OkIsFramed(resp);
    assert resp[..|resp| - 2] == [slave, 0x84, code] + more;
  }

  lemma {:induction false} ExceptionIsReported(count: uint16, line: Exchange, slave: byte, code: byte, more: seq<byte>)
    requires 1 <= count <= 125 && line.accepts >= 8
    requires Delivered(count, line.arrives) == Framed([slave, 0x84, code] + more)
    ensures Outcome04(count, line) == ExceptionResponse(code)
  {
    var adu := [slave, 0x84, code] + more;
    FramedOk(adu);
    assert Framed(adu)[1] == adu[1] == 0x84 && Framed(adu)[2] == adu[2] == code;
  }

  /** An exception surfaces exactly when the bytes read are a frame with a right
      checksum that starts as an exception reply for function code 04. */
  lemma {:induction false} ExceptionIff(count: uint16, line: Exchange, code: byte)
    ensures Outcome04(count, line) == ExceptionResponse(code)
      <==> (1 <= count <= 125 && line.accepts >= 8
            && exists slave: byte, more: seq<byte> ::
                 Delivered(count, line.arrives) == Framed([slave, 0x84, code] + more))
  {
    if Outcome04(count, line) == ExceptionResponse(code) {
      var slave, more := ExceptionWasReply(count, line, code);
    }
    if 1 <= count <= 125 && line.accepts >= 8 {
      forall slave: byte, more: seq<byte> | Delivered(count, line.arrives) == Framed([slave, 0x84, code] + more)
        ensures Outcome04(count, line) == ExceptionResponse(code)
      {
        ExceptionIsReported(count, line, slave, code, more);
      }
    }
  }

  /** Silence is a timeout: fewer than four bytes, once the request is out. */
  lemma {:induction false} TimeoutIff(count: uint16, line: Exchange)
    ensures Outcome04(count, line) == Timeout <==> 1 <= count <= 125 && line.accepts >= 8 && |line.arrives| < 4
  {
  }

  /** A CRC error: four bytes and more that are no message with its checksum. */
  lemma {:induction false} CrcErrorIff(count: uint16, line: Exchange)
    ensures Outcome04(count, line) == CrcError
      <==> (1 <= count <= 125 && line.accepts >= 8 && |line.arrives| >= 4
            && forall adu: seq<byte> :: Delivered(count, line.arrives) != Framed(adu))
  {
    if 1 <= count <= 125 && line.accepts >= 8 && |line.arrives| >= 4 {
      var resp := Delivered(count, line.arrives);
      if CrcOk(resp) {
        OkIsFramed(resp);
      }
      forall adu: seq<byte> | resp == Framed(adu) ensures CrcOk(resp) {
        FramedOk(adu);
      }
    }
  }

  /** A message that is neither an exception nor as many registers as were asked for. */
  predicate Malformed(count: uint16, adu: seq<byte>) {
    || |adu| < 3
    || (adu[1] != 0x84 && !(adu[1] == 0x04 && adu[2] == (2 * count % 256) as byte && |adu| == 2 * count + 3))
  }

  /** A frame error: a count out of range, a short write, or a message with its
      checksum that is malformed. */
  lemma {:induction false} FrameErrorIff(count: uint16, line: Exchange)
    ensures Outcome04(count, line) == FrameError
      <==> (|| !(1 <= count <= 125) || line.accepts < 8
            || (|line.arrives| >= 4
                && exists adu: seq<byte> :: Delivered(count, line.arrives) == Framed(adu) && Malformed(count, adu)))
  {
    if 1 <= count <= 125 && line.accepts >= 8 && |line.arrives| >= 4 {
      var resp := Delivered(count, line.arrives);
      if CrcOk(resp) {
        OkIsFramed(resp);
        FrameErrorOfMessage(count, line, resp[..|resp| - 2]);
      }
      forall adu: seq<byte> | resp == Framed(adu)
        ensures Outcome04(count, line) == FrameError <==> Malformed(count, adu)
      {
        FrameErrorOfMessage(count, line, adu);
      }
    }
  }

  lemma {:induction false} FrameErrorOfMessage(count: uint16, line: Exchange, adu: seq<byte>)
    requires 1 <= count <= 125 && line.accepts >= 8 && |line.arrives| >= 4
    requires Delivered(count, line.arrives) == Framed(adu)
    ensures Outcome04(count, line) == FrameError <==> Malformed(count, adu)
  {
    FramedOk(adu);
    var resp := Framed(adu);
    assert |resp| == |adu| + 2 <= 2 * count + 5 && resp[..|adu|] == adu;
    assert forall i :: 0 <= i < |adu| ==> resp[i] == adu[i];
  }

  /** An error the checksum is sure to notice: of an odd number of bits, of two bits in
      a frame of this size, or within sixteen consecutive bits. */
  ghost predicate Noticeable(e: seq<byte>) {
    || Count(FrameBits(e)) % 2 == 1
    || (Count(FrameBits(e)) == 2 && |e| <= 4095)
    || (true in FrameBits(e) && exists k :: Within(FrameBits(e), k, 16))
  }

  lemma {:induction false} DamageFailsCheck(frame: seq<byte>, e: seq<byte>)
    requires |frame| >= 2 && CrcOk(frame) && |e| == |frame| && Noticeable(e)
    ensures !CrcOk(Corrupt(frame, e))
  {
    if Count(FrameBits(e)) % 2 == 1 {
      OddDetected(frame, e);
    } else if Count(FrameBits(e)) == 2 && |e| <= 4095 {
      TwoBitsDetected(frame, e);
    } else {
      var k :| Within(FrameBits(e), k, 16);
      BurstDetected(frame, e, k);
    }
  }

  /** A reply damaged on the wire by a burst of at most 16 bits, in two bits, or in an
      odd number of bits, is a CRC error whatever follows it: never values, never an
      exception code. */
  lemma {:induction false} DamagedReplyIsCrcError(slave: byte, values: seq<bv16>, e: seq<byte>, line: Exchange)
    requires 1 <= |values| <= 125 && line.accepts >= 8
    requires |e| == |Reply(slave, values)| && Noticeable(e)
    requires Corrupt(Reply(slave, values), e) <= line.arrives
    ensures Outcome04(|values|, line) == CrcError
  {
    ReplyChecks(slave, values);
    DamageFailsCheck(Reply(slave, values), e);
    assert Delivered(|values|, line.arrives) == Corrupt(Reply(slave, values), e);
  }

  // ---- The poll -----------------------------------------------------------

  lemma {:induction false} AfterIsDrop(script: seq<Exchange>, n: nat)
    requires n <= |script|
    ensures After(script, n) == script[n..]
  {
    if n > 0 {
      AfterIsDrop(script, n - 1);
    }
  }

  lemma {:induction false} NodesAt(script: seq<Exchange>, unread: seq<byte>, n: nat, i: nat)
    requires i < n
    ensures Nodes(script, unread, n)[i] == NodeAt(script, unread, i)
  {
  }

  lemma {:induction false} LineAt(script: seq<Exchange>, unread: seq<byte>, i: nat)
    requires i < |script|
    ensures Line(script, unread, i) == Heard(Unread(script, unread, i), script[i])
  {
    AfterIsDrop(script, i);
  }

  lemma {:induction false} UnreadStep(script: seq<Exchange>, unread: seq<byte>, i: nat)
    requires i < |script|
    ensures Unread(script, unread, i + 1) == Leftover(1, Heard(Unread(script, unread, i), script[i]))
  {
    AfterIsDrop(script, i);
  }

  /** An exchange that delivers no more than is read, on a line without bytes from
      before, leaves none for the next. */
  predicate Tidy(line: Exchange) {
    Leftover(1, line) == []
  }

  lemma {:induction false} HeardAlone(line: Exchange)
    ensures Heard([], line) == line
  {
    assert [] + line.arrives == line.arrives;
  }

  lemma {:induction false} TidyPoll(script: seq<Exchange>, n: nat)
    requires n <= |script| && forall i :: 0 <= i < |script| ==> Tidy(script[i])
    ensures Unread(script, [], n) == []
  {
    if n > 0 {
      TidyPoll(script, n - 1);
      UnreadStep(script, [], n - 1);
      HeardAlone(script[n - 1]);
    }
  }

  lemma {:induction false} TidyNode(script: seq<Exchange>, i: nat)
    requires |script| == 5 && i < 5 && forall k :: 0 <= k < 5 ==> Tidy(script[k])
    ensures Nodes(script, [], 5)[i] == NodeFrom(i + 1, Outcome04(1, script[i]))
  {
    TidyPoll(script, i);
    NodesAt(script, [], 5, i);
    LineAt(script, [], i);
    HeardAlone(script[i]);
  }

  /** When no exchange leaves bytes unread, whatever happens on the line of one
      slave leaves the other nodes unchanged. */
  lemma {:induction false} PollIsolatesNodes(script: seq<Exchange>, j: nat, other: Exchange, i: nat)
    requires |script| == 5 && j < 5 && i < 5 && i != j
    requires Tidy(other) && forall k :: 0 <= k < 5 ==> Tidy(script[k])
    ensures Nodes(script[j := other], [], 5)[i] == Nodes(script, [], 5)[i]
  {
    TidyNode(script, i);
    TidyNode(script[j := other], i);
  }

  lemma {:induction false} ReplyLength(slave: byte, value: bv16)
    ensures |Reply(slave, [value])| == 7
  {
  }

  lemma {:induction false} OnlineIff(slave: nat, line: Exchange, value: bv16)
    ensures NodeFrom(slave, Outcome04(1, line)) == NodeState(slave, value, NODE_ONLINE)
      <==> line.accepts >= 8 && exists s: byte :: Reply(s, [value]) <= line.arrives
  {
    ReadIffReply(1, line, [value]);
    match Outcome04(1, line)
    case Registers(values) => ReadWasReply(1, line, values);
    case _ =>
  }

  /** Bytes that begin a reply, or hold one, make a slave that sends only the rest
      look online. */
  lemma {:induction false} UnreadCompletes(slave: nat, left: seq<byte>, s: byte, v: bv16) returns (next: Exchange)
    requires left != [] && (Reply(s, [v]) <= left || left <= Reply(s, [v]))
    ensures NodeFrom(slave, Outcome04(1, Heard(left, next))) == NodeState(slave, v, NODE_ONLINE)
    ensures NodeFrom(slave, Outcome04(1, next)) != NodeState(slave, v, NODE_ONLINE)
  {
    ReplyLength(s, v);
    next := Exchange(8, if |left| >= 7 then [] else Reply(s, [v])[|left|..]);
    assert Reply(s, [v]) <= left + next.arrives;
    OnlineIff(slave, Heard(left, next), v);
    OnlineIff(slave, next, v);
    forall t: byte | Reply(t, [v]) <= next.arrives
      ensures |next.arrives| >= 7
    {
      ReplyLength(t, v);
    }
  }

  /** Any other bytes spoil the reply of a slave that answers properly. */
  lemma {:induction false} UnreadSpoils(slave: nat, left: seq<byte>) returns (next: Exchange)
    requires forall s: byte, v: bv16 :: !(Reply(s, [v]) <= left) && !(left <= Reply(s, [v]))
    ensures NodeFrom(slave, Outcome04(1, Heard(left, next))) != NodeState(slave, 0, NODE_ONLINE)
    ensures NodeFrom(slave, Outcome04(1, next)) == NodeState(slave, 0, NODE_ONLINE)
  {
    next := Exchange(8, Reply(1, [0]));
    OnlineIff(slave, next, 0);
    OnlineIff(slave, Heard(left, next), 0);
    forall t: byte | Reply(t, [0]) <= left + next.arrives
      ensures Reply(t, [0]) <= left || left <= Reply(t, [0])
    {
      PrefixesCompare(Reply(t, [0]), left, next.arrives);
    }
  }

  lemma {:induction false} PrefixesCompare(a: seq<byte>, b: seq<byte>, c: seq<byte>)
    requires a <= b + c
    ensures a <= b || b <= a
  {
    if |a| <= |b| {
      assert a == (b + c)[..|a|] == b[..|a|];
    } else {
      assert a[..|b|] == (b + c)[..|b|] == b;
    }
  }

  /** Unread bytes can always disturb the next slave's node. */
  lemma {:induction false} UnreadDisturbs(slave: nat, left: seq<byte>) returns (next: Exchange)
    requires left != []
    ensures NodeFrom(slave, Outcome04(1, Heard(left, next))) != NodeFrom(slave, Outcome04(1, next))
  {
    if s: byte, v: bv16 :| Reply(s, [v]) <= left || left <= Reply(s, [v]) {
      next := UnreadCompletes(slave, left, s, v);
    } else {
      next := UnreadSpoils(slave, left);
    }
  }

  lemma {:induction false} UnreadPrefix(front: seq<Exchange>, rest: seq<Exchange>, unread: seq<byte>, n: nat)
    requires n <= |front|
    ensures Unread(front + rest, unread, n) == Unread(front, unread, n)
  {
    if n > 0 {
      UnreadPrefix(front, rest, unread, n - 1);
      UnreadStep(front + rest, unread, n - 1);
      UnreadStep(front, unread, n - 1);
    }
  }

  lemma {:induction false} NodeAfter(front: seq<Exchange>, rest: seq<Exchange>, unread: seq<byte>)
    requires |front| + |rest| == 5 && rest != []
    ensures Nodes(front + rest, unread, 5)[|front|]
      == NodeFrom(|front| + 1, Outcome04(1, Heard(Unread(front, unread, |front|), rest[0])))
  {
    NodesAt(front + rest, unread, 5, |front|);
    LineAt(front + rest, unread, |front|);
    UnreadPrefix(front, rest, unread, |front|);
  }

  /** A slave's node depends on its own exchange alone, whatever that will be,
      exactly when the exchanges before it left nothing unread. */
  lemma {:induction false} ReadAloneIff(front: seq<Exchange>, unread: seq<byte>)
    requires |front| < 5
    ensures (forall rest: seq<Exchange> :: |front| + |rest| == 5 ==>
               Nodes(front + rest, unread, 5)[|front|] == NodeFrom(|front| + 1, Outcome04(1, rest[0])))
      <==> Unread(front, unread, |front|) == []
  {
    var left, slave := Unread(front, unread, |front|), |front| + 1;
    if left == [] {
      forall rest: seq<Exchange> | |front| + |rest| == 5
        ensures Nodes(front + rest, unread, 5)[|front|] == NodeFrom(slave, Outcome04(1, rest[0]))
      {
        NodeAfter(front, rest, unread);
        HeardAlone(rest[0]);
      }
    } else {
      var next := UnreadDisturbs(slave, left);
      var rest := seq(5 - |front|, i => next);
      NodeAfter(front, rest, unread);
      assert |front| + |rest| == 5 && rest[0] == next;
    }
  }

  /** Every slave replies with its count, and the first reply arrives twice. */
  predicate FirstTwice(script: seq<Exchange>, counts: seq<bv16>)
    requires |script| == 5 && |counts| == 5
  {
    forall k :: 0 <= k < 5 ==>
      && script[k].accepts >= 8
      && script[k].arrives == (if k == 0 then Reply(1, [counts[0]]) else []) + Reply((k + 1) as byte, [counts[k]])
  }

  /** One reply that arrives twice, and every later node shows the count of the
      slave before it. */
  lemma {:induction false} DoubledReplyShiftsNodes(script: seq<Exchange>, counts: seq<bv16>, i: nat)
    requires |script| == 5 && |counts| == 5 && FirstTwice(script, counts) && 0 < i < 5
    ensures Nodes(script, [], 5)[i] == NodeState(i + 1, counts[i - 1], NODE_ONLINE)
  {
    UnreadIsBehind(script, counts, i);
    NodesAt(script, [], 5, i);
    LineAt(script, [], i);
    OnlineIff(i + 1, Line(script, [], i), counts[i - 1]);
    assert Reply(i as byte, [counts[i - 1]]) <= Line(script, [], i).arrives;
  }

  lemma {:induction false} SecondIsLeft(slave: byte, value: bv16, second: seq<byte>, line: Exchange)
    requires line.accepts >= 8 && line.arrives == Reply(slave, [value]) + second
    ensures Leftover(1, line) == second
  {
    ReplyLength(slave, value);
  }

  lemma {:induction false} UnreadIsBehind(script: seq<Exchange>, counts: seq<bv16>, i: nat)
    requires |script| == 5 && |counts| == 5 && FirstTwice(script, counts) && 0 < i < 5
    ensures Unread(script, [], i) == Reply(i as byte, [counts[i - 1]])
  {
    UnreadStep(script, [], i - 1);
    if i == 1 {
      HeardAlone(script[0]);
      SecondIsLeft(1, counts[0], Reply(1, [counts[0]]), script[0]);
    } else {
      UnreadIsBehind(script, counts, i - 1);
      var own := script[i - 1].arrives;
      assert own == Reply(i as byte, [counts[i - 1]]) by {
        assert own == [] + Reply((i - 1 + 1) as byte, [counts[i - 1]]);
      }
      SecondIsLeft((i - 1) as byte, counts[i - 2], own, Heard(Unread(script, [], i - 1), script[i - 1]));
    }
  }

  /** A slave that answers its poll with one register, with nothing unread in
      front, is online with that count, whatever follows. */
  lemma {:induction false} PollReportsOnline(script: seq<Exchange>, unread: seq<byte>, i: nat, slave: byte,
                                              cycles: bv16)
    requires |script| == 5 && i < 5 && script[i].accepts >= 8
    requires Unread(script, unread, i) == [] && Reply(slave, [cycles]) <= script[i].arrives
    ensures Nodes(script, unread, 5)[i] == NodeState(i + 1, cycles, NODE_ONLINE)
  {
    ReplyIsRead(slave, [cycles], script[i]);
    NodesAt(script, unread, 5, i);
    LineAt(script, unread, i);
    HeardAlone(script[i]);
  }

  /** A slave whose answer is noticeably damaged is in error, with count 0. */
  lemma {:induction false} PollReportsDamage(script: seq<Exchange>, unread: seq<byte>, i: nat, slave: byte,
                                              cycles: bv16, e: seq<byte>)
    requires |script| == 5 && i < 5 && script[i].accepts >= 8
    requires |e| == |Reply(slave, [cycles])| && Noticeable(e)
    requires Unread(script, unread, i) == [] && Corrupt(Reply(slave, [cycles]), e) <= script[i].arrives
    ensures Nodes(script, unread, 5)[i] == NodeState(i + 1, 0, NODE_ERROR)
  {
    DamagedReplyIsCrcError(slave, [cycles], e, script[i]);
    NodesAt(script, unread, 5, i);
    LineAt(script, unread, i);
    HeardAlone(script[i]);
  }
}
