/** The Modbus RTU master (function code 04) and the poll of the five nodes. */
module ModbusRtu {
  import opened Wrappers
  import opened ByteNumbers
  import opened CrcTable
  import opened CrcLookup
  import opened CrcFrames

  type uint16 = n: nat | n < 0x10000

  const MAX_FRAME: nat := 256

  /** How a call to `read_input_registers` ends: values, or one of the exceptions. */
  datatype Outcome =
    | Registers(values: seq<bv16>)
    | Timeout
    | CrcError
    | FrameError
    | ExceptionResponse(code: byte)

  /** What the line does in one exchange: how many bytes `write` takes and what
      arrives before the read times out. */
  datatype Exchange = Exchange(accepts: nat, arrives: seq<byte>)

  /** The injected serial port, driven by a script of exchanges; when the script
      has run out, the line is silent.  Bytes that are not read stay in `incoming`:
      no write or read of the master discards them. */
  class SerialPort {
    var script: seq<Exchange>
    var sent: seq<seq<byte>>
    var incoming: seq<byte>

    constructor (script: seq<Exchange>)
      ensures this.script == script && sent == [] && incoming == []
    {
      this.script, sent, incoming := script, [], [];
    }

    method Write(frame: seq<byte>) returns (written: nat)
      modifies this
      ensures sent == old(sent) + [frame]
      ensures script == Later(old(script))
      ensures incoming == old(incoming) + Current(old(script)).arrives
      ensures written == Min(Current(old(script)).accepts, |frame|)
    {
      var now := Current(script);
      sent, script, incoming := sent + [frame], Later(script), incoming + now.arrives;
      written := Min(now.accepts, |frame|);
    }

    /** Fills the front of `buffer` with at most `len` of the bytes that arrived. */
    method Read(buffer: array<byte>, len: nat) returns (received: nat)
      requires len <= buffer.Length
      modifies this`incoming, buffer
      ensures received == Min(len, |old(incoming)|)
      ensures buffer[..received] == old(incoming)[..received] && incoming == old(incoming)[received..]
    {
      received := Min(len, |incoming|);
      for i := 0 to received
        modifies buffer
        invariant buffer[..i] == incoming[..i]
      {
        buffer[i] := incoming[i];
        assert buffer[..i + 1] == buffer[..i] + [incoming[i]];
      }
      incoming := incoming[received..];
    }
  }

  function Min(a: nat, b: nat): nat {
    if a <= b then a else b
  }

  function Current(script: seq<Exchange>): Exchange {
    if script == [] then Exchange(MAX_FRAME, []) else script[0]
  }

  function Later(script: seq<Exchange>): seq<Exchange> {
    if script == [] then [] else script[1..]
  }

  // ---- What a call means --------------------------------------------------

  /** The request for `count` input registers from `start` on. */
  function Request(slave: byte, start: uint16, count: uint16): seq<byte> {
    [slave, 0x04, (start / 256) as byte, (start % 256) as byte, (count / 256) as byte, (count % 256) as byte]
  }

  /** What a slave is asked for. */
  datatype Query = Query(slave: byte, start: nat, count: nat)

  /** What a slave makes of a frame: section 6.4 of the MODBUS Application Protocol
      V1.1b3 in an RTU frame, which is eight bytes long. */
  function ReadRequest(frame: seq<byte>): Option<Query> {
    if |frame| == 8 && CrcOk(frame) && frame[1] == 0x04
    then Some(Query(frame[0], Number(frame[2], frame[3]), Number(frame[4], frame[5])))
    else None
  }

  /** The frame of a request asks for what the call asks for. */
  lemma {:induction false} RequestIsRead(slave: byte, start: uint16, count: uint16)
    ensures ReadRequest(Framed(Request(slave, start, count))) == Some(Query(slave, start, count))
  {
    var adu := Request(slave, start, count);
    FramedOk(adu);
    NumberOfBytes(start);
    NumberOfBytes(count);
    assert Framed(adu)[..6] == adu;
  }

  /** Registers as they travel: high byte first. */
  function Words(values: seq<bv16>): (bytes: seq<byte>)
    ensures |bytes| == 2 * |values|
  {
    if values == [] then []
    else Words(values[..|values| - 1]) + [HighByte(values[|values| - 1]), LowByte(values[|values| - 1])]
  }

  /** A conforming slave's reply: section 6.4 of the MODBUS Application
      Protocol V1.1b3 in an RTU frame. */
  function Reply(slave: byte, values: seq<bv16>): seq<byte>
    requires |values| <= 125
  {
    Framed([slave, 0x04, (2 * |values|) as byte] + Words(values))
  }

  /** The bytes a read can deliver for this request. */
  function Delivered(count: uint16, arrives: seq<byte>): seq<byte> {
    arrives[..Min(2 * count + 5, |arrives|)]
  }

  function BigEndian(high: byte, low: byte): bv16 {
    ((high as bv16) << 8) | (low as bv16)
  }

  /** Register `i` of a response. */
  function Value(resp: seq<byte>, i: nat): bv16
    requires 4 + 2 * i < |resp|
  {
    BigEndian(resp[3 + 2 * i], resp[4 + 2 * i])
  }

  /** What `read_input_registers` makes of a response that passed the check. */
  function Interpret(count: uint16, resp: seq<byte>): Outcome {
    if |resp| < 5 then FrameError
    else if resp[1] == 0x84 then ExceptionResponse(resp[2])
    else if resp[1] != 0x04 then FrameError
    else if resp[2] != (2 * count % 256) as byte then FrameError
    else if |resp| < 2 * count + 5 then FrameError
    else Registers(seq(count, i requires 0 <= i < count && 2 * count + 5 <= |resp| => Value(resp, i)))
  }

  /** The line as the read finds it: bytes left unread before come first. */
  function Heard(unread: seq<byte>, line: Exchange): Exchange {
    line.(arrives := unread + line.arrives)
  }

  /** The bytes a call leaves unread; after a short write nothing is read. */
  function Leftover(count: uint16, line: Exchange): seq<byte> {
    if line.accepts < 8 then line.arrives else line.arrives[Min(2 * count + 5, |line.arrives|)..]
  }

  /** The outcome as a function of what the line does. */
  function Outcome04(count: uint16, line: Exchange): Outcome {
    if count < 1 || count > 125 || line.accepts < 8 then FrameError
    else
      var resp := Delivered(count, line.arrives);
      if |resp| < 4 then Timeout
      else if !CrcOk(resp) then CrcError
      else Interpret(count, resp)
  }

  /** What the length and checksum tests make of the bytes received. */
  function Checked(got: seq<byte>): (seq<byte>, Outcome) {
    if |got| < 4 then ([], Timeout) else if !CrcOk(got) then ([], CrcError) else (got, Registers([]))
  }

  lemma {:induction false} OutcomeOfChecked(count: uint16, line: Exchange)
    requires 1 <= count <= 125 && line.accepts >= 8
    ensures
      var checked := Checked(Delivered(count, line.arrives));
      Outcome04(count, line) == if checked.0 == [] then checked.1 else Interpret(count, checked.0)
  {
  }

  // ---- The master ---------------------------------------------------------

  class ModbusRTUMaster {
    const port: SerialPort

    constructor (port: SerialPort)
      ensures this.port == port
    {
      this.port := port;
    }

    /** Appends the checksum and writes; false is the short-write exception. */
    method SendRequest(adu: seq<byte>) returns (ok: bool)
      modifies port
      ensures port.sent == old(port.sent) + [Framed(adu)]
      ensures port.script == Later(old(port.script))
      ensures port.incoming == old(port.incoming) + Current(old(port.script)).arrives
      ensures ok <==> Current(old(port.script)).accepts >= |adu| + 2
    {
      var crc := Crc16Of(adu, |adu|);
      assert adu[..|adu|] == adu;
      var frame := adu;
      frame := frame + [LowByte(crc)];
      frame := frame + [HighByte(crc)];
      assert frame == Framed(adu);
      var written := port.Write(frame);
      ok := written == |frame|;
    }

    /** The bytes received, when enough arrived and their checksum is right. */
    method ReceiveResponse(expected: nat) returns (resp: seq<byte>, failure: Outcome)
      requires expected <= MAX_FRAME
      modifies port`incoming
      ensures var want := if expected > 0 then expected else MAX_FRAME;
        var n := Min(want, |old(port.incoming)|);
        && port.incoming == old(port.incoming)[n..]
        && (resp, failure) == Checked(old(port.incoming)[..n])
    {
      var buf := new byte[MAX_FRAME];
      var received := port.Read(buf, if expected > 0 then expected else MAX_FRAME);
      resp, failure := Examine(buf[..received]);
    }

    /** The part of `receive_response` after the bytes are in. */
    method Examine(bytes: seq<byte>) returns (resp: seq<byte>, failure: Outcome)
      ensures (resp, failure) == Checked(bytes)
    {
      var received := |bytes|;
      if received < 4 {
        return [], Timeout;
      }
      var computed := Crc16Of(bytes, received - 2);
      var rcv := Join(bytes[received - 2], bytes[received - 1]);
      if computed != rcv {
        return [], CrcError;
      }
      return bytes, Registers([]);
    }

    /** Function code 04. */
    method ReadInputRegisters(slave: byte, start: uint16, count: uint16) returns (out: Outcome)
      modifies port
      ensures !(1 <= count <= 125) ==>
        && out == FrameError && port.sent == old(port.sent)
        && port.script == old(port.script) && port.incoming == old(port.incoming)
      ensures 1 <= count <= 125 ==>
        var line := Heard(old(port.incoming), Current(old(port.script)));
        && out == Outcome04(count, line) && port.incoming == Leftover(count, line)
        && port.sent == old(port.sent) + [Framed(Request(slave, start, count))]
        && ReadRequest(port.sent[|old(port.sent)|]) == Some(Query(slave, start, count))
        && port.script == Later(old(port.script))
    {
      out := FrameError;
      if 1 <= count <= 125 {
        ghost var line := Heard(port.incoming, Current(port.script));
        RequestIsRead(slave, start, count);
        var ok := SendRequest(Request(slave, start, count));
        if ok {
          out := Answer(count, line.accepts, line.arrives);
        }
      }
    }

    /** The part of `read_input_registers` after the request is out. */
    method Answer(count: uint16, ghost accepts: nat, ghost available: seq<byte>) returns (out: Outcome)
      requires 1 <= count <= 125 && accepts >= 8 && available == port.incoming
      modifies port`incoming
      ensures out == Outcome04(count, Exchange(accepts, available))
      ensures port.incoming == Leftover(count, Exchange(accepts, available))
    {
      ghost var got := Delivered(count, available);
      var resp, failure := ReceiveResponse(3 + 2 * count + 2);
      assert (resp, failure) == Checked(got);
      if resp == [] {
        out := failure;
      } else {
        out := Extract(count, resp);
      }
      OutcomeOfChecked(count, Exchange(accepts, available));
    }

    /** The part of `read_input_registers` after the response is in. */
    method Extract(count: uint16, resp: seq<byte>) returns (out: Outcome)
      ensures out == Interpret(count, resp)
    {
      if |resp| < 5 {
        return FrameError;
      }
      if resp[1] == 0x04 | 0x80 {
        return ExceptionResponse(resp[2]);
      }
      if resp[1] != 0x04 {
        return FrameError;
      }
      if resp[2] != (2 * count % 256) as byte {
        return FrameError;
      }
      var registers: seq<bv16> := [];
      var i := 0;
      while i < count
        invariant i <= count && |registers| == i
        invariant 2 * i + 5 <= |resp|
        invariant forall k :: 0 <= k < i ==> registers[k] == Value(resp, k)
      {
        var offset := 3 + 2 * i;
        if offset + 1 >= |resp| - 2 {
          return FrameError;
        }
        registers := registers + [BigEndian(resp[offset], resp[offset + 1])];
        i := i + 1;
      }
      return Registers(registers);
    }
  }

  // ---- The poll -----------------------------------------------------------

  datatype NodeStatus = NODE_OFFLINE | NODE_ONLINE | NODE_ERROR

  datatype NodeState = NodeState(nodeId: nat, cycleCount: bv16, status: NodeStatus)

  /** How the outcome of reading one slave shows up in the payload. */
  function NodeFrom(slave: nat, outcome: Outcome): NodeState {
    match outcome
    case Registers(values) =>
      if values != [] then NodeState(slave, values[0], NODE_ONLINE) else NodeState(slave, 0, NODE_OFFLINE)
    case _ => NodeState(slave, 0, NODE_ERROR)
  }

  /** The node of a slave as its poll finds the line. */
  function NodeOn(slave: nat, line: Exchange): NodeState {
    NodeFrom(slave, Outcome04(1, line))
  }

  /** The script after `n` exchanges. */
  function After(script: seq<Exchange>, n: nat): seq<Exchange> {
    if n == 0 then script else Later(After(script, n - 1))
  }

  /** The bytes left unread by the first `n` exchanges of a poll, with `unread`
      left from before. */
  function Unread(script: seq<Exchange>, unread: seq<byte>, n: nat): seq<byte> {
    if n == 0 then unread
    else Leftover(1, Heard(Unread(script, unread, n - 1), Current(After(script, n - 1))))
  }

  /** The line as the poll of slave `n + 1` finds it. */
  function Line(script: seq<Exchange>, unread: seq<byte>, n: nat): Exchange {
    Heard(Unread(script, unread, n), Current(After(script, n)))
  }

  /** The node of slave `n + 1`. */
  function NodeAt(script: seq<Exchange>, unread: seq<byte>, n: nat): NodeState {
    NodeOn(n + 1, Line(script, unread, n))
  }

  /** The payload's nodes for slaves 1 to `n`. */
  function Nodes(script: seq<Exchange>, unread: seq<byte>, n: nat): (nodes: seq<NodeState>)
    ensures |nodes| == n
  {
    seq(n, i requires 0 <= i < n => NodeAt(script, unread, i))
  }

  /** The frames requesting register 0 of slaves 1 to `n`. */
  function Requests(n: nat): seq<seq<byte>>
    requires n < 256
  {
    if n == 0 then [] else Requests(n - 1) + [Framed(Request(n as byte, 0, 1))]
  }

  method PollNode(master: ModbusRTUMaster, slave: nat) returns (node: NodeState)
    requires slave < 256
    modifies master.port
    ensures
      var line := Heard(old(master.port.incoming), Current(old(master.port.script)));
      node == NodeOn(slave, line) && master.port.incoming == Leftover(1, line)
    ensures master.port.script == Later(old(master.port.script))
    ensures master.port.sent == old(master.port.sent) + [Framed(Request(slave as byte, 0, 1))]
  {
    node := NodeState(slave, 0, NODE_OFFLINE);
    var out := master.ReadInputRegisters(slave as byte, 0, 1);
    match out {
      case Registers(values) =>
        if values != [] {
          node := node.(cycleCount := values[0], status := NODE_ONLINE);
        } else {
          node := node.(cycleCount := 0, status := NODE_OFFLINE);
        }
      case _ =>
        node := node.(status := NODE_ERROR);
    }
  }

  lemma {:induction false} NodesAppend(script: seq<Exchange>, unread: seq<byte>, n: nat)
    ensures Nodes(script, unread, n + 1) == Nodes(script, unread, n) + [NodeAt(script, unread, n)]
  {
  }

  const POLLED: nat := 5

  /** One poll of slaves 1 to 5: the nodes of the payload, in order. */
  method PollNodes(master: ModbusRTUMaster) returns (nodes: seq<NodeState>)
    modifies master.port
    ensures nodes == Nodes(old(master.port.script), old(master.port.incoming), POLLED)
    ensures master.port.incoming == Unread(old(master.port.script), old(master.port.incoming), POLLED)
    ensures master.port.script == After(old(master.port.script), POLLED)
    ensures master.port.sent == old(master.port.sent) + Requests(POLLED)
  {
    nodes := [];
    var slave := 1;
    while slave <= POLLED
      invariant 1 <= slave <= POLLED + 1
      invariant nodes == Nodes(old(master.port.script), old(master.port.incoming), slave - 1)
      invariant master.port.incoming == Unread(old(master.port.script), old(master.port.incoming), slave - 1)
      invariant master.port.script == After(old(master.port.script), slave - 1)
      invariant master.port.sent == old(master.port.sent) + Requests(slave - 1)
    {
      NodesAppend(old(master.port.script), old(master.port.incoming), slave - 1);
      var node := PollNode(master, slave);
      nodes := nodes + [node];
      slave := slave + 1;
    }
    assert slave - 1 == POLLED;
  }
}
