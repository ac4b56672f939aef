/** The test broker's MQTT framing: the Remaining Length field (section 2.2.3 of
MQTT Version 3.1.1) and the PUBLISH packets it forwards and reads.

A bit mask on a byte is written as the arithmetic it amounts to: setting the top
bit adds 128 to a number below 128, and the low seven bits are the rest by 128. */
module MqttFraming {
  import opened Wrappers

  type Byte = x: int | 0 <= x < 256

  // ---- Remaining Length ---------------------------------------------------

  /** Seven bits to a byte, the low ones first, the top bit on all but the last. */
  function Encoding(n: nat): seq<Byte> {
    if n < 128 then [n] else [n % 128 + 128] + Encoding(n / 128)
  }

  /** The number at the start of a stream, and what follows it; `None` when the
      stream ends first. */
  function Decoding(stream: seq<Byte>): Option<(nat, seq<Byte>)> {
    if stream == [] then None
    else if stream[0] < 128 then Some((stream[0], stream[1..]))
    else match Decoding(stream[1..])
      case None => None
      case Some((n, rest)) => Some((stream[0] - 128 + 128 * n, rest))
  }

  method EncodeRemaining(length: nat) returns (buf: seq<Byte>)
    ensures buf == Encoding(length)
  {
    buf := [];
    var left := length;
    while true
      invariant buf + Encoding(left) == Encoding(length)
      decreases left
    {
      var low: Byte := left % 128;
      var high := left / 128;
      if high > 0 {
        low := low + 128;
      }
      assert Encoding(left) == [low] + if high > 0 then Encoding(high) else [];
      buf := buf + [low];
      left := high;
      if high == 0 {
        return;
      }
    }
  }

  /** A decoded number, once the bytes before it came to `sum`. */
  function Continued(decoded: Option<(nat, seq<Byte>)>, sum: nat, multiplier: nat): Option<(nat, seq<Byte>)> {
    match decoded
    case None => None
    case Some((n, rest)) => Some((sum + multiplier * n, rest))
  }

  lemma LastByte(stream: seq<Byte>, sum: nat, multiplier: nat, low: nat)
    requires stream != [] && stream[0] < 128 && low == stream[0]
    ensures Continued(Decoding(stream), sum, multiplier) == Some((sum + low * multiplier, stream[1..]))
  {
  }

  lemma InnerByte(stream: seq<Byte>, sum: nat, multiplier: nat, low: nat)
    requires stream != [] && stream[0] >= 128 && low == stream[0] - 128
    ensures Continued(Decoding(stream), sum, multiplier)
      == Continued(Decoding(stream[1..]), sum + low * multiplier, multiplier * 128)
  {
    if Decoding(stream[1..]).Some? {
      Distribute(multiplier, low, Decoding(stream[1..]).value.0);
    }
  }

  lemma Distribute(m: nat, low: nat, n: nat)
    ensures m * (low + 128 * n) == low * m + (m * 128) * n
  {
  }

  method DecodeRemaining(stream: seq<Byte>) returns (value: Option<nat>, rest: seq<Byte>)
    ensures match Decoding(stream)
            case None => value == None
            case Some((n, after)) => value == Some(n) && rest == after
  {
    rest := stream;
    var multiplier: nat, sum: nat := 1, 0;
    assert Continued(Decoding(stream), 0, 1) == Decoding(stream);
    while true
      invariant Continued(Decoding(rest), sum, multiplier) == Decoding(stream)
      decreases |rest|
    {
      if rest == [] {
        return None, rest;
      }
      var data := rest[0];
      var low: nat := data % 128;
      if data < 128 {
        LastByte(rest, sum, multiplier, low);
      } else {
        InnerByte(rest, sum, multiplier, low);
      }
      sum := sum + low * multiplier;
      multiplier := multiplier * 128;
      rest := rest[1..];
      if data < 128 {
        return Some(sum), rest;
      }
    }
  }

  /** What was encoded is read back, whatever follows it on the stream. */
  lemma {:induction false} RoundTrip(n: nat, rest: seq<Byte>)
    ensures Decoding(Encoding(n) + rest) == Some((n, rest))
  {
    var stream := Encoding(n) + rest;
    if n < 128 {
      assert stream[1..] == rest;
    } else {
      RoundTrip(n / 128, rest);
      assert stream[1..] == Encoding(n / 128) + rest;
    }
  }

  /** The four bytes the standard allows hold exactly the numbers up to
      268 435 455. */
  lemma EncodingLength(n: nat)
    ensures |Encoding(n)| <= 4 <==> n <= 268435455
  {
    EncodedIn(n, 3);
    EncodedIn(n / 128, 2);
    EncodedIn(n / 128 / 128, 1);
    EncodedIn(n / 128 / 128 / 128, 0);
  }

  /** One byte more holds 128 times as much. */
  lemma EncodedIn(n: nat, k: nat)
    ensures |Encoding(n)| <= k + 1 <==> n < 128 || (k > 0 && |Encoding(n / 128)| <= k)
  {
  }

  /** The decoder accepts longer forms than the encoder writes: what it consumed is
      the encoding exactly when it did not end in an empty byte of its own. */
  lemma {:induction false} DecodingMeans(stream: seq<Byte>)
    ensures match Decoding(stream)
            case None => forall i :: 0 <= i < |stream| ==> stream[i] >= 128
            case Some((n, rest)) =>
              && |rest| < |stream| && rest == stream[|stream| - |rest|..]
              && var used := |stream| - |rest|;
                 && |Encoding(n)| <= used
                 && (stream[..used] == Encoding(n) <==> used == 1 || stream[used - 1] != 0)
  {
    if stream != [] && stream[0] >= 128 {
      DecodingMeans(stream[1..]);
      match Decoding(stream[1..])
      case None =>
      case Some((n, rest)) =>
        var used := |stream| - |rest|;
        assert stream[..used] == [stream[0]] + stream[1..][..used - 1];
    }
  }

  // ---- PUBLISH packets ----------------------------------------------------

  /** A topic's characters, by code point. */
  type Topic = seq<nat>

  /** UTF-8 of one code point, as `encode` writes it. */
  function Utf8(c: nat): seq<Byte>
    requires c < 0x110000
  {
    if c < 0x80 then [c]
    else if c < 0x800 then [0xC0 + c / 64, 0x80 + c % 64]
    else if c < 0x10000 then [0xE0 + c / 4096, 0x80 + c / 64 % 64, 0x80 + c % 64]
    else [0xF0 + c / 262144, 0x80 + c / 4096 % 64, 0x80 + c / 64 % 64, 0x80 + c % 64]
  }

  /** No code point outside Unicode, nor a surrogate, which `encode` rejects. */
  predicate Encodable(topic: Topic) {
    forall i :: 0 <= i < |topic| ==> topic[i] < 0xD800 || 0xE000 <= topic[i] < 0x110000
  }

  function Bytes(topic: Topic): seq<Byte>
    requires Encodable(topic)
  {
    if topic == [] then [] else Utf8(topic[0]) + Bytes(topic[1..])
  }

  /** The six low bits of a continuation byte. */
  function Low6(b: Byte): nat
    requires 0x80 <= b < 0xC0
  {
    b - 0x80
  }

  predicate Continues(bytes: seq<Byte>, n: nat) {
    n < |bytes| && forall i :: 1 <= i <= n ==> 0x80 <= bytes[i] < 0xC0
  }

  /** The character at the start of the bytes, as section 3 of RFC 3629 reads it, and
      what follows it. */
  function FirstChar(bytes: seq<Byte>): Option<(nat, seq<Byte>)> {
    if bytes == [] then None
    else if bytes[0] < 0x80 then Some((bytes[0], bytes[1..]))
    else if 0xC0 <= bytes[0] < 0xE0 && Continues(bytes, 1) then
      Some((64 * (bytes[0] - 0xC0) + Low6(bytes[1]), bytes[2..]))
    else if 0xE0 <= bytes[0] < 0xF0 && Continues(bytes, 2) then
      Some((4096 * (bytes[0] - 0xE0) + 64 * Low6(bytes[1]) + Low6(bytes[2]), bytes[3..]))
    else if 0xF0 <= bytes[0] && Continues(bytes, 3) then
      Some((262144 * (bytes[0] - 0xF0) + 4096 * Low6(bytes[1]) + 64 * Low6(bytes[2]) + Low6(bytes[3]), bytes[4..]))
    else None
  }

  function Decoded(bytes: seq<Byte>): Option<Topic>
    decreases |bytes|
  {
    if bytes == [] then Some([])
    else match FirstChar(bytes)
      case None => None
      case Some((c, rest)) =>
        if |rest| >= |bytes| then None
        else match Decoded(rest)
          case None => None
          case Some(topic) => Some([c] + topic)
  }

  lemma TwoBytes(c: nat, rest: seq<Byte>)
    requires 0x80 <= c < 0x800
    ensures FirstChar(Utf8(c) + rest) == Some((c, rest))
  {
    var bytes := Utf8(c) + rest;
    assert bytes[0] == 0xC0 + c / 64 && bytes[1] == 0x80 + c % 64 && bytes[2..] == rest;
    assert Continues(bytes, 1);
  }

  lemma ThreeBytes(c: nat, rest: seq<Byte>)
    requires 0x800 <= c < 0x10000
    ensures FirstChar(Utf8(c) + rest) == Some((c, rest))
  {
    var bytes := Utf8(c) + rest;
    assert bytes[0] == 0xE0 + c / 4096 && bytes[1] == 0x80 + c / 64 % 64 && bytes[2] == 0x80 + c % 64;
    assert bytes[3..] == rest && Continues(bytes, 2);
    Split64(c, c / 64);
  }

  lemma FourBytes(c: nat, rest: seq<Byte>)
    requires 0x10000 <= c < 0x110000
    ensures FirstChar(Utf8(c) + rest) == Some((c, rest))
  {
    var bytes := Utf8(c) + rest;
    assert bytes[0] == 0xF0 + c / 262144 && bytes[1] == 0x80 + c / 4096 % 64;
    assert bytes[2] == 0x80 + c / 64 % 64 && bytes[3] == 0x80 + c % 64;
    assert bytes[4..] == rest && Continues(bytes, 3);
    Split64(c, c / 64);
    Split64(c / 64, c / 4096);
  }

  lemma Split64(c: nat, q: nat)
    requires q == c / 64
    ensures c == 64 * q + c % 64 && q / 64 == c / 4096 && q / 4096 == c / 262144
  {
  }

  lemma Utf8IsRead(c: nat, rest: seq<Byte>)
    requires c < 0x110000
    ensures FirstChar(Utf8(c) + rest) == Some((c, rest)) && |Utf8(c)| >= 1
  {
    if c < 0x80 {
      assert ([c] + rest)[1..] == rest;
    } else if c < 0x800 {
      TwoBytes(c, rest);
    } else if c < 0x10000 {
      ThreeBytes(c, rest);
    } else {
      FourBytes(c, rest);
    }
  }

  /** The bytes of a topic are its UTF-8: they decode to it. */
  lemma {:induction false} BytesDecode(topic: Topic)
    requires Encodable(topic)
    ensures Decoded(Bytes(topic)) == Some(topic)
    decreases |topic|
  {
    if topic != [] {
      Utf8IsRead(topic[0], Bytes(topic[1..]));
      BytesDecode(topic[1..]);
      assert topic == [topic[0]] + topic[1..];
    }
  }

  predicate Ascii(topic: Topic) {
    forall i :: 0 <= i < |topic| ==> topic[i] < 128
  }

  /** A character takes one byte exactly when it is ASCII. */
  lemma {:induction false} BytesLength(topic: Topic)
    requires Encodable(topic)
    ensures |Bytes(topic)| >= |topic|
    ensures |Bytes(topic)| == |topic| <==> Ascii(topic)
    decreases |topic|
  {
    if topic != [] {
      BytesLength(topic[1..]);
      assert Ascii(topic) <==> topic[0] < 128 && Ascii(topic[1..]);
    }
  }

  /** The length of the topic, in characters, and its bytes. */
  function Header(topic: Topic): seq<Byte>
    requires Encodable(topic) && |topic| < 65536
  {
    [|topic| / 256, |topic| % 256] + Bytes(topic)
  }

  /** The packet `_forward` builds; `None` where `struct.pack` raises an error. */
  function Packet(topic: Topic, payload: seq<Byte>): Option<seq<Byte>>
    requires Encodable(topic)
  {
    if |topic| >= 65536 then None
    else
      Some([0x30] + Encoding(|Header(topic)| + |payload|) + (Header(topic) + payload))
  }

  /** `_parse_publish` of a QoS 0 packet: the bytes of the topic and the payload. */
  function ParsePublish(data: seq<Byte>): Option<(seq<Byte>, seq<Byte>)> {
    if |data| < 2 then None
    else
      var high: nat, low: nat := data[0], data[1];
      var size := 256 * high + low;
      if 2 + size > |data| then None else Some((data[2..2 + size], data[2 + size..]))
  }

  /** What a reader of the stream makes of the next packet, and what follows it. */
  function ReadPublish(stream: seq<Byte>): Option<((seq<Byte>, seq<Byte>), seq<Byte>)> {
    if stream == [] || stream[0] != 0x30 then None
    else match Decoding(stream[1..])
      case None => None
      case Some((n, rest)) =>
        if |rest| < n then None
        else match ParsePublish(rest[..n])
          case None => None
          case Some(parsed) => Some((parsed, rest[n..]))
  }

  /** A reader makes something of a stream only if it begins with a QoS 0 PUBLISH: a
      length that covers the rest of the packet, the length of the topic, its bytes and
      the payload. */
  lemma ReadMeans(stream: seq<Byte>)
    ensures match ReadPublish(stream)
            case None => true
            case Some(((bytes, payload), rest)) =>
              && stream != [] && stream[0] == 0x30 && |bytes| < 65536
              && Decoding(stream[1..])
                 == Some((2 + |bytes| + |payload|, [|bytes| / 256, |bytes| % 256] + bytes + payload + rest))
  {
    if ReadPublish(stream).Some? {
      var n, after := Decoding(stream[1..]).value.0, Decoding(stream[1..]).value.1;
      var data, rest := after[..n], after[n..];
      ParseMeans(data);
      assert after == data + rest;
    }
  }

  lemma ParseMeans(data: seq<Byte>)
    ensures match ParsePublish(data)
            case None => |data| < 2 || 2 + 256 * data[0] + data[1] > |data|
            case Some((bytes, payload)) =>
              |bytes| < 65536 && data == [|bytes| / 256, |bytes| % 256] + bytes + payload
  {
    if ParsePublish(data).Some? {
      var high: nat, low: nat := data[0], data[1];
      var size := 256 * high + low;
      assert size / 256 == high && size % 256 == low;
      assert data == data[..2] + data[2..2 + size] + data[2 + size..];
    }
  }

  lemma SplitBehind(size: seq<Byte>, bytes: seq<Byte>, payload: seq<Byte>, n: nat)
    requires |size| == 2 && n <= |bytes|
    ensures (size + bytes + payload)[2..2 + n] == bytes[..n]
    ensures (size + bytes + payload)[2 + n..] == bytes[n..] + payload
  {
  }

  lemma ParsedHeader(topic: Topic, payload: seq<Byte>)
    requires Encodable(topic) && |topic| < 65536
    ensures |topic| <= |Bytes(topic)|
    ensures ParsePublish(Header(topic) + payload) == Some((Bytes(topic)[..|topic|], Bytes(topic)[|topic|..] + payload))
  {
    BytesLength(topic);
    var n, bytes := |topic|, Bytes(topic);
    var size: seq<Byte> := [n / 256, n % 256];
    SplitBehind(size, bytes, payload, n);
    var data := Header(topic) + payload;
    assert data == size + bytes + payload && data[0] == n / 256 && data[1] == n % 256;
  }

  /** What is read back from a forwarded packet: the first bytes of the topic, one
      per character, and the others in front of the payload. */
  lemma ForwardedIsRead(topic: Topic, payload: seq<Byte>, after: seq<Byte>)
    requires Encodable(topic) && |topic| < 65536
    ensures |topic| <= |Bytes(topic)|
    ensures ReadPublish(Packet(topic, payload).value + after)
      == Some(((Bytes(topic)[..|topic|], Bytes(topic)[|topic|..] + payload), after))
  {
    var data := Header(topic) + payload;
    var stream := Packet(topic, payload).value + after;
    assert stream[1..] == Encoding(|data|) + (data + after);
    RoundTrip(|data|, data + after);
    assert (data + after)[..|data|] == data && (data + after)[|data|..] == after;
    ParsedHeader(topic, payload);
  }

  /** A forwarded packet reads back as its topic and payload, and leaves what follows it
      on the stream, exactly when the topic is ASCII: its length field counts
      characters, not bytes. */
  lemma {:induction false} ForwardRoundTripIff(topic: Topic, payload: seq<Byte>, after: seq<Byte>)
    requires Encodable(topic) && |topic| < 65536
    ensures (match ReadPublish(Packet(topic, payload).value + after)
             case None => false
             case Some(((bytes, read), rest)) => Decoded(bytes) == Some(topic) && read == payload && rest == after)
      <==> Ascii(topic)
  {
    ForwardedIsRead(topic, payload, after);
    BytesLength(topic);
    BytesDecode(topic);
    if Ascii(topic) {
      assert Bytes(topic)[..|topic|] == Bytes(topic) && Bytes(topic)[|topic|..] + payload == payload;
    }
  }
}
