/** Frames of bytes: the checksum appended on sending and compared on receiving. */
module CrcFrames {
  import opened Crc16
  import opened CrcDetection
  import opened CrcTable
  import opened CrcLookup

  function LowByte(c: bv16): byte { (c & 0xFF) as byte }

  function HighByte(c: bv16): byte { ((c >> 8) & 0xFF) as byte }

  /** The word a checksum or register is rebuilt as from its two bytes. */
  function Join(low: byte, high: byte): bv16 {
    (low as bv16) | ((high as bv16) << 8)
  }

  /** A message with its checksum, low byte first. */
  function Framed(adu: seq<byte>): (frame: seq<byte>)
    ensures |frame| == |adu| + 2
  {
    adu + [LowByte(TableCrc(adu)), HighByte(TableCrc(adu))]
  }

  /** The comparison `receive_response` makes. */
  predicate CrcOk(frame: seq<byte>)
    requires |frame| >= 2
  {
    var n := |frame|;
    TableCrc(frame[..n - 2]) == Join(frame[n - 2], frame[n - 1])
  }

  // ---- The check, in bytes and in bits ------------------------------------

  lemma {:induction false} UnpackNothing(c: bv16, n: nat)
    requires n <= 16 && Unpack(c, n) == Zeros(n) && Right(c, n) == 0
    ensures c == 0
    decreases n
  {
    if n == 0 {
    } else {
      assert !Low(c) by {
        assert Zeros(n)[0] == Unpack(c, n)[0];
      }
      assert Unpack(Half(c), n - 1) == Unpack(c, n)[1..] == Zeros(n - 1);
      UnpackNothing(Half(c), n - 1);
      NothingLeft(c);
    }
  }

  lemma {:induction false} NothingLeft(c: bv16)
    requires !Low(c) && Half(c) == 0
    ensures c == 0
  {
  }

  lemma {:induction false} AddNothing(c: bv16, d: bv16)
    requires Add(c, d) == 0
    ensures c == d
  {
  }

  lemma {:induction false} XorSelf(a: seq<bool>)
    ensures Xor(a, a) == Zeros(|a|)
  {
  }

  lemma {:induction false} BitsInjective(c: bv16, d: bv16)
    requires Bits(c) == Bits(d)
    ensures c == d
  {
    UnpackAdd(c, d, 16);
    XorSelf(Bits(c));
    RightSixteen(Add(c, d));
    UnpackNothing(Add(c, d), 16);
    AddNothing(c, d);
  }

  lemma {:induction false} JoinParts(low: byte, high: byte)
    ensures Join(low, high) == Add(low as bv16, (high as bv16) << 8)
    ensures Join(low, high) >> 8 == high as bv16
  {
  }

  /** The low byte of a word shifted up eight places is clear. */
  lemma {:induction false} LowByteClear(h: byte)
    ensures Unpack((h as bv16) << 8, 8) == Zeros(8)
  {
  }

  lemma {:induction false} XorZero(a: seq<bool>)
    ensures Xor(a, Zeros(|a|)) == a
  {
  }

  lemma {:induction false} BitsOfJoin(low: byte, high: byte)
    ensures Bits(Join(low, high)) == ByteBits(low) + ByteBits(high)
  {
    JoinParts(low, high);
    BitsSplit(Join(low, high));
    RightEight(Join(low, high));
    UnpackAdd(low as bv16, (high as bv16) << 8, 8);
    LowByteClear(high);
    XorZero(ByteBits(low));
  }

  lemma {:induction false} ChecksumBits(message: seq<byte>, low: byte, high: byte)
    ensures TableCrc(message) == Join(low, high) <==> Crc(FrameBits(message)) == ByteBits(low) + ByteBits(high)
  {
    BitsOfJoin(low, high);
    TableCrcIsCrc(message);
    if Bits(TableCrc(message)) == Bits(Join(low, high)) {
      BitsInjective(TableCrc(message), Join(low, high));
    }
  }

  lemma {:induction false} FrameBitsOf(message: seq<byte>, low: byte, high: byte)
    ensures FrameBits(message + [low, high]) == FrameBits(message) + (ByteBits(low) + ByteBits(high))
  {
    FrameBitsAppend(message, [low, high]);
    assert [low, high][1..] == [high] && [high][1..] == [];
  }

  lemma {:induction false} AcceptedSplit(message: seq<bool>, tail: seq<bool>)
    requires |tail| == 16
    ensures Accepted(message + tail) <==> Crc(message) == tail
  {
  }

  lemma {:induction false} CrcOkSplit(message: seq<byte>, low: byte, high: byte)
    ensures CrcOk(message + [low, high]) <==> TableCrc(message) == Join(low, high)
  {
  }

  lemma {:induction false} AcceptedIffChecksum(message: seq<byte>, low: byte, high: byte)
    ensures Accepted(FrameBits(message + [low, high])) <==> TableCrc(message) == Join(low, high)
  {
    FrameBitsOf(message, low, high);
    AcceptedSplit(FrameBits(message), ByteBits(low) + ByteBits(high));
    ChecksumBits(message, low, high);
  }

  lemma {:induction false} SplitFrame(frame: seq<byte>) returns (message: seq<byte>, low: byte, high: byte)
    requires |frame| >= 2
    ensures frame == message + [low, high] && message == frame[..|frame| - 2]
  {
    var n := |frame| - 2;
    message, low, high := frame[..n], frame[n], frame[n + 1];
  }

  /** The byte check is the bit check. */
  lemma {:induction false} CrcOkIsAccepted(frame: seq<byte>)
    requires |frame| >= 2
    ensures CrcOk(frame) <==> Accepted(FrameBits(frame))
  {
    var message, low, high := SplitFrame(frame);
    CrcOkSplit(message, low, high);
    AcceptedIffChecksum(message, low, high);
  }

  /** What is sent passes the check, and only that: a frame passes exactly when
      it is some message with its checksum. */
  lemma {:induction false} FramedOk(adu: seq<byte>)
    ensures CrcOk(Framed(adu))
  {
  }

  lemma {:induction false} OkIsFramed(frame: seq<byte>)
    requires |frame| >= 2 && CrcOk(frame)
    ensures frame == Framed(frame[..|frame| - 2])
  {
  }

  // ---- Corrupted frames ---------------------------------------------------

  /** `frame` with the bits that are set in `e` flipped. */
  function Corrupt(frame: seq<byte>, e: seq<byte>): (r: seq<byte>)
    requires |e| == |frame|
    ensures |r| == |frame|
  {
    seq(|frame|, i requires 0 <= i < |frame| => frame[i] ^ e[i])
  }

  lemma {:induction false} WidenXor(a: byte, b: byte)
    ensures (a ^ b) as bv16 == Add(a as bv16, b as bv16)
  {
  }

  lemma {:induction false} XorAppend(a: seq<bool>, b: seq<bool>, c: seq<bool>, d: seq<bool>)
    requires |a| == |b| && |c| == |d|
    ensures Xor(a + c, b + d) == Xor(a, b) + Xor(c, d)
  {
  }

  lemma {:induction false} CorruptBits(frame: seq<byte>, e: seq<byte>)
    requires |e| == |frame|
    ensures FrameBits(Corrupt(frame, e)) == Xor(FrameBits(frame), FrameBits(e))
  {
    if frame == [] {
    } else {
      WidenXor(frame[0], e[0]);
      UnpackAdd(frame[0] as bv16, e[0] as bv16, 8);
      assert Corrupt(frame, e)[1..] == Corrupt(frame[1..], e[1..]);
      CorruptBits(frame[1..], e[1..]);
      XorAppend(ByteBits(frame[0]), ByteBits(e[0]), FrameBits(frame[1..]), FrameBits(e[1..]));
    }
  }

  /** Whether an error slips through depends on the error alone: it must be a
      multiple of the generator polynomial. */
  lemma {:induction false} UndetectedError(frame: seq<byte>, e: seq<byte>)
    requires |frame| >= 2 && |e| == |frame| && CrcOk(frame)
    ensures CrcOk(Corrupt(frame, e)) <==> Remainder(FrameBits(e) + Zeros(16)) == Zeros(16)
  {
    CrcOkIsAccepted(frame);
    CrcOkIsAccepted(Corrupt(frame, e));
    CorruptBits(frame, e);
    UndetectedIffMultiple(FrameBits(frame), FrameBits(e));
  }

  /** Every error confined to 16 consecutive bits on the wire is detected. */
  lemma {:induction false} BurstDetected(frame: seq<byte>, e: seq<byte>, k: nat)
    requires |frame| >= 2 && |e| == |frame| && CrcOk(frame)
    requires Within(FrameBits(e), k, 16) && true in FrameBits(e)
    ensures !CrcOk(Corrupt(frame, e))
  {
    CrcOkIsAccepted(frame);
    CrcOkIsAccepted(Corrupt(frame, e));
    CorruptBits(frame, e);
    BurstRejected(FrameBits(frame), FrameBits(e), k);
  }

  /** Every error of an odd number of bits is detected. */
  lemma {:induction false} OddDetected(frame: seq<byte>, e: seq<byte>)
    requires |frame| >= 2 && |e| == |frame| && CrcOk(frame)
    requires Count(FrameBits(e)) % 2 == 1
    ensures !CrcOk(Corrupt(frame, e))
  {
    CrcOkIsAccepted(frame);
    CrcOkIsAccepted(Corrupt(frame, e));
    CorruptBits(frame, e);
    OddRejected(FrameBits(frame), FrameBits(e));
  }
}
