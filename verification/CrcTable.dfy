/** 16-bit words and bytes as bit strings, and the checksum's look-up table. */
module CrcTable {
  import opened Crc16
  import opened CrcDetection

  type byte = bv8

  // ---- Words and bit strings ----------------------------------------------

  predicate Low(c: bv16) { c & 1 != 0 }

  function Half(c: bv16): bv16 { c >> 1 }

  function Add(c: bv16, d: bv16): bv16 { c ^ d }

  /** The `n` lowest bits of a word, least significant first. */
  function Unpack(c: bv16, n: nat): (bits: seq<bool>)
    requires n <= 16
    ensures |bits| == n
    decreases n
  {
    if n == 0 then [] else [Low(c)] + Unpack(Half(c), n - 1)
  }

  function Bits(c: bv16): Word { Unpack(c, 16) }

  lemma {:induction false} XorCons(p: bool, a: seq<bool>, q: bool, b: seq<bool>)
    requires |a| == |b|
    ensures Xor([p] + a, [q] + b) == [p != q] + Xor(a, b)
  {
  }

  lemma {:induction false} AddLow(c: bv16, d: bv16)
    ensures Half(Add(c, d)) == Add(Half(c), Half(d))
    ensures Low(Add(c, d)) == (Low(c) != Low(d))
  {
  }

  lemma {:induction false} UnpackAdd(c: bv16, d: bv16, n: nat)
    requires n <= 16
    ensures Unpack(Add(c, d), n) == Xor(Unpack(c, n), Unpack(d, n))
    decreases n
  {
    if n == 0 {
    } else {
      UnpackAdd(Half(c), Half(d), n - 1);
      AddLow(c, d);
      XorCons(Low(c), Unpack(Half(c), n - 1), Low(d), Unpack(Half(d), n - 1));
    }
  }

  lemma {:induction false} UnpackPrefix(c: bv16, m: nat, n: nat)
    requires m <= n <= 16
    ensures Unpack(c, n)[..m] == Unpack(c, m)
    decreases m
  {
    if m == 0 {
    } else {
      UnpackPrefix(Half(c), m - 1, n - 1);
      assert Unpack(c, n)[..m] == [Low(c)] + Unpack(Half(c), n - 1)[..m - 1];
    }
  }

  /** `c` shifted right `m` times. */
  function Right(c: bv16, m: nat): bv16
    decreases m
  {
    if m == 0 then c else Right(Half(c), m - 1)
  }

  lemma {:induction false} UnpackSuffix(c: bv16, m: nat, n: nat)
    requires m <= n <= 16
    ensures Unpack(c, n)[m..] == Unpack(Right(c, m), n - m)
    decreases m
  {
    if m == 0 {
    } else {
      UnpackSuffix(Half(c), m - 1, n - 1);
      assert Unpack(c, n)[m..] == Unpack(Half(c), n - 1)[m - 1..];
    }
  }

  lemma {:induction false} RightFour(c: bv16, m: nat)
    ensures Right(c, m + 4) == Right(c >> 4, m)
  {
    assert Half(Half(Half(Half(c)))) == c >> 4;
    assert Right(c, m + 4) == Right(Half(c), m + 3);
    assert Right(Half(c), m + 3) == Right(Half(Half(c)), m + 2);
    assert Right(Half(Half(c)), m + 2) == Right(Half(Half(Half(c))), m + 1);
  }

  lemma {:induction false} RightEight(c: bv16)
    ensures Right(c, 8) == c >> 8
  {
  }

  lemma {:induction false} RightSixteen(c: bv16)
    ensures Right(c, 16) == 0
  {
    RightFour(c, 12);
    RightFour(c >> 4, 8);
    RightFour((c >> 4) >> 4, 4);
    RightFour(((c >> 4) >> 4) >> 4, 0);
    assert (((c >> 4) >> 4) >> 4) >> 4 == 0;
  }

  lemma {:induction false} UnpackSnoc(c: bv16, n: nat)
    requires n < 16
    ensures Unpack(c, n + 1) == Unpack(c, n) + [Low(Right(c, n))]
    decreases n
  {
    if n == 0 {
    } else {
      UnpackSnoc(Half(c), n - 1);
    }
  }

  /** A word shifted right once, as a register. */
  lemma {:induction false} BitsHalf(c: bv16)
    ensures Bits(Half(c)) == Bits(c)[1..] + [false]
  {
    assert Right(Half(c), 15) == Right(c, 16);
    RightSixteen(c);
    assert !Low(0);
    UnpackSnoc(Half(c), 15);
  }

  lemma {:induction false} BitsPolynomial()
    ensures Bits(0xA001) == Mask(true)
  {
    assert Unpack(0x000A, 4) == [false, true, false, true];
    assert Unpack(0x00A0, 8) == [false, false, false, false, false, true, false, true];
    assert Unpack(0x0A00, 12) == Zeros(8) + [false, true, false, true];
    assert Bits(0xA001) == [true] + Zeros(12) + [true, false, true];
  }

  function BitStep(c: bv16): bv16 {
    if Low(c) then Add(Half(c), 0xA001) else Half(c)
  }

  /** The shift on words is the shift on registers. */
  lemma {:induction false} BitsStep(c: bv16)
    ensures Bits(BitStep(c)) == Step(Bits(c), false)
  {
    BitsHalf(c);
    StepShape(Bits(c), false);
    if Low(c) {
      UnpackAdd(Half(c), 0xA001, 16);
      BitsPolynomial();
    }
  }

  lemma {:induction false} UnpackZero(n: nat)
    requires n <= 16
    ensures Unpack(0, n) == Zeros(n)
  {
    if n == 0 {
    } else {
      assert !Low(0) && Half(0) == 0;
      UnpackZero(n - 1);
      assert Zeros(n) == [false] + Zeros(n - 1);
    }
  }

  function ByteBits(b: byte): (bits: seq<bool>)
    ensures |bits| == 8
  {
    Unpack(b as bv16, 8)
  }

  lemma {:induction false} BitsSplit(c: bv16)
    ensures Bits(c) == Unpack(c, 8) + Unpack(Right(c, 8), 8)
  {
    UnpackPrefix(c, 8, 16);
    UnpackSuffix(c, 8, 16);
  }

  lemma {:induction false} ByteIsHigh(b: byte)
    ensures (b as bv16) >> 8 == 0
  {
  }

  lemma {:induction false} BitsOfByte(b: byte)
    ensures Bits(b as bv16) == ByteBits(b) + Zeros(8)
  {
    BitsSplit(b as bv16);
    RightEight(b as bv16);
    ByteIsHigh(b);
    UnpackZero(8);
  }

  /** The bits of a frame in transmission order. */
  function FrameBits(frame: seq<byte>): (bits: seq<bool>)
    ensures |bits| == 8 * |frame|
  {
    if frame == [] then [] else ByteBits(frame[0]) + FrameBits(frame[1..])
  }

  lemma {:induction false} FrameBitsAppend(a: seq<byte>, b: seq<byte>)
    ensures FrameBits(a + b) == FrameBits(a) + FrameBits(b)
  {
    if a == [] {
      assert a + b == b;
    } else {
      assert (a + b)[1..] == a[1..] + b;
      FrameBitsAppend(a[1..], b);
    }
  }
}
