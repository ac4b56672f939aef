/** Errors of two bits: the receive check misses exactly those a multiple of 32767 bits
apart. */
module CrcTwoBits {
  import opened Crc16
  import opened CrcDetection
  import opened CrcTable
  import opened CrcFrames
  import opened CrcOrder

  // ---- Two bits -----------------------------------------------------------

  lemma {:induction false} FeedShift(c: Word, m: nat)
    requires m > 0
    ensures Feed(c, Zeros(m)) == Feed(Step(c, false), Zeros(m - 1))
  {
    assert Zeros(m)[1..] == Zeros(m - 1);
  }

  /** The word after `n` idle shifts. */
  function Shifted(c: bv16, n: nat): bv16
    decreases n
  {
    if n == 0 then c else Shifted(BitStep(c), n - 1)
  }

  lemma {:induction false} FeedShifted(c: bv16, n: nat)
    ensures Feed(Bits(c), Zeros(n)) == Bits(Shifted(c, n))
    decreases n
  {
    if n == 0 {
    } else {
      FeedShift(Bits(c), n);
      BitsStep(c);
      FeedShifted(BitStep(c), n - 1);
    }
  }

  lemma {:induction false} ShiftedPower(m: nat, n: nat)
    ensures Shifted(Power(m), n) == Power(m + n)
    decreases n
  {
    if n == 0 {
    } else {
      ShiftedPower(m + 1, n - 1);
    }
  }

  lemma {:induction false} ShiftedOne(n: nat)
    ensures Shifted(1, n) == 1 <==> Unit(n)
  {
    Power15();
    ShiftedPower(15, n);
    PowersMeet(n, 0, 15);
  }

  /** The register that one more set bit takes to zero. */
  function LastBit(): Word {
    [true] + Zeros(15)
  }

  lemma {:induction false} BitsOfLast()
    ensures Bits(1) == LastBit()
  {
    assert Low(1) && Half(1) == 0;
    UnpackZero(15);
  }

  lemma {:induction false} FeedLastIff(n: nat)
    ensures Feed(LastBit(), Zeros(n)) == LastBit() <==> Unit(n)
  {
    BitsOfLast();
    FeedShifted(1, n);
    ShiftedOne(n);
    if Bits(Shifted(1, n)) == Bits(1) {
      BitsInjective(Shifted(1, n), 1);
    }
  }

  /** A set bit shifted into an empty register, and an idle shift of the last bit, leave
      the same. */
  lemma {:induction false} FirstBit()
    ensures Step(Zeros(16), true) == Step(LastBit(), false)
  {
  }

  lemma {:induction false} FeedLastBit(c: Word, after: nat)
    ensures Feed(c, [true] + Zeros(after)) == Zeros(16) <==> c == LastBit()
  {
    assert ([true] + Zeros(after))[1..] == Zeros(after);
    ShiftZero(Step(c, true), after);
    StepZero(c, true);
  }

  /** Two bits, `d` apart, among zeros. */
  function Pair(before: nat, d: nat, after: nat): seq<bool>
    requires d >= 1
  {
    Zeros(before) + ([true] + (Zeros(d - 1) + ([true] + Zeros(after))))
  }

  lemma {:induction false} FeedFirstBit(rest: seq<bool>)
    ensures Feed(Zeros(16), [true] + rest) == Feed(Step(LastBit(), false), rest)
  {
    FirstBit();
    assert ([true] + rest)[1..] == rest;
  }

  lemma {:induction false} FeedPair(before: nat, d: nat, after: nat)
    requires d >= 1
    ensures Feed(Zeros(16), Pair(before, d, after)) == Zeros(16) <==> Unit(d)
  {
    var end := [true] + Zeros(after);
    var rest := Zeros(d - 1) + end;
    FeedAppend(Zeros(16), Zeros(before), [true] + rest);
    ShiftZero(Zeros(16), before);
    FeedFirstBit(rest);
    FeedAppend(Step(LastBit(), false), Zeros(d - 1), end);
    FeedShift(LastBit(), d);
    FeedLastBit(Feed(LastBit(), Zeros(d)), after);
    FeedLastIff(d);
  }

  /** Exactly the bits `i` and `j` are set. */
  predicate TwoAt(bits: seq<bool>, i: nat, j: nat) {
    i < j < |bits| && forall k :: 0 <= k < |bits| ==> (bits[k] <==> k == i || k == j)
  }

  lemma {:induction false} TwoIsPair(bits: seq<bool>, i: nat, j: nat)
    requires TwoAt(bits, i, j)
    ensures bits == Pair(i, j - i, |bits| - j - 1)
  {
  }

  /** An error of two bits slips through exactly when they are a multiple of 32767
      apart. */
  lemma {:induction false} TwoBitsAcceptedIff(frame: seq<bool>, e: seq<bool>, i: nat, j: nat)
    requires |frame| >= 16 && |e| == |frame| && Accepted(frame) && TwoAt(e, i, j)
    ensures Accepted(Xor(frame, e)) <==> (j - i) % 32767 == 0
  {
    UndetectedIffMultiple(frame, e);
    TwoIsPair(e, i, j);
    FeedPair(i, j - i, |e| - j - 1);
    UnitIff(j - i);
  }

  // ---- Frames of bytes ----------------------------------------------------

  lemma {:induction false} TwoBitsUndetectedIff(frame: seq<byte>, e: seq<byte>, i: nat, j: nat)
    requires |frame| >= 2 && |e| == |frame| && CrcOk(frame) && TwoAt(FrameBits(e), i, j)
    ensures CrcOk(Corrupt(frame, e)) <==> (j - i) % 32767 == 0
  {
    CrcOkIsAccepted(frame);
    CrcOkIsAccepted(Corrupt(frame, e));
    CorruptBits(frame, e);
    TwoBitsAcceptedIff(FrameBits(frame), FrameBits(e), i, j);
  }

  lemma {:induction false} CountNone(bits: seq<bool>)
    requires Count(bits) == 0
    ensures forall k :: 0 <= k < |bits| ==> !bits[k]
  {
    if bits != [] {
      CountNone(bits[1..]);
      assert forall k :: 1 <= k < |bits| ==> bits[k] == bits[1..][k - 1];
    }
  }

  lemma {:induction false} CountOne(bits: seq<bool>) returns (i: nat)
    requires Count(bits) == 1
    ensures i < |bits| && forall k :: 0 <= k < |bits| ==> (bits[k] <==> k == i)
  {
    if bits[0] {
      CountNone(bits[1..]);
      i := 0;
    } else {
      i := CountOne(bits[1..]);
      i := i + 1;
    }
    assert forall k :: 1 <= k < |bits| ==> bits[k] == bits[1..][k - 1];
  }

  lemma {:induction false} CountTwo(bits: seq<bool>) returns (i: nat, j: nat)
    requires Count(bits) == 2
    ensures TwoAt(bits, i, j)
  {
    if bits[0] {
      j := CountOne(bits[1..]);
      i, j := 0, j + 1;
    } else {
      i, j := CountTwo(bits[1..]);
      i, j := i + 1, j + 1;
    }
    assert forall k :: 1 <= k < |bits| ==> bits[k] == bits[1..][k - 1];
  }

  /** Every error of two bits is detected in a frame of at most 4095 bytes. */
  lemma {:induction false} TwoBitsDetected(frame: seq<byte>, e: seq<byte>)
    requires 2 <= |frame| <= 4095 && |e| == |frame| && CrcOk(frame)
    requires Count(FrameBits(e)) == 2
    ensures !CrcOk(Corrupt(frame, e))
  {
    var i, j := CountTwo(FrameBits(e));
    TwoBitsUndetectedIff(frame, e, i, j);
  }
}
