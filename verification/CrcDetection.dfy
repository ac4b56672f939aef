/** Which corrupted frames the receive check rejects.

The check accepts a frame exactly when feeding all of it, checksum included,
leaves the register at zero.  Feeding is linear, so an error pattern slips
through exactly when the pattern alone, fed from zero, leaves zero. */
module CrcDetection {
  import opened Crc16

  /** The receive check: the last 16 bits are the checksum of those before. */
  predicate Accepted(frame: seq<bool>)
    requires |frame| >= 16
  {
    Crc(frame[..|frame| - 16]) == frame[|frame| - 16..]
  }

  function Count(bits: seq<bool>): nat {
    if bits == [] then 0 else (if bits[0] then 1 else 0) + Count(bits[1..])
  }

  // ---- Linearity ----------------------------------------------------------

  lemma {:induction false} FeedLinear(c: Word, d: Word, x: seq<bool>, y: seq<bool>)
    requires |x| == |y|
    ensures Feed(Xor(c, d), Xor(x, y)) == Xor(Feed(c, x), Feed(d, y))
    decreases x
  {
    if x != [] {
      assert Xor(x, y)[1..] == Xor(x[1..], y[1..]);
      assert Step(Xor(c, d), x[0] != y[0]) == Xor(Step(c, x[0]), Step(d, y[0]));
      FeedLinear(Step(c, x[0]), Step(d, y[0]), x[1..], y[1..]);
    }
  }

  /** Up to 16 bits can be added to the register before the shifts. */
  lemma {:induction false} FeedShort(c: Word, bits: seq<bool>)
    requires |bits| <= 16
    ensures Feed(c, bits) == Feed(AddFront(c, bits), Zeros(|bits|))
    decreases bits
  {
    if bits == [] {
      assert AddFront(c, bits) == c;
    } else {
      var next := Step(c, bits[0]);
      FeedShort(next, bits[1..]);
      assert Zeros(|bits|)[1..] == Zeros(|bits| - 1);
      assert Step(AddFront(c, bits), false) == AddFront(next, bits[1..]);
    }
  }

  lemma {:induction false} StepZero(c: Word, b: bool)
    ensures Step(c, b) == Zeros(16) <==> c == [b] + Zeros(15)
  {
    var s := Step(c, b);
    if s == Zeros(16) {
      assert s[15] == (c[0] != b);
      forall i | 1 <= i < 16
        ensures !c[i]
      {
        assert s[i - 1] == c[i];
      }
    }
  }

  /** Idle shifts keep zero, and only zero, at zero. */
  lemma {:induction false} ShiftZero(c: Word, n: nat)
    ensures Feed(c, Zeros(n)) == Zeros(16) <==> c == Zeros(16)
    decreases n
  {
    if n > 0 {
      assert Zeros(n)[1..] == Zeros(n - 1);
      assert [false] + Zeros(15) == Zeros(16);
      StepZero(c, false);
      ShiftZero(Step(c, false), n - 1);
    }
  }

  // ---- The residue --------------------------------------------------------

  /** Feeding a word leaves zero exactly when the register held that word. */
  lemma {:induction false} FeedWord(c: Word, w: Word)
    ensures Feed(c, w) == Zeros(16) <==> c == w
  {
    FeedShort(c, w);
    ShiftZero(AddFront(c, w), 16);
    if AddFront(c, w) == Zeros(16) {
      forall i | 0 <= i < 16
        ensures c[i] == w[i]
      {
        assert !AddFront(c, w)[i];
      }
    }
  }

  lemma {:induction false} ResidueOfFrame(message: seq<bool>, w: Word)
    ensures Feed(Ones(16), message + w) == Zeros(16) <==> Crc(message) == w
  {
    FeedAppend(Ones(16), message, w);
    FeedWord(Crc(message), w);
  }

  /** A frame is accepted exactly when feeding all of it leaves zero. */
  lemma {:induction false} AcceptedIffResidueZero(frame: seq<bool>)
    requires |frame| >= 16
    ensures Accepted(frame) <==> Feed(Ones(16), frame) == Zeros(16)
  {
    var message, w := frame[..|frame| - 16], frame[|frame| - 16..];
    assert frame == message + w;
    ResidueOfFrame(message, w);
  }

  /** An error slips through exactly when its polynomial is a multiple of the
      generator, whatever frame it hits. */
  lemma {:induction false} UndetectedIffMultiple(frame: seq<bool>, e: seq<bool>)
    requires |frame| >= 16 && |e| == |frame| && Accepted(frame)
    ensures Accepted(Xor(frame, e)) <==> Feed(Zeros(16), e) == Zeros(16)
    ensures Accepted(Xor(frame, e)) <==> Remainder(e + Zeros(16)) == Zeros(16)
  {
    AcceptedIffResidueZero(frame);
    AcceptedIffResidueZero(Xor(frame, e));
    assert Xor(Ones(16), Zeros(16)) == Ones(16);
    FeedLinear(Ones(16), Zeros(16), frame, e);
    var residue := Feed(Zeros(16), e);
    assert Xor(Zeros(16), residue) == residue;
    FeedIsDivision(Zeros(16), e);
    assert AddFront(e + Zeros(16), Zeros(16)) == e + Zeros(16);
  }

  // ---- Bursts -------------------------------------------------------------

  /** All the bits set in `bits` lie in the window of `width` from `k` on. */
  predicate Within(bits: seq<bool>, k: nat, width: nat) {
    forall i :: 0 <= i < |bits| && bits[i] ==> k <= i < k + width
  }

  lemma {:induction false} FeedPadded(before: nat, burst: seq<bool>, after: nat)
    requires |burst| <= 16 && true in burst
    ensures Feed(Zeros(16), Zeros(before) + (burst + Zeros(after))) != Zeros(16)
  {
    FeedAppend(Zeros(16), Zeros(before), burst + Zeros(after));
    ShiftZero(Zeros(16), before);
    FeedAppend(Zeros(16), burst, Zeros(after));
    ShiftZero(Feed(Zeros(16), burst), after);
    var loaded := AddFront(Zeros(16), burst);
    var i :| 0 <= i < |burst| && burst[i];
    assert loaded[i];
    FeedShort(Zeros(16), burst);
    ShiftZero(loaded, |burst|);
  }

  lemma {:induction false} AllClear(bits: seq<bool>)
    requires forall i :: 0 <= i < |bits| ==> !bits[i]
    ensures bits == Zeros(|bits|)
  {
  }

  lemma {:induction false} CutThree(bits: seq<bool>, k: nat, end: nat)
    requires k <= end <= |bits|
    requires forall i :: 0 <= i < |bits| && bits[i] ==> k <= i < end
    ensures bits == Zeros(k) + (bits[k..end] + Zeros(|bits| - end))
  {
    AllClear(bits[..k]);
    AllClear(bits[end..]);
    assert bits == bits[..k] + (bits[k..end] + bits[end..]);
  }

  lemma {:induction false} BurstShape(bits: seq<bool>, k: nat) returns (before: nat, burst: seq<bool>, after: nat)
    requires Within(bits, k, 16) && true in bits
    ensures |burst| <= 16 && true in burst
    ensures bits == Zeros(before) + (burst + Zeros(after))
  {
    var at :| 0 <= at < |bits| && bits[at];
    var end := if k + 16 <= |bits| then k + 16 else |bits|;
    before, burst, after := k, bits[k..end], |bits| - end;
    CutThree(bits, k, end);
    assert burst[at - k];
  }

  lemma {:induction false} FeedBurst(bits: seq<bool>, k: nat)
    requires Within(bits, k, 16) && true in bits
    ensures Feed(Zeros(16), bits) != Zeros(16)
  {
    var before, burst, after := BurstShape(bits, k);
    FeedPadded(before, burst, after);
  }

  /** Every error confined to 16 consecutive bits on the wire, checksum bytes
      included, is rejected. */
  lemma {:induction false} BurstRejected(frame: seq<bool>, e: seq<bool>, k: nat)
    requires |frame| >= 16 && |e| == |frame| && Accepted(frame)
    requires Within(e, k, 16) && true in e
    ensures !Accepted(Xor(frame, e))
  {
    UndetectedIffMultiple(frame, e);
    FeedBurst(e, k);
  }

  lemma {:induction false} GeneratorStep()
    ensures Generator()[0] && Step(Zeros(16), true) == Generator()[1..]
  {
  }

  lemma {:induction false} GeneratorFeeds()
    ensures Feed(Zeros(16), Generator()) == Zeros(16)
  {
    GeneratorStep();
    var tail := Generator()[1..];
    FeedWord(tail, tail);
    assert Feed(Zeros(16), Generator()) == Feed(tail, tail);
  }

  lemma {:induction false} GeneratorFeedsToZero(before: nat, after: nat)
    ensures Feed(Zeros(16), Zeros(before) + (Generator() + Zeros(after))) == Zeros(16)
  {
    FeedAppend(Zeros(16), Zeros(before), Generator() + Zeros(after));
    ShiftZero(Zeros(16), before);
    FeedAppend(Zeros(16), Generator(), Zeros(after));
    GeneratorFeeds();
    ShiftZero(Zeros(16), after);
  }

  /** Sixteen is the best bound: an accepted frame hit by the generator, an error
      17 bits wide, is a different frame and accepted, wherever it is hit. */
  lemma {:induction false} GeneratorSlipsThrough(frame: seq<bool>, before: nat, after: nat)
    requires |frame| == before + 17 + after && Accepted(frame)
    ensures
      var e := Zeros(before) + (Generator() + Zeros(after));
      Within(e, before, 17) && Xor(frame, e) != frame && Accepted(Xor(frame, e))
  {
    var e := Zeros(before) + (Generator() + Zeros(after));
    GeneratorFeedsToZero(before, after);
    UndetectedIffMultiple(frame, e);
    assert e[before] && Xor(frame, e)[before] != frame[before];
  }

  // ---- Parity -------------------------------------------------------------

  lemma {:induction false} CountAppend(a: seq<bool>, b: seq<bool>)
    ensures Count(a + b) == Count(a) + Count(b)
  {
    if a == [] {
      assert a + b == b;
    } else {
      assert (a + b)[1..] == a[1..] + b;
      CountAppend(a[1..], b);
    }
  }

  lemma {:induction false} CountZeros(n: nat)
    ensures Count(Zeros(n)) == 0
  {
    if n > 0 {
      assert Zeros(n)[1..] == Zeros(n - 1);
      CountZeros(n - 1);
    }
  }

  lemma {:induction false} CountXor(a: seq<bool>, b: seq<bool>)
    requires |a| == |b|
    ensures Count(Xor(a, b)) % 2 == (Count(a) + Count(b)) % 2
  {
    if a != [] {
      assert Xor(a, b)[1..] == Xor(a[1..], b[1..]);
      CountXor(a[1..], b[1..]);
    }
  }

  /** What a shift XORs into the register: 0xA001 or nothing. */
  function Mask(out: bool): Word {
    if out then [true] + Zeros(12) + [true] + [false] + [true] else Zeros(16)
  }

  lemma {:induction false} CountMask(out: bool)
    ensures Count(Mask(out)) == if out then 3 else 0
  {
    CountAppend([true] + Zeros(12) + [true] + [false], [true]);
    CountAppend([true] + Zeros(12) + [true], [false]);
    CountAppend([true] + Zeros(12), [true]);
    CountAppend([true], Zeros(12));
    CountZeros(12);
    CountZeros(16);
  }

  lemma {:induction false} StepShape(c: Word, b: bool)
    ensures Step(c, b) == Xor(c[1..] + [false], Mask(c[0] != b))
  {
  }

  /** A shift adds the parity of the message bit to the register's. */
  lemma {:induction false} StepParity(c: Word, b: bool)
    ensures Count(Step(c, b)) % 2 == (Count(c) + if b then 1 else 0) % 2
  {
    var mask := Mask(c[0] != b);
    assert Step(c, b) == Xor(c[1..] + [false], mask) by {
      StepShape(c, b);
    }
    assert Count(mask) == if c[0] != b then 3 else 0 by {
      CountMask(c[0] != b);
    }
    CountXor(c[1..] + [false], mask);
    CountAppend(c[1..], [false]);
  }

  lemma {:induction false} FeedParity(c: Word, bits: seq<bool>)
    ensures Count(Feed(c, bits)) % 2 == (Count(c) + Count(bits)) % 2
    decreases bits
  {
    if bits != [] {
      StepParity(c, bits[0]);
      FeedParity(Step(c, bits[0]), bits[1..]);
    }
  }

  /** Every error with an odd number of bits is rejected. */
  lemma {:induction false} OddRejected(frame: seq<bool>, e: seq<bool>)
    requires |frame| >= 16 && |e| == |frame| && Accepted(frame)
    requires Count(e) % 2 == 1
    ensures !Accepted(Xor(frame, e))
  {
    UndetectedIffMultiple(frame, e);
    FeedParity(Zeros(16), e);
    CountZeros(16);
  }
}
