/** CRC-16/MODBUS as arithmetic on bits.

A message is the string of its bits in transmission order: byte after byte,
least significant bit first.  Bit i of a register is the coefficient of x^(15 - i), so one `Step` of
an idle register multiplies it by x modulo x^16 + x^15 + x^2 + 1. */
module Crc16 {

  /** A 16-bit register, least significant bit first. */
  type Word = w: seq<bool> | |w| == 16 witness seq(16, i => false)

  function Zeros(n: nat): (z: seq<bool>)
    ensures |z| == n
  {
    seq(n, i => false)
  }

  function Ones(n: nat): (z: seq<bool>)
    ensures |z| == n
  {
    seq(n, i => true)
  }

  /** Addition modulo 2 of two bit strings of one length. */
  function Xor(a: seq<bool>, b: seq<bool>): (r: seq<bool>)
    requires |a| == |b|
    ensures |r| == |a|
  {
    seq(|a|, i requires 0 <= i < |a| => a[i] != b[i])
  }

  /** Does the generator x^16 + x^15 + x^2 + 1 have the term x^(16 - i)? */
  predicate Tap(i: nat) {
    i == 0 || i == 1 || i == 14 || i == 16
  }

  /** One shift of section 6.2.2 of MODBUS over Serial Line V1.02 that takes in
      the message bit `b`: the bit that leaves the register, XORed with `b`,
      decides whether 0xA001 is XORed into what stays. */
  function Step(c: Word, b: bool): Word {
    seq(16, i requires 0 <= i < 16 => (i < 15 && c[i + 1]) != ((c[0] != b) && Tap(i + 1)))
  }

  /** The register after `bits` have been shifted in. */
  function Feed(c: Word, bits: seq<bool>): Word
    decreases bits
  {
    if bits == [] then c else Feed(Step(c, bits[0]), bits[1..])
  }

  /** The checksum of a message, one bit at a time. */
  function Crc(message: seq<bool>): Word {
    Feed(Ones(16), message)
  }

  lemma {:induction false} FeedAppend(c: Word, a: seq<bool>, b: seq<bool>)
    ensures Feed(c, a + b) == Feed(Feed(c, a), b)
    decreases a
  {
    if a == [] {
      assert a + b == b;
    } else {
      assert (a + b)[1..] == a[1..] + b;
      FeedAppend(Step(c, a[0]), a[1..], b);
    }
  }

  // ---- Polynomial division ------------------------------------------------

  /** The generator's coefficients, highest degree first. */
  function Generator(): (g: seq<bool>)
    ensures |g| == 17
  {
    seq(17, i requires 0 <= i < 17 => Tap(i))
  }

  /** `d` with `g` added, modulo 2, to its leading coefficients. */
  function AddFront(d: seq<bool>, g: seq<bool>): (r: seq<bool>)
    requires |g| <= |d|
    ensures |r| == |d|
  {
    seq(|d|, i requires 0 <= i < |d| => if i < |g| then d[i] != g[i] else d[i])
  }

  /** Schoolbook long division: what is left of the polynomial `d`, highest
      degree first, when multiples of the generator have cleared every
      coefficient of degree 16 and more. */
  function Remainder(d: seq<bool>): Word
    requires |d| >= 16
    decreases |d|
  {
    if |d| == 16 then d
    else if d[0] then Remainder(AddFront(d, Generator())[1..])
    else Remainder(d[1..])
  }

  lemma {:induction false} DivisionStep(c: Word, bits: seq<bool>)
    requires bits != []
    ensures AddFront(bits[1..] + Zeros(16), Step(c, bits[0]))
         == (var d := AddFront(bits + Zeros(16), c);
             if d[0] then AddFront(d, Generator())[1..] else d[1..])
  {
  }

  /** Feeding bits is dividing: the register sits on the leading coefficients
      of what is still to be divided. */
  lemma {:induction false} FeedIsDivision(c: Word, bits: seq<bool>)
    ensures Feed(c, bits) == Remainder(AddFront(bits + Zeros(16), c))
    decreases bits
  {
    if bits == [] {
      assert AddFront(bits + Zeros(16), c) == c;
    } else {
      DivisionStep(c, bits);
      FeedIsDivision(Step(c, bits[0]), bits[1..]);
    }
  }

  /** The checksum is the remainder of the message, its first 16 bits inverted
      and 16 zeros appended, on division by the generator. */
  lemma {:induction false} CrcIsPolynomialRemainder(message: seq<bool>)
    ensures Crc(message) == Remainder(AddFront(message + Zeros(16), Ones(16)))
  {
    FeedIsDivision(Ones(16), message);
  }
}
