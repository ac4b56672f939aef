/** The order of `x` modulo the generator, with `x` as one idle shift of the register:
the powers that are 1 are those whose exponent is a multiple of 32767. */
module CrcOrder {
  import opened CrcTable

  /** The power x^n modulo the generator: `n` idle shifts of 1, which is bit 15. */
  function Power(n: nat): bv16
    decreases n
  {
    if n == 0 then 0x8000 else BitStep(Power(n - 1))
  }

  lemma {:induction false} BitStepInjective(c: bv16, d: bv16)
    requires BitStep(c) == BitStep(d)
    ensures c == d
  {
  }

  lemma {:induction false} PowersMeet(a: nat, b: nat, n: nat)
    ensures Power(a + n) == Power(b + n) <==> Power(a) == Power(b)
    decreases n
  {
    if n == 0 {
    } else {
      PowersMeet(a, b, n - 1);
      if Power(a + n) == Power(b + n) {
        BitStepInjective(Power(a + n - 1), Power(b + n - 1));
      }
    }
  }

  // ---- Squares ------------------------------------------------------------

  /** The square of a polynomial: each of its terms is squared. */
  function Square(c: bv16): bv16 {
    ((c & 1) * 0x6001) ^ (((c >> 1) & 1) * 0xC007) ^ (((c >> 2) & 1) * 0xC019)
      ^ (((c >> 3) & 1) * 0xC061) ^ (((c >> 4) & 1) * 0xC181) ^ (((c >> 5) & 1) * 0xC601)
      ^ (((c >> 6) & 1) * 0xD801) ^ (((c >> 7) & 1) * 0xA001) ^ (((c >> 8) & 1) * 0x0002)
      ^ (((c >> 9) & 1) * 0x0008) ^ (((c >> 10) & 1) * 0x0020) ^ (((c >> 11) & 1) * 0x0080)
      ^ (((c >> 12) & 1) * 0x0200) ^ (((c >> 13) & 1) * 0x0800) ^ (((c >> 14) & 1) * 0x2000)
      ^ (((c >> 15) & 1) * 0x8000)
  }

  /** A shift without a test: bit 0 is what XORs 0xA001 into the rest. */
  function Shift(c: bv16): bv16 { (c >> 1) ^ ((c & 1) << 15) ^ ((c & 1) << 13) ^ (c & 1) }

  lemma {:induction false} ShiftOdd(c: bv16)
    requires c & 1 != 0
    ensures Shift(c) == (c >> 1) ^ 0xA001
  {
  }

  lemma {:induction false} ShiftEven(c: bv16)
    requires c & 1 == 0
    ensures Shift(c) == c >> 1
  {
  }

  lemma {:induction false} ShiftIsStep(c: bv16)
    ensures Shift(c) == BitStep(c)
  {
    if c & 1 != 0 {
      ShiftOdd(c);
    } else {
      ShiftEven(c);
    }
  }

  lemma {:induction false} SquareOfShift(c: bv16)
    ensures Square(Shift(c)) == Shift(Shift(Square(c)))
  {
  }

  lemma {:induction false} SquareOfStep(c: bv16)
    ensures Square(BitStep(c)) == BitStep(BitStep(Square(c)))
  {
    SquareOfShift(c);
    ShiftIsStep(c);
    ShiftIsStep(Square(c));
    ShiftIsStep(Shift(Square(c)));
  }

  lemma {:induction false} SquareOfOne()
    ensures Square(0x8000) == 0x8000
  {
  }

  lemma {:induction false} SquareOfPower(n: nat)
    ensures Power(2 * n) == Square(Power(n))
    decreases n
  {
    if n == 0 {
      SquareOfOne();
    } else {
      SquareOfPower(n - 1);
      SquareOfStep(Power(n - 1));
      assert Power(2 * n) == BitStep(Power(2 * n - 1));
      assert Power(2 * n - 1) == BitStep(Power(2 * n - 2));
    }
  }

  lemma {:induction false} Twice(n: nat, c: bv16)
    requires Power(n) == c
    ensures Power(2 * n) == Square(c)
  {
    SquareOfPower(n);
  }

  lemma {:induction false} Next(n: nat, c: bv16)
    requires Power(n) == c
    ensures Power(n + 1) == BitStep(c)
  {
  }

  lemma {:induction false} Power15()
    ensures Power(15) == 0x0001
  {
    Twice(1, 0x4000);
    Next(2, 0x2000);
    Twice(3, 0x1000);
    Next(6, 0x0200);
    Twice(7, 0x0100);
    Next(14, 0x0002);
  }

  lemma {:induction false} Power32768()
    ensures Power(32768) == 0x4000
  {
    Twice(1, 0x4000);
    Twice(2, 0x2000);
    Twice(4, 0x0800);
    Twice(8, 0x0080);
    Twice(16, 0xA001);
    Twice(32, 0xE801);
    Twice(64, 0xC881);
    Twice(128, 0x6080);
    Twice(256, 0x8801);
    Twice(512, 0xE081);
    Twice(1024, 0x6800);
    Twice(2048, 0x2880);
    Twice(4096, 0xA881);
    Twice(8192, 0x4880);
    Twice(16384, 0x8081);
  }

  lemma {:induction false} Power217()
    ensures Power(217) == 0x3E55
  {
    Twice(1, 0x4000);
    Next(2, 0x2000);
    Twice(3, 0x1000);
    Twice(6, 0x0200);
    Next(12, 0x0008);
    Twice(13, 0x0004);
    Next(26, 0xC019);
    Twice(27, 0xC00D);
    Twice(54, 0xC079);
    Twice(108, 0xDFE1);
    Next(216, 0x7CAA);
  }

  lemma {:induction false} Power1057()
    ensures Power(1057) == 0xCE41
  {
    Twice(1, 0x4000);
    Twice(2, 0x2000);
    Twice(4, 0x0800);
    Twice(8, 0x0080);
    Twice(16, 0xA001);
    Next(32, 0xE801);
    Twice(33, 0xD401);
    Twice(66, 0xC221);
    Twice(132, 0x0608);
    Twice(264, 0xC049);
    Twice(528, 0xD861);
    Next(1056, 0xDC81);
  }

  lemma {:induction false} Power4681()
    ensures Power(4681) == 0x8C69
  {
    Twice(1, 0x4000);
    Twice(2, 0x2000);
    Twice(4, 0x0800);
    Next(8, 0x0080);
    Twice(9, 0x0040);
    Twice(18, 0xD801);
    Twice(36, 0xC281);
    Next(72, 0x6008);
    Twice(73, 0x3004);
    Twice(146, 0xCA19);
    Twice(292, 0xC169);
    Next(584, 0x1E62);
    Twice(585, 0x0F31);
    Twice(1170, 0x672B);
    Twice(2340, 0x8E4C);
    Next(4680, 0x58D1);
  }

  // ---- The order of x -----------------------------------------------------

  /** The power x^n is 1. */
  predicate Unit(n: nat) {
    Power(n) == Power(0)
  }

  lemma {:induction false} UnitSum(a: nat, b: nat)
    requires Unit(a)
    ensures Unit(a + b) <==> Unit(b)
  {
    PowersMeet(a, 0, b);
  }

  lemma {:induction false} UnitMultiple(a: nat, k: nat)
    requires Unit(a)
    ensures Unit(k * a)
    decreases k
  {
    if k == 0 {
      assert k * a == 0;
    } else {
      UnitMultiple(a, k - 1);
      UnitSum(a, (k - 1) * a);
      assert k * a == a + (k - 1) * a;
    }
  }

  lemma {:induction false} UnitOrder()
    ensures Unit(32767)
  {
    Power32768();
    Next(0, 0x8000);
    PowersMeet(32767, 0, 1);
  }

  /** The exponents `a` with x^(a q) == 1 are closed under remainders. */
  lemma {:induction false} UnitRemainder(a: nat, b: nat, q: nat)
    requires Unit(a * q) && Unit(b * q) && b > 0
    ensures Unit((a % b) * q)
  {
    var k := a / b;
    UnitMultiple(b * q, k);
    assert a * q == k * (b * q) + (a % b) * q by {
      assert a == k * b + a % b;
    }
    UnitSum(k * (b * q), (a % b) * q);
  }

  /** No number from 2 to `r` divides `p`. */
  predicate NoDivisor(p: nat, r: nat)
    decreases r
  {
    if r <= 1 then true else if p % r == 0 then false else NoDivisor(p, r - 1)
  }

  lemma {:induction false} NoDivisorAt(p: nat, r: nat, i: nat)
    requires NoDivisor(p, r) && 2 <= i <= r
    ensures p % i != 0
    decreases r
  {
    if i < r {
      NoDivisorAt(p, r - 1, i);
    }
  }

  /** A proper divisor of a number below 169, or the other factor, is below 13. */
  predicate SmallPrime(p: nat) {
    1 < p < 169 && NoDivisor(p, if p <= 12 then p - 1 else 12)
  }

  lemma {:induction false} Less(k: nat, n: int)
    requires k > 0
    ensures n >= 1 ==> k * n >= k
    ensures n <= -1 ==> k * n < 0
  {
  }

  lemma {:induction false} Factor(p: nat, k: nat, i: nat)
    requires k > 0 && p == k * i
    ensures p % k == 0
  {
    var q, r := p / k, p % k;
    assert p == k * q + r && 0 <= r < k;
    assert k * (i - q) == r;
    Less(k, i - q);
  }

  lemma {:induction false} NothingDivides(p: nat, i: nat)
    requires SmallPrime(p) && 2 <= i < p
    ensures p % i != 0
  {
    if i <= 12 {
      NoDivisorAt(p, if p <= 12 then p - 1 else 12, i);
    } else if p % i == 0 {
      var k := p / i;
      assert p == k * i && 2 <= k <= 12 by {
        assert k >= 13 ==> k * i >= 169;
      }
      Factor(p, k, i);
      NoDivisorAt(p, 12, k);
    }
  }

  /** For a prime `p`, an exponent not divisible by `p` leads down to 1. */
  lemma {:induction false} Descend(p: nat, q: nat, r: nat)
    requires SmallPrime(p) && Unit(p * q) && Unit(r * q) && 0 < r < p
    ensures Unit(q)
    decreases r
  {
    if r == 1 {
      assert r * q == q;
    } else {
      NothingDivides(p, r);
      UnitRemainder(p, r, q);
      Descend(p, q, p % r);
    }
  }

  /** A prime `p` of the order p q divides every exponent whose power is 1. */
  lemma {:induction false} PrimeDivides(p: nat, q: nat, d: nat) returns (k: nat)
    requires SmallPrime(p) && p * q == 32767 && !Unit(q) && Unit(d)
    ensures d == p * k
  {
    UnitOrder();
    UnitMultiple(d, q);
    assert d * q == q * d;
    UnitRemainder(d, p, q);
    if d % p != 0 {
      Descend(p, q, d % p);
    }
    k := d / p;
  }

  lemma {:induction false} Primes()
    ensures SmallPrime(7) && SmallPrime(31) && SmallPrime(151)
  {
  }

  lemma {:induction false} Combine(d: nat, a: nat, b: nat, c: nat) returns (f: nat)
    requires d == 7 * a == 31 * b == 151 * c
    ensures d == 32767 * f
  {
    var e := 9 * b - 2 * a;
    assert a == 31 * e;
    var g := 23 * e - 16 * c;
    assert e == 151 * g;
    f := g;
  }

  /** The order of `x` is 32767: the powers that are 1 are its multiples. */
  lemma {:induction false} UnitIff(d: nat)
    ensures Unit(d) <==> d % 32767 == 0
  {
    if Unit(d) {
      Primes();
      Power4681();
      var a := PrimeDivides(7, 4681, d);
      Power1057();
      var b := PrimeDivides(31, 1057, d);
      Power217();
      var c := PrimeDivides(151, 217, d);
      var f := Combine(d, a, b, c);
      Factor(d, 32767, f);
    } else if d % 32767 == 0 {
      UnitOrder();
      UnitMultiple(32767, d / 32767);
      assert false;
    }
  }
}
