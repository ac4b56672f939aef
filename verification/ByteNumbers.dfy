/** Numbers of sixteen bits as two bytes, the high one first. */
module ByteNumbers {

  function Number(high: bv8, low: bv8): nat {
    256 * (high as int) + low as int
  }

  lemma {:induction false} NextByte(b: bv8)
    requires b != 0xFF
    ensures (b + 1) as int == b as int + 1
  {
  }

  lemma {:induction false} ByteBack(b: bv8)
    ensures (b as int) as bv8 == b
  {
  }

  lemma {:induction false} SomeByte(n: nat) returns (b: bv8)
    requires n < 256
    ensures b as int == n
    decreases n
  {
    if n == 0 {
      b := 0;
    } else {
      var c := SomeByte(n - 1);
      NextByte(c);
      b := c + 1;
    }
  }

  lemma {:induction false} ByteIsNumber(n: nat)
    requires n < 256
    ensures (n as bv8) as int == n
  {
    var b := SomeByte(n);
    ByteBack(b);
  }

  lemma {:induction false} NumberOfBytes(n: nat)
    requires n < 0x10000
    ensures Number((n / 256) as bv8, (n % 256) as bv8) == n
  {
    ByteIsNumber(n / 256);
    ByteIsNumber(n % 256);
  }
}
