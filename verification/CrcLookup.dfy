/** The look-up table of the bridge and the byte loop that uses it. */
module CrcLookup {
  import opened Crc16
  import opened CrcDetection
  import opened CrcTable

  /** Eight consecutive table entries. */
  datatype Octet = Octet(e0: bv16, e1: bv16, e2: bv16, e3: bv16, e4: bv16, e5: bv16, e6: bv16, e7: bv16)

  // CRC16_TABLE in the source's 32 rows of eight, eight rows at a time.

  function Quarter0(r: byte): Octet {
    match r
    case 0 => Octet(0x0000, 0xC0C1, 0xC181, 0x0140, 0xC301, 0x03C0, 0x0280, 0xC241)
    case 1 => Octet(0xC601, 0x06C0, 0x0780, 0xC741, 0x0500, 0xC5C1, 0xC481, 0x0440)
    case 2 => Octet(0xCC01, 0x0CC0, 0x0D80, 0xCD41, 0x0F00, 0xCFC1, 0xCE81, 0x0E40)
    case 3 => Octet(0x0A00, 0xCAC1, 0xCB81, 0x0B40, 0xC901, 0x09C0, 0x0880, 0xC841)
    case 4 => Octet(0xD801, 0x18C0, 0x1980, 0xD941, 0x1B00, 0xDBC1, 0xDA81, 0x1A40)
    case 5 => Octet(0x1E00, 0xDEC1, 0xDF81, 0x1F40, 0xDD01, 0x1DC0, 0x1C80, 0xDC41)
    case 6 => Octet(0x1400, 0xD4C1, 0xD581, 0x1540, 0xD701, 0x17C0, 0x1680, 0xD641)
    case _ => Octet(0xD201, 0x12C0, 0x1380, 0xD341, 0x1100, 0xD1C1, 0xD081, 0x1040)
  }

  function Quarter1(r: byte): Octet {
    match r
    case 8 => Octet(0xF001, 0x30C0, 0x3180, 0xF141, 0x3300, 0xF3C1, 0xF281, 0x3240)
    case 9 => Octet(0x3600, 0xF6C1, 0xF781, 0x3740, 0xF501, 0x35C0, 0x3480, 0xF441)
    case 10 => Octet(0x3C00, 0xFCC1, 0xFD81, 0x3D40, 0xFF01, 0x3FC0, 0x3E80, 0xFE41)
    case 11 => Octet(0xFA01, 0x3AC0, 0x3B80, 0xFB41, 0x3900, 0xF9C1, 0xF881, 0x3840)
    case 12 => Octet(0x2800, 0xE8C1, 0xE981, 0x2940, 0xEB01, 0x2BC0, 0x2A80, 0xEA41)
    case 13 => Octet(0xEE01, 0x2EC0, 0x2F80, 0xEF41, 0x2D00, 0xEDC1, 0xEC81, 0x2C40)
    case 14 => Octet(0xE401, 0x24C0, 0x2580, 0xE541, 0x2700, 0xE7C1, 0xE681, 0x2640)
    case _ => Octet(0x2200, 0xE2C1, 0xE381, 0x2340, 0xE101, 0x21C0, 0x2080, 0xE041)
  }

  function Quarter2(r: byte): Octet {
    match r
    case 16 => Octet(0xA001, 0x60C0, 0x6180, 0xA141, 0x6300, 0xA3C1, 0xA281, 0x6240)
    case 17 => Octet(0x6600, 0xA6C1, 0xA781, 0x6740, 0xA501, 0x65C0, 0x6480, 0xA441)
    case 18 => Octet(0x6C00, 0xACC1, 0xAD81, 0x6D40, 0xAF01, 0x6FC0, 0x6E80, 0xAE41)
    case 19 => Octet(0xAA01, 0x6AC0, 0x6B80, 0xAB41, 0x6900, 0xA9C1, 0xA881, 0x6840)
    case 20 => Octet(0x7800, 0xB8C1, 0xB981, 0x7940, 0xBB01, 0x7BC0, 0x7A80, 0xBA41)
    case 21 => Octet(0xBE01, 0x7EC0, 0x7F80, 0xBF41, 0x7D00, 0xBDC1, 0xBC81, 0x7C40)
    case 22 => Octet(0xB401, 0x74C0, 0x7580, 0xB541, 0x7700, 0xB7C1, 0xB681, 0x7640)
    case _ => Octet(0x7200, 0xB2C1, 0xB381, 0x7340, 0xB101, 0x71C0, 0x7080, 0xB041)
  }

  function Quarter3(r: byte): Octet {
    match r
    case 24 => Octet(0x5000, 0x90C1, 0x9181, 0x5140, 0x9301, 0x53C0, 0x5280, 0x9241)
    case 25 => Octet(0x9601, 0x56C0, 0x5780, 0x9741, 0x5500, 0x95C1, 0x9481, 0x5440)
    case 26 => Octet(0x9C01, 0x5CC0, 0x5D80, 0x9D41, 0x5F00, 0x9FC1, 0x9E81, 0x5E40)
    case 27 => Octet(0x5A00, 0x9AC1, 0x9B81, 0x5B40, 0x9901, 0x59C0, 0x5880, 0x9841)
    case 28 => Octet(0x8801, 0x48C0, 0x4980, 0x8941, 0x4B00, 0x8BC1, 0x8A81, 0x4A40)
    case 29 => Octet(0x4E00, 0x8EC1, 0x8F81, 0x4F40, 0x8D01, 0x4DC0, 0x4C80, 0x8C41)
    case 30 => Octet(0x4400, 0x84C1, 0x8581, 0x4540, 0x8701, 0x47C0, 0x4680, 0x8641)
    case _ => Octet(0x8201, 0x42C0, 0x4380, 0x8341, 0x4100, 0x81C1, 0x8081, 0x4040)
  }

  function Row(r: byte): Octet
    requires r < 32
  {
    if r < 8 then Quarter0(r) else if r < 16 then Quarter1(r) else if r < 24 then Quarter2(r) else Quarter3(r)
  }

  function Pick(o: Octet, i: byte): bv16
    requires i < 8
  {
    match i
    case 0 => o.e0 case 1 => o.e1 case 2 => o.e2 case 3 => o.e3
    case 4 => o.e4 case 5 => o.e5 case 6 => o.e6 case _ => o.e7
  }

  /** CRC16_TABLE[i] */
  function Entry(i: byte): bv16 {
    Pick(Row(i >> 3), i & 7)
  }

  function EightSteps(c: bv16): bv16 {
    BitStep(BitStep(BitStep(BitStep(BitStep(BitStep(BitStep(BitStep(c))))))))
  }

  /** Row `r` is its first entry plus the first row. */
  predicate RowLinear(r: byte)
    requires r < 32
  {
    && Row(r).e1 == Add(Row(r).e0, 0xC0C1) && Row(r).e2 == Add(Row(r).e0, 0xC181)
    && Row(r).e3 == Add(Row(r).e0, 0x0140) && Row(r).e4 == Add(Row(r).e0, 0xC301)
    && Row(r).e5 == Add(Row(r).e0, 0x03C0) && Row(r).e6 == Add(Row(r).e0, 0x0280)
    && Row(r).e7 == Add(Row(r).e0, 0xC241)
  }

  /** The first entry of row `r` is the sum of those of two rows out of eleven. */
  predicate ColumnLinear(r: byte)
    requires r < 32
  {
    Row(r).e0 == Add(Row(r & 24).e0, Row(r & 7).e0)
  }

  lemma {:induction false} RowsLinear0(r: byte)
    requires 0 <= r < 8
    ensures RowLinear(r)
  {
  }

  lemma {:induction false} RowsLinear1(r: byte)
    requires 8 <= r < 16
    ensures RowLinear(r)
  {
  }

  lemma {:induction false} RowsLinear2(r: byte)
    requires 16 <= r < 24
    ensures RowLinear(r)
  {
  }

  lemma {:induction false} RowsLinear3(r: byte)
    requires 24 <= r < 32
    ensures RowLinear(r)
  {
  }

  lemma {:induction false} RowsLinear(r: byte)
    requires r < 32
    ensures RowLinear(r)
  {
    if r < 8 {
      RowsLinear0(r);
    } else if r < 16 {
      RowsLinear1(r);
    } else if r < 24 {
      RowsLinear2(r);
    } else {
      RowsLinear3(r);
    }
  }

  lemma {:induction false} FirstRow(c: byte)
    requires c < 8
    ensures Pick(Row(0), c) == EightSteps(c as bv16)
  {
  }

  lemma {:induction false} ColumnsLinear0(r: byte)
    requires 0 <= r < 8
    ensures ColumnLinear(r)
  {
  }

  lemma {:induction false} ColumnsLinear1(r: byte)
    requires 8 <= r < 16
    ensures ColumnLinear(r)
  {
  }

  lemma {:induction false} ColumnsLinear2(r: byte)
    requires 16 <= r < 24
    ensures ColumnLinear(r)
  {
  }

  lemma {:induction false} ColumnsLinear3(r: byte)
    requires 24 <= r < 32
    ensures ColumnLinear(r)
  {
  }

  lemma {:induction false} ColumnsLinear(r: byte)
    requires r < 32
    ensures ColumnLinear(r)
  {
    if r < 8 {
      ColumnsLinear0(r);
    } else if r < 16 {
      ColumnsLinear1(r);
    } else if r < 24 {
      ColumnsLinear2(r);
    } else {
      ColumnsLinear3(r);
    }
  }

  lemma {:induction false} FirstColumn(r: byte)
    requires r < 8
    ensures Row(r).e0 == EightSteps((r as bv16) << 3)
  {
  }

  lemma {:induction false} FirstColumnHigh(r: byte)
    requires r == 0 || r == 8 || r == 16 || r == 24
    ensures Row(r).e0 == EightSteps((r as bv16) << 3)
  {
  }

  lemma {:induction false} PickLinear(r: byte, c: byte)
    requires r < 32 && c < 8
    ensures Pick(Row(r), c) == Add(Row(r).e0, Pick(Row(0), c))
  {
    RowsLinear(r);
    assert Add(Row(r).e0, 0) == Row(r).e0;
  }

  lemma {:induction false} FirstEntry(r: byte)
    requires r < 32
    ensures Row(r).e0 == Add(EightSteps(((r & 24) as bv16) << 3), EightSteps(((r & 7) as bv16) << 3))
  {
    ColumnsLinear(r);
    FirstColumn(r & 7);
    FirstColumnHigh(r & 24);
  }

  lemma {:induction false} IndexParts(i: byte)
    ensures (((i >> 3) & 24) as bv16) << 3 == (i & 0xC0) as bv16
    ensures (((i >> 3) & 7) as bv16) << 3 == (i & 0x38) as bv16
    ensures i as bv16 == Add(Add((i & 0xC0) as bv16, (i & 0x38) as bv16), (i & 0x07) as bv16)
  {
  }

  /** An entry is the sum of what eight shifts make of the three parts of its index. */
  lemma {:induction false} EntrySum(i: byte)
    ensures Entry(i) == Add(Add(EightSteps((i & 0xC0) as bv16), EightSteps((i & 0x38) as bv16)),
                            EightSteps((i & 0x07) as bv16))
  {
    PickLinear(i >> 3, i & 7);
    FirstEntry(i >> 3);
    FirstRow(i & 7);
    IndexParts(i);
  }

  lemma {:induction false} BitsEight(c: bv16)
    ensures Bits(EightSteps(c)) == Feed(Bits(c), Zeros(8))
  {
    BitsSteps(c, 8);
  }

  function Steps(c: bv16, n: nat): bv16
    decreases n
  {
    if n == 0 then c else Steps(BitStep(c), n - 1)
  }

  lemma {:induction false} BitsSteps(c: bv16, n: nat)
    ensures Bits(Steps(c, n)) == Feed(Bits(c), Zeros(n))
    decreases n
  {
    if n == 0 {
    } else {
      BitsStep(c);
      assert Zeros(n)[1..] == Zeros(n - 1);
      BitsSteps(BitStep(c), n - 1);
    }
  }

  lemma {:induction false} IdleXor(a: Word, b: Word, n: nat)
    ensures Feed(Xor(a, b), Zeros(n)) == Xor(Feed(a, Zeros(n)), Feed(b, Zeros(n)))
  {
    assert Xor(Zeros(n), Zeros(n)) == Zeros(n);
    FeedLinear(a, b, Zeros(n), Zeros(n));
  }

  /** Every table entry is its index after eight shifts. */
  lemma {:induction false} EntryIsEightShifts(i: byte)
    ensures Bits(Entry(i)) == Feed(Bits(i as bv16), Zeros(8))
  {
    var h, m, l := (i & 0xC0) as bv16, (i & 0x38) as bv16, (i & 0x07) as bv16;
    EntrySum(i);
    IndexParts(i);
    UnpackAdd(Add(h, m), l, 16);
    UnpackAdd(h, m, 16);
    IdleXor(Bits(Add(h, m)), Bits(l), 8);
    IdleXor(Bits(h), Bits(m), 8);
    UnpackAdd(Add(EightSteps(h), EightSteps(m)), EightSteps(l), 16);
    UnpackAdd(EightSteps(h), EightSteps(m), 16);
    BitsEight(h);
    BitsEight(m);
    BitsEight(l);
  }

  // ---- The byte loop ------------------------------------------------------

  /** `static_cast<uint8_t>(crc ^ b)` */
  function Index(c: bv16, b: byte): byte {
    ((c ^ (b as bv16)) & 0xFF) as byte
  }

  /** Eight shifts only move the high byte down. */
  lemma {:induction false} EightStepsHigh(x: bv16)
    ensures EightSteps(x & 0xFF00) == x >> 8
  {
  }

  lemma {:induction false} Halves(c: bv16, b: byte)
    ensures Add(c, b as bv16) == Add(Add(c, b as bv16) & 0xFF00, Index(c, b) as bv16)
    ensures Add(c, b as bv16) >> 8 == c >> 8
  {
  }

  /** Feeding a byte is adding it and shifting the two halves separately. */
  lemma {:induction false} FeedHalves(w: Word, b: seq<bool>, high: Word, low: Word)
    requires |b| == 8 && Xor(w, b + Zeros(8)) == Xor(high, low)
    ensures Feed(w, b) == Xor(Feed(high, Zeros(8)), Feed(low, Zeros(8)))
  {
    FeedShort(w, b);
    assert AddFront(w, b) == Xor(w, b + Zeros(8));
    IdleXor(high, low, 8);
  }

  lemma {:induction false} BitsOfHalves(c: bv16, b: byte)
    ensures Xor(Bits(c), ByteBits(b) + Zeros(8))
         == Xor(Bits(Add(c, b as bv16) & 0xFF00), Bits(Index(c, b) as bv16))
  {
    BitsOfByte(b);
    UnpackAdd(c, b as bv16, 16);
    Halves(c, b);
    UnpackAdd(Add(c, b as bv16) & 0xFF00, Index(c, b) as bv16, 16);
  }

  lemma {:induction false} HighHalf(c: bv16, b: byte)
    ensures Feed(Bits(Add(c, b as bv16) & 0xFF00), Zeros(8)) == Bits(c >> 8)
  {
    BitsEight(Add(c, b as bv16) & 0xFF00);
    EightStepsHigh(Add(c, b as bv16));
    Halves(c, b);
  }

  /** `(crc >> 8) ^ CRC16_TABLE[Index(crc, b)]` feeds the eight bits of `b`. */
  lemma {:induction false} ByteUpdate(c: bv16, b: byte)
    ensures Bits((c >> 8) ^ Entry(Index(c, b))) == Feed(Bits(c), ByteBits(b))
  {
    BitsOfHalves(c, b);
    FeedHalves(Bits(c), ByteBits(b), Bits(Add(c, b as bv16) & 0xFF00), Bits(Index(c, b) as bv16));
    HighHalf(c, b);
    EntryIsEightShifts(Index(c, b));
    UnpackAdd(c >> 8, Entry(Index(c, b)), 16);
  }

  lemma {:induction false} BitsOfInitial()
    ensures Bits(0xFFFF) == Ones(16)
  {
    assert Low(0xFFFF) && Low(0xFFF) && Low(0xFF) && Low(0xF);
    assert Unpack(0xF, 4) == Ones(4);
    assert Unpack(0xFF, 8) == Ones(8);
    assert Unpack(0xFFF, 12) == Ones(12);
  }

  lemma {:induction false} CrcSnoc(done: seq<byte>, b: byte)
    ensures Crc(FrameBits(done + [b])) == Feed(Crc(FrameBits(done)), ByteBits(b))
  {
    FrameBitsAppend(done, [b]);
    assert FrameBits([b]) == ByteBits(b) by {
      assert FrameBits([b]) == ByteBits(b) + FrameBits([]);
    }
    FeedAppend(Ones(16), FrameBits(done), ByteBits(b));
  }

  /** What the byte loop has in `crc` after `data`. */
  function TableCrc(data: seq<byte>): bv16 {
    if data == [] then 0xFFFF
    else
      var crc, last := TableCrc(data[..|data| - 1]), data[|data| - 1];
      (crc >> 8) ^ Entry(Index(crc, last))
  }

  /** The table-driven checksum is the bitwise one, on every byte string. */
  lemma {:induction false} TableCrcIsCrc(data: seq<byte>)
    ensures Bits(TableCrc(data)) == Crc(FrameBits(data))
  {
    if data == [] {
      BitsOfInitial();
    } else {
      var done, last := data[..|data| - 1], data[|data| - 1];
      TableCrcIsCrc(done);
      ByteUpdate(TableCrc(done), last);
      CrcSnoc(done, last);
      assert done + [last] == data;
    }
  }

  /** The byte loop computes the bitwise checksum of the first `len` bytes. */
  method Crc16Of(data: seq<byte>, len: nat) returns (crc: bv16)
    requires len <= |data|
    ensures crc == TableCrc(data[..len])
    ensures Bits(crc) == Crc(FrameBits(data[..len]))
  {
    crc := 0xFFFF;
    var i := 0;
    while i < len
      invariant i <= len
      invariant crc == TableCrc(data[..i])
    {
      var idx := Index(crc, data[i]);
      assert data[..i + 1][..i] == data[..i];
      crc := (crc >> 8) ^ Entry(idx);
      i := i + 1;
    }
    TableCrcIsCrc(data[..len]);
  }
}
