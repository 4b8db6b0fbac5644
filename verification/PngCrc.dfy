/** The checksum of PNG chunks: the table-driven loop against the bit-at-a-time definition of RFC 2083,
    sections 3.4 and 15. */
module PngCrc {

  const POLYNOMIAL: bv32 := 0xedb88320
  const ALL_ONES: bv32 := 0xffffffff

  /** Exclusive or, and the byte-wise parts of a register. */
  function Xor(a: bv32, b: bv32): bv32 { a ^ b }
  function Low(v: bv32): bv32 { v & 0xff }
  function Top(v: bv32): bv32 { v & 0xffffff00 }
  function Down(v: bv32): bv32 { v >> 8 }

  // ---- definition: one bit at a time, least significant bit of each byte first ----

  function Bit(c: bv32, bit: bv32): bv32 {
    if (c ^ bit) & 1 == 1 then POLYNOMIAL ^ (c >> 1) else c >> 1
  }

  /** Feed the `count` lowest bits of `v`. */
  function Feed(c: bv32, v: bv32, count: nat): bv32
    decreases count
  {
    if count == 0 then c else Feed(Bit(c, v & 1), v >> 1, count - 1)
  }

  function Register(c: bv32, data: seq<bv8>): bv32 {
    if data == [] then c else Feed(Register(c, data[..|data| - 1]), data[|data| - 1] as bv32, 8)
  }

  /** Register preset to all ones, complemented at the end. */
  function Crc(data: seq<bv8>): bv32 {
    Xor(Register(ALL_ONES, data), ALL_ONES)
  }

  // ---- the table's step ----

  function ShiftBit(v: bv32): bv32 {
    if v & 1 == 1 then POLYNOMIAL ^ (v >> 1) else v >> 1
  }

  function Shift(v: bv32, count: nat): bv32
    decreases count
  {
    if count == 0 then v else Shift(ShiftBit(v), count - 1)
  }

  lemma EvenEven(x: bv32, y: bv32)
    requires x & 1 == 0 && y & 1 == 0
    ensures ShiftBit(x ^ y) == ShiftBit(x) ^ ShiftBit(y)
  {
  }

  lemma OddEven(x: bv32, y: bv32)
    requires x & 1 == 1 && y & 1 == 0
    ensures ShiftBit(x ^ y) == ShiftBit(x) ^ ShiftBit(y)
  {
  }

  lemma OddOdd(x: bv32, y: bv32)
    requires x & 1 == 1 && y & 1 == 1
    ensures ShiftBit(x ^ y) == ShiftBit(x) ^ ShiftBit(y)
  {
  }

  lemma LowBit(x: bv32)
    ensures x & 1 == 0 || x & 1 == 1
  {
  }

  lemma XorCommutes(x: bv32, y: bv32)
    ensures x ^ y == y ^ x
  {
  }

  lemma ShiftBitXor(x: bv32, y: bv32)
    ensures ShiftBit(x ^ y) == ShiftBit(x) ^ ShiftBit(y)
  {
    hide ShiftBit;
    LowBit(x);
    LowBit(y);
    XorCommutes(x, y);
    XorCommutes(ShiftBit(x), ShiftBit(y));
    if x & 1 == 0 {
      if y & 1 == 0 { EvenEven(x, y); } else { OddEven(y, x); }
    } else {
      if y & 1 == 0 { OddEven(x, y); } else { OddOdd(x, y); }
    }
  }

  /** One step of the register is linear over exclusive or. */
  lemma ShiftBitLinear(x: bv32, y: bv32)
    ensures ShiftBit(Xor(x, y)) == Xor(ShiftBit(x), ShiftBit(y))
  {
    hide ShiftBit;
    ShiftBitXor(x, y);
  }

  lemma {:induction false} ShiftLinear(x: bv32, y: bv32, count: nat)
    ensures Shift(Xor(x, y), count) == Xor(Shift(x, count), Shift(y, count))
    decreases count
  {
    hide ShiftBit, Xor;
    if count > 0 {
      ShiftBitLinear(x, y);
      ShiftLinear(ShiftBit(x), ShiftBit(y), count - 1);
    }
  }

  /** Eight steps, written out. */
  lemma EightSteps(v: bv32)
    ensures Shift(v, 8) == ShiftBit(ShiftBit(ShiftBit(ShiftBit(ShiftBit(ShiftBit(ShiftBit(ShiftBit(v))))))))
  {
    hide ShiftBit;
    assert forall u {:trigger Shift(u, 2)} :: Shift(u, 2) == ShiftBit(ShiftBit(u));
    assert forall u {:trigger Shift(u, 4)} :: Shift(u, 4) == Shift(ShiftBit(ShiftBit(u)), 2);
    assert forall u {:trigger Shift(u, 6)} :: Shift(u, 6) == Shift(ShiftBit(ShiftBit(u)), 4);
    assert Shift(v, 8) == Shift(ShiftBit(ShiftBit(v)), 6);
  }

  /** The high bytes only move down. */
  lemma HighPartShifts(v: bv32)
    ensures Shift(Top(v), 8) == Down(v)
  {
    hide ShiftBit, Shift, Top, Down;
    EightSteps(Top(v));
    MovesDown(v);
  }

  lemma MovesDown(v: bv32)
    ensures ShiftBit(ShiftBit(ShiftBit(ShiftBit(ShiftBit(ShiftBit(ShiftBit(ShiftBit(Top(v)))))))) ) == Down(v)
  {
  }

  lemma SplitsByte(v: bv32)
    ensures v == Xor(Low(v), Top(v))
  {
  }

  /** Eight steps at once: look up the low byte, move the rest. */
  lemma TableStep(v: bv32)
    ensures Shift(v, 8) == Xor(Shift(Low(v), 8), Down(v))
  {
    hide ShiftBit, Shift, Xor, Low, Top, Down;
    SplitsByte(v);
    ShiftLinear(Low(v), Top(v), 8);
    HighPartShifts(v);
  }

  // ---- a byte at a time ----

  function Half(v: bv32): bv32 { v >> 1 }

  /** Feeding a bit is the linear step on the register with the data already added in. */
  lemma BitIsShift(c: bv32, v: bv32)
    ensures Xor(Bit(c, v & 1), Half(v)) == ShiftBit(Xor(c, v))
  {
    LowBit(c ^ v);
    if (c ^ v) & 1 == 1 {
      OddBit(c, v);
    } else {
      EvenBit(c, v);
    }
  }

  lemma OddBit(c: bv32, v: bv32)
    requires (c ^ v) & 1 == 1
    ensures Xor(Bit(c, v & 1), Half(v)) == ShiftBit(Xor(c, v))
  {
  }

  lemma EvenBit(c: bv32, v: bv32)
    requires (c ^ v) & 1 == 0
    ensures Xor(Bit(c, v & 1), Half(v)) == ShiftBit(Xor(c, v))
  {
  }

  function Rest(v: bv32, count: nat): bv32
    decreases count
  {
    if count == 0 then v else Rest(v >> 1, count - 1)
  }

  lemma {:induction false} FeedIsShift(c: bv32, v: bv32, count: nat)
    ensures Xor(Feed(c, v, count), Rest(v, count)) == Shift(Xor(c, v), count)
    decreases count
  {
    hide Bit, ShiftBit, Xor;
    if count > 0 {
      BitIsShift(c, v);
      FeedIsShift(Bit(c, v & 1), v >> 1, count - 1);
    }
  }

  lemma NothingLeft(b: bv8)
    ensures Rest(b as bv32, 8) == 0
  {
    var v := b as bv32;
    assert Rest(v, 8) == Rest(v >> 1, 7) == Rest(v >> 2, 6);
    assert Rest(v >> 2, 6) == Rest(v >> 3, 5) == Rest(v >> 4, 4);
    assert Rest(v >> 4, 4) == Rest(v >> 5, 3) == Rest(v >> 6, 2);
    assert Rest(v >> 6, 2) == Rest(v >> 7, 1) == Rest(v >> 8, 0);
  }

  /** A whole byte, bit by bit, is eight steps of the register with the byte added in. */
  lemma ByteIsShift(c: bv32, b: bv8)
    ensures Feed(c, b as bv32, 8) == Shift(Xor(c, b as bv32), 8)
  {
    hide Bit, ShiftBit, Feed, Shift, Rest, Xor;
    FeedIsShift(c, b as bv32, 8);
    NothingLeft(b);
    XorZero(Feed(c, b as bv32, 8));
  }

  /** And that is one table look-up. */
  lemma ByteStep(c: bv32, b: bv8)
    ensures Feed(c, b as bv32, 8) == Xor(Shift(Low(Xor(c, b as bv32)), 8), Down(c))
  {
    hide Bit, ShiftBit, Feed, Shift, Rest, Xor, Low, Down;
    ByteIsShift(c, b);
    TableStep(Xor(c, b as bv32));
    ByteAbove(c, b);
  }

  lemma ByteAbove(c: bv32, b: bv8)
    ensures Down(Xor(c, b as bv32)) == Down(c)
  {
  }

  lemma XorZero(x: bv32)
    ensures Xor(x, 0) == x
  {
  }

  // ---- a known value ----

  lemma FeedI()
    ensures Feed(0xffffffff, 73, 8) == 0x22fde946
  {
    assert Feed(0xffffffff, 73, 8) == Feed(0x7fffffff, 36, 7);
    assert Feed(0x7fffffff, 36, 7) == Feed(0xd2477cdf, 18, 6);
    assert Feed(0xd2477cdf, 18, 6) == Feed(0x849b3d4f, 9, 5);
    assert Feed(0x849b3d4f, 9, 5) == Feed(0x424d9ea7, 4, 4);
    assert Feed(0x424d9ea7, 4, 4) == Feed(0xcc9e4c73, 2, 3);
    assert Feed(0xcc9e4c73, 2, 3) == Feed(0x8bf7a519, 1, 2);
    assert Feed(0x8bf7a519, 1, 2) == Feed(0x45fbd28c, 0, 1);
    assert Feed(0x45fbd28c, 0, 1) == Feed(0x22fde946, 0, 0);
  }

  lemma FeedE()
    ensures Feed(0x22fde946, 69, 8) == 0x992bac53
  {
    assert Feed(0x22fde946, 69, 8) == Feed(0xfcc67783, 34, 7);
    assert Feed(0xfcc67783, 34, 7) == Feed(0x93dbb8e1, 17, 6);
    assert Feed(0x93dbb8e1, 17, 6) == Feed(0x49eddc70, 8, 5);
    assert Feed(0x49eddc70, 8, 5) == Feed(0x24f6ee38, 4, 4);
    assert Feed(0x24f6ee38, 4, 4) == Feed(0x127b771c, 2, 3);
    assert Feed(0x127b771c, 2, 3) == Feed(0x093dbb8e, 1, 2);
    assert Feed(0x093dbb8e, 1, 2) == Feed(0xe9265ee7, 0, 1);
    assert Feed(0xe9265ee7, 0, 1) == Feed(0x992bac53, 0, 0);
  }

  lemma FeedN()
    ensures Feed(0x992bac53, 78, 8) == 0x639f4775
  {
    assert Feed(0x992bac53, 78, 8) == Feed(0xa12d5509, 39, 7);
    assert Feed(0xa12d5509, 39, 7) == Feed(0x5096aa84, 19, 6);
    assert Feed(0x5096aa84, 19, 6) == Feed(0xc5f3d662, 9, 5);
    assert Feed(0xc5f3d662, 9, 5) == Feed(0x8f416811, 4, 4);
    assert Feed(0x8f416811, 4, 4) == Feed(0xaa183728, 2, 3);
    assert Feed(0xaa183728, 2, 3) == Feed(0x550c1b94, 1, 2);
    assert Feed(0x550c1b94, 1, 2) == Feed(0xc73e8eea, 0, 1);
    assert Feed(0xc73e8eea, 0, 1) == Feed(0x639f4775, 0, 0);
  }

  lemma FeedD()
    ensures Feed(0x639f4775, 68, 8) == 0x51bd9f7d
  {
    assert Feed(0x639f4775, 68, 8) == Feed(0xdc77209a, 34, 7);
    assert Feed(0xdc77209a, 34, 7) == Feed(0x6e3b904d, 17, 6);
    assert Feed(0x6e3b904d, 17, 6) == Feed(0x371dc826, 8, 5);
    assert Feed(0x371dc826, 8, 5) == Feed(0x1b8ee413, 4, 4);
    assert Feed(0x1b8ee413, 4, 4) == Feed(0xe07ff129, 2, 3);
    assert Feed(0xe07ff129, 2, 3) == Feed(0x9d877bb4, 1, 2);
    assert Feed(0x9d877bb4, 1, 2) == Feed(0xa37b3efa, 0, 1);
    assert Feed(0xa37b3efa, 0, 1) == Feed(0x51bd9f7d, 0, 0);
  }

  /** The checksum every PNG file ends with: that of an empty IEND chunk. */
  lemma IendChecksum()
    ensures Crc([73, 69, 78, 68]) == 0xae426082
  {
    hide Feed;
    FeedI();
    FeedE();
    FeedN();
    FeedD();
    var data: seq<bv8> := [73, 69, 78, 68];
    assert data[..3] == [73, 69, 78] && data[..3][..2] == [73, 69] && data[..3][..2][..1] == [73];
    assert Register(ALL_ONES, []) == 0xffffffff;
    assert Register(ALL_ONES, [73]) == 0x22fde946;
    assert Register(ALL_ONES, [73, 69]) == 0x992bac53;
    assert Register(ALL_ONES, [73, 69, 78]) == 0x639f4775;
  }

  // ---- the program ----

  /** The loop body of the table: the polynomial is added when a one bit falls out. */
  function Stepped(value: bv32): (next: bv32)
    ensures next == ShiftBit(value)
  {
    LowBit(value);
    if value & 1 != 0 then POLYNOMIAL ^ (value >> 1) else value >> 1
  }

  /** What the table holds at an index. */
  function Entry(i: nat): bv32
    requires i < 256
  {
    Shift(i as bv32, 8)
  }

  /** `crcTable`. */
  method CrcTable() returns (table: array<bv32>)
    ensures fresh(table) && table.Length == 256
    ensures forall i: nat :: i < 256 ==> table[i] == Entry(i)
  {
    hide ShiftBit, Shift, Entry;
    table := new bv32[256];
    for index := 0 to 256
      invariant forall i: nat :: i < index ==> table[i] == Entry(i)
    {
      table[index] := EntryByLoop(index);
    }
  }

  /** The inner loop of the table. */
  method EntryByLoop(index: nat) returns (value: bv32)
    requires index < 256
    ensures value == Entry(index)
  {
    hide ShiftBit, Shift;
    value := index as bv32;
    for bit := 0 to 8
      invariant Shift(value, 8 - bit) == Entry(index)
    {
      Unfolds(value, 8 - bit);
      value := Stepped(value);
    }
    Unfolds(value, 0);
  }

  lemma Unfolds(v: bv32, count: nat)
    ensures Shift(v, count) == if count == 0 then v else Shift(ShiftBit(v), count - 1)
  {
  }

  /** `crc32`. */
  method Crc32(table: array<bv32>, buffer: seq<bv8>) returns (crc: bv32)
    requires table.Length == 256
    requires forall i: nat :: i < 256 ==> table[i] == Entry(i)
    ensures crc == Crc(buffer)
  {
    hide ShiftBit, Shift, Feed, Xor, Low, Down;
    var value: bv32 := ALL_ONES;
    for i := 0 to |buffer|
      invariant value == Register(ALL_ONES, buffer[..i])
    {
      ByteStep(value, buffer[i]);
      LowIsLow(Xor(value, buffer[i] as bv32));
      var index := Index(Low(Xor(value, buffer[i] as bv32)));
      assert buffer[..i + 1][..i] == buffer[..i];
      value := Xor(table[index], Down(value));
    }
    assert buffer[..|buffer|] == buffer;
    crc := Xor(value, ALL_ONES);
  }

  lemma LowIsLow(v: bv32)
    ensures Low(Low(v)) == Low(v)
  {
  }

  /** A masked value as a table index. */
  function Index(v: bv32): (index: nat)
    requires v == Low(v)
    ensures index < 256 && index as bv32 == v
  {
    v as nat
  }
}
