/** What the checksum is for: damage confined to four consecutive bytes never goes unnoticed. */
module PngCrcDetection {
  import opened PngCrc

  function Up(v: bv32): bv32 { v << 8 }
  function Small(v: bv32): bool { v & 0xff000000 == 0 }

  // ---- the register forgets nothing ----

  lemma TopBitTells(v: bv32)
    ensures ShiftBit(v) >> 31 == v & 1
  {
  }

  function Undo(shifted: bv32): bv32 { ((shifted ^ POLYNOMIAL) << 1) ^ 1 }

  lemma OddUndone(v: bv32)
    requires v & 1 == 1
    ensures Undo(ShiftBit(v)) == v
  {
  }

  lemma SameOdd(x: bv32, y: bv32)
    requires x & 1 == 1 && y & 1 == 1 && ShiftBit(x) == ShiftBit(y)
    ensures x == y
  {
    hide ShiftBit, Undo;
    OddUndone(x);
    OddUndone(y);
  }

  lemma SameEven(x: bv32, y: bv32)
    requires x & 1 == 0 && y & 1 == 0 && ShiftBit(x) == ShiftBit(y)
    ensures x == y
  {
  }

  lemma ShiftBitInjective(x: bv32, y: bv32)
    requires ShiftBit(x) == ShiftBit(y)
    ensures x == y
  {
    hide ShiftBit;
    TopBitTells(x);
    TopBitTells(y);
    LowBit(x);
    if x & 1 == 1 { SameOdd(x, y); } else { SameEven(x, y); }
  }

  lemma {:induction false} ShiftInjective(x: bv32, y: bv32, count: nat)
    requires Shift(x, count) == Shift(y, count)
    ensures x == y
    decreases count
  {
    hide ShiftBit;
    if count > 0 {
      ShiftInjective(ShiftBit(x), ShiftBit(y), count - 1);
      ShiftBitInjective(x, y);
    }
  }

  lemma XorInjective(x: bv32, y: bv32, z: bv32)
    requires Xor(x, z) == Xor(y, z)
    ensures x == y
  {
    XorTwice(x, z);
    XorTwice(y, z);
  }

  lemma XorTwice(x: bv32, z: bv32)
    ensures Xor(Xor(x, z), z) == x
  {
  }

  lemma {:induction false} RegisterInjective(c: bv32, d: bv32, data: seq<bv8>)
    requires Register(c, data) == Register(d, data)
    ensures c == d
    decreases |data|
  {
    hide ShiftBit, Shift, Feed, Xor;
    if data != [] {
      var rest, b := data[..|data| - 1], data[|data| - 1];
      ByteIsShift(Register(c, rest), b);
      ByteIsShift(Register(d, rest), b);
      ShiftInjective(Xor(Register(c, rest), b as bv32), Xor(Register(d, rest), b as bv32), 8);
      XorInjective(Register(c, rest), Register(d, rest), b as bv32);
      RegisterInjective(c, d, rest);
    }
  }

  lemma {:induction false} RegisterAppend(c: bv32, first: seq<bv8>, second: seq<bv8>)
    ensures Register(c, first + second) == Register(Register(c, first), second)
    decreases |second|
  {
    hide Feed;
    if second == [] {
      assert first + second == first;
    } else {
      var all := first + second;
      assert all[..|all| - 1] == first + second[..|second| - 1];
      RegisterAppend(c, first, second[..|second| - 1]);
    }
  }

  // ---- up to four bytes are one word ----

  /** The bytes as one word, first byte lowest. */
  function Word(bytes: seq<bv8>): bv32 {
    if bytes == [] then 0 else Xor(bytes[0] as bv32, Up(Word(bytes[1..])))
  }

  lemma {:induction false} WordIsSmall(bytes: seq<bv8>)
    requires |bytes| <= 3
    ensures Small(Word(bytes))
  {
    if |bytes| > 0 {
      if |bytes| > 1 {
        if |bytes| > 2 {
          assert Word(bytes[1..][1..]) == Word([bytes[2]]);
          SmallThree(bytes[0], bytes[1], bytes[2]);
          assert bytes[1..][1..] == [bytes[2]] && [bytes[2]][1..] == [];
        } else {
          assert bytes[1..][1..] == [];
          SmallThree(bytes[0], bytes[1], 0);
        }
      } else {
        assert bytes[1..] == [];
        SmallThree(bytes[0], 0, 0);
      }
    }
  }

  lemma SmallThree(a: bv8, b: bv8, c: bv8)
    ensures Small(Xor(a as bv32, Up(Xor(b as bv32, Up(Xor(c as bv32, Up(0)))))))
    ensures Small(Xor(a as bv32, Up(Xor(b as bv32, Up(0))))) && Small(Xor(a as bv32, Up(0)))
  {
  }

  lemma UpThenDown(v: bv32)
    requires Small(v)
    ensures Top(Up(v)) == Up(v) && Down(Up(v)) == v
  {
  }

  lemma XorAssociates(x: bv32, y: bv32, z: bv32)
    ensures Xor(x, Xor(y, z)) == Xor(Xor(x, y), z)
  {
  }

  lemma {:induction false} ShiftAdds(v: bv32, m: nat, n: nat)
    ensures Shift(v, m + n) == Shift(Shift(v, m), n)
    decreases m
  {
    hide ShiftBit;
    if m > 0 {
      ShiftAdds(ShiftBit(v), m - 1, n);
    }
  }

  /** The register after a few bytes depends on them through their word only. */
  lemma {:induction false} BurstIsShift(c: bv32, bytes: seq<bv8>)
    requires |bytes| <= 4
    ensures Register(c, bytes) == Shift(Xor(c, Word(bytes)), 8 * |bytes|)
    decreases |bytes|
  {
    hide ShiftBit, Feed, Xor, Up, Small, Top, Down, Shift;
    if bytes == [] {
      XorZero(c);
      Unfolds(c, 0);
    } else {
      var b, rest := bytes[0] as bv32, bytes[1..];
      var next := Feed(c, b, 8);
      assert bytes == [bytes[0]] + rest;
      RegisterAppend(c, [bytes[0]], rest);
      FirstByte(c, bytes[0]);
      BurstIsShift(next, rest);
      WordIsSmall(rest);
      UpThenDown(Word(rest));
      ByteIsShift(c, bytes[0]);
      XorAssociates(c, b, Up(Word(rest)));
      ShiftLinear(Xor(c, b), Up(Word(rest)), 8);
      HighPartShifts(Up(Word(rest)));
      ShiftAdds(Xor(c, Word(bytes)), 8, 8 * |rest|);
    }
  }

  lemma FirstByte(c: bv32, b: bv8)
    ensures Register(c, [b]) == Feed(c, b as bv32, 8)
  {
    hide Feed;
    assert [b][..0] == [];
  }

  lemma {:induction false} WordInjective(a: seq<bv8>, b: seq<bv8>)
    requires |a| == |b| <= 4 && Word(a) == Word(b)
    ensures a == b
    decreases |a|
  {
    hide Xor, Up, Small;
    if a != [] {
      WordIsSmall(a[1..]);
      WordIsSmall(b[1..]);
      Digits(a[0], b[0], Word(a[1..]), Word(b[1..]));
      WordInjective(a[1..], b[1..]);
      assert a == [a[0]] + a[1..] && b == [b[0]] + b[1..];
    }
  }

  lemma Digits(a: bv8, b: bv8, v: bv32, w: bv32)
    requires Small(v) && Small(w) && Xor(a as bv32, Up(v)) == Xor(b as bv32, Up(w))
    ensures a == b && v == w
  {
    assert Low(Xor(a as bv32, Up(v))) == a as bv32;
    assert Low(Xor(b as bv32, Up(w))) == b as bv32;
  }

  /** Two messages that differ only inside the same at most four consecutive bytes have different checksums. */
  lemma BurstsAreDetected(prefix: seq<bv8>, a: seq<bv8>, b: seq<bv8>, suffix: seq<bv8>)
    requires |a| == |b| <= 4 && a != b
    ensures Crc(prefix + a + suffix) != Crc(prefix + b + suffix)
  {
    hide ShiftBit, Shift, Feed, Xor, Register, Word;
    if Crc(prefix + a + suffix) == Crc(prefix + b + suffix) {
      var c := Register(ALL_ONES, prefix);
      XorInjective(Register(ALL_ONES, prefix + a + suffix), Register(ALL_ONES, prefix + b + suffix), ALL_ONES);
      RegisterAppend(ALL_ONES, prefix + a, suffix);
      RegisterAppend(ALL_ONES, prefix + b, suffix);
      RegisterInjective(Register(ALL_ONES, prefix + a), Register(ALL_ONES, prefix + b), suffix);
      RegisterAppend(ALL_ONES, prefix, a);
      RegisterAppend(ALL_ONES, prefix, b);
      BurstIsShift(c, a);
      BurstIsShift(c, b);
      ShiftInjective(Xor(c, Word(a)), Xor(c, Word(b)), 8 * |a|);
      XorSwap(c, Word(a));
      XorSwap(c, Word(b));
      XorInjective(Word(a), Word(b), c);
      WordInjective(a, b);
    }
  }

  lemma XorSwap(x: bv32, y: bv32)
    ensures Xor(x, y) == Xor(y, x)
  {
    XorCommutes(x, y);
  }
}
