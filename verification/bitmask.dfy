/** The 32-bit occupancy mask of the jitter buffer: `bset` and `bdrop` act on exactly one bit. */
module BitMask {

  function And(a: bv32, b: bv32): bv32 { a & b }

  function Or(a: bv32, b: bv32): bv32 { a | b }

  function Minus(a: bv32, b: bv32): bv32 { a & (a ^ b) }

  // The value of `1 << i`.
  function Bit(i: nat): bv32
    requires i < 32
  {
    if i == 0 then 1 else Bit(i - 1) * 2
  }

  predicate Test(mask: bv32, i: nat)
    requires i < 32
  {
    And(mask, Bit(i)) != 0
  }

  function Set(mask: bv32, i: nat): bv32
    requires i < 32
  {
    Or(mask, Bit(i))
  }

  function Drop(mask: bv32, i: nat): bv32
    requires i < 32
  {
    Minus(mask, Bit(i))
  }

  lemma OrActsBitwise(mask: bv32, a: bv32, b: bv32)
    ensures And(Or(mask, a), a) == a
    ensures And(a, b) == 0 ==> And(Or(mask, a), b) == And(mask, b)
  {
  }

  lemma MinusActsBitwise(mask: bv32, a: bv32, b: bv32)
    ensures And(Minus(mask, a), a) == 0
    ensures And(a, b) == 0 ==> And(Minus(mask, a), b) == And(mask, b)
  {
  }

  lemma {:induction false} BitIsNonZero(i: nat)
    requires i < 32
    ensures Bit(i) != 0
    decreases 32 - i
  {
    if i == 31 {
      assert Bit(1) == 0x2 && Bit(2) == 0x4 && Bit(3) == 0x8 && Bit(4) == 0x10;
      assert Bit(5) == 0x20 && Bit(6) == 0x40 && Bit(7) == 0x80 && Bit(8) == 0x100;
      assert Bit(9) == 0x200 && Bit(10) == 0x400 && Bit(11) == 0x800 && Bit(12) == 0x1000;
      assert Bit(13) == 0x2000 && Bit(14) == 0x4000 && Bit(15) == 0x8000 && Bit(16) == 0x1_0000;
      assert Bit(17) == 0x2_0000 && Bit(18) == 0x4_0000 && Bit(19) == 0x8_0000 && Bit(20) == 0x10_0000;
      assert Bit(21) == 0x20_0000 && Bit(22) == 0x40_0000 && Bit(23) == 0x80_0000 && Bit(24) == 0x100_0000;
      assert Bit(25) == 0x200_0000 && Bit(26) == 0x400_0000 && Bit(27) == 0x800_0000 && Bit(28) == 0x1000_0000;
      assert Bit(29) == 0x2000_0000 && Bit(30) == 0x4000_0000 && Bit(31) == 0x8000_0000;
    } else {
      BitIsNonZero(i + 1);
    }
  }

  lemma {:induction false} BitsAreDisjoint(i: nat, j: nat)
    requires i < 32 && j < 32 && i != j
    ensures And(Bit(i), Bit(j)) == 0
  {
    if i != 0 && j != 0 {
      BitsAreDisjoint(i - 1, j - 1);
    }
  }

  lemma SetOnlyOne(mask: bv32, i: nat, j: nat)
    requires i < 32 && j < 32
    ensures Test(Set(mask, i), j) <==> i == j || Test(mask, j)
  {
    OrActsBitwise(mask, Bit(i), Bit(j));
    if i == j {
      BitIsNonZero(i);
    } else {
      BitsAreDisjoint(i, j);
    }
  }

  lemma DropOnlyOne(mask: bv32, i: nat, j: nat)
    requires i < 32 && j < 32
    ensures Test(Drop(mask, i), j) <==> i != j && Test(mask, j)
  {
    MinusActsBitwise(mask, Bit(i), Bit(j));
    if i != j {
      BitsAreDisjoint(i, j);
    }
  }

  lemma OnlyBitZero(j: nat)
    requires j < 32
    ensures Test(1, j) <==> j == 0
  {
    if j == 0 {
      BitIsNonZero(0);
    } else {
      BitsAreDisjoint(0, j);
    }
  }
}
