/**
  The bitwise operators that the byte readers use, on natural numbers.

  JavaScript's number operators work on 32-bit patterns and its bigint operators on unbounded
  integers; on the non-negative patterns that the readers combine, both are the digit-by-digit
  operators below. (The int32 that buffer[i] << 24 may yield is the same bit pattern, and the
  final >>> 0 reads that pattern as unsigned.)
 */
module Bits {

  function Power2(k: nat): (p: nat)
    ensures p > 0
  {
    if k == 0 then 1 else 2 * Power2(k - 1)
  }

  function ShiftLeft(x: nat, k: nat): nat {
    x * Power2(k)
  }

  function Or(x: nat, y: nat): nat {
    if x == 0 then y
    else if y == 0 then x
    else (if x % 2 == 1 || y % 2 == 1 then 1 else 0) + 2 * Or(x / 2, y / 2)
  }

  function And(x: nat, y: nat): nat {
    if x == 0 || y == 0 then 0
    else (if x % 2 == 1 && y % 2 == 1 then 1 else 0) + 2 * And(x / 2, y / 2)
  }

  /** Where the bits do not overlap, or-ing is adding. */
  lemma {:induction false} OrOfDisjoint(x: nat, y: nat, k: nat)
    requires x < Power2(k)
    ensures Or(x, ShiftLeft(y, k)) == x + ShiftLeft(y, k)
    decreases k
  {
    if k > 0 && x > 0 && y > 0 {
      assert ShiftLeft(y, k) == 2 * ShiftLeft(y, k - 1);
      OrOfDisjoint(x / 2, y, k - 1);
    }
  }

  /** And-ing with k ones keeps the k low bits. */
  lemma {:induction false} AndOfMask(high: nat, low: nat, k: nat)
    requires low < Power2(k)
    ensures And(ShiftLeft(high, k) + low, Power2(k) - 1) == low
    decreases k
  {
    if k > 0 {
      var x, half := ShiftLeft(high, k) + low, Power2(k - 1);
      assert ShiftLeft(high, k) == 2 * ShiftLeft(high, k - 1);
      assert x / 2 == ShiftLeft(high, k - 1) + low / 2 && x % 2 == low % 2;
      assert (2 * half - 1) / 2 == half - 1 && (2 * half - 1) % 2 == 1;
      AndOfMask(high, low / 2, k - 1);
    }
  }

  lemma SmallPowers()
    ensures Power2(7) == 0x80 && Power2(8) == 0x100 && Power2(14) == 0x4000
    ensures Power2(16) == 0x1_0000 && Power2(24) == 0x100_0000 && Power2(32) == 0x1_0000_0000
  {
    assert Power2(4) == 16;
    assert Power2(8) == 16 * Power2(4);
    assert Power2(12) == 16 * Power2(8);
    assert Power2(16) == 16 * Power2(12);
    assert Power2(20) == 16 * Power2(16);
    assert Power2(24) == 16 * Power2(20);
    assert Power2(28) == 16 * Power2(24);
    assert Power2(32) == 16 * Power2(28);
  }
}
