/** Bit operations on numbers without a sign, bit by bit, and the arithmetic they amount to. */
module Bits {

  function And(a: nat, b: nat): nat {
    if a == 0 || b == 0 then 0 else (a % 2) * (b % 2) + 2 * And(a / 2, b / 2)
  }

  function Or(a: nat, b: nat): nat {
    if a == 0 then b
    else if b == 0 then a
    else (if a % 2 == 1 || b % 2 == 1 then 1 else 0) + 2 * Or(a / 2, b / 2)
  }

  function ShiftLeft(a: nat, k: nat): nat {
    if k == 0 then a else 2 * ShiftLeft(a, k - 1)
  }

  function ShiftRight(a: nat, k: nat): nat {
    if k == 0 then a else ShiftRight(a, k - 1) / 2
  }

  function Pow2(k: nat): nat {
    ShiftLeft(1, k)
  }

  lemma Powers()
    ensures Pow2(7) == 0x80 && Pow2(8) == 0x100 && Pow2(15) == 0x8000 && Pow2(16) == 0x1_0000
    ensures Pow2(23) == 0x80_0000 && Pow2(24) == 0x100_0000
  {
    assert Pow2(4) == 16 && Pow2(8) == 256;
    assert Pow2(12) == 4096 && Pow2(16) == 65536;
    assert Pow2(20) == 0x10_0000 && Pow2(24) == 0x100_0000;
  }

  lemma {:induction false} ShiftScales(a: nat, k: nat)
    ensures ShiftLeft(a, k) == a * Pow2(k) && Pow2(k) > 0
  {
    if k > 0 { ShiftScales(a, k - 1); }
  }

  /** Or-ing a number into the bits that a shift has left free adds it. */
  lemma {:induction false} OrAdds(a: nat, k: nat, b: nat)
    requires b < Pow2(k)
    ensures Or(ShiftLeft(a, k), b) == ShiftLeft(a, k) + b
  {
    if k > 0 && ShiftLeft(a, k) > 0 && b > 0 { OrAdds(a, k - 1, b / 2); }
  }

  /** A mask of k ones leaves what is below the k-th power of two. */
  lemma {:induction false} MaskKeeps(k: nat, a: nat)
    requires a < Pow2(k)
    ensures And(Pow2(k) - 1, a) == a
  {
    if a > 0 {
      assert Pow2(k) == 2 * Pow2(k - 1);
      MaskKeeps(k - 1, a / 2);
      assert (Pow2(k) - 1) / 2 == Pow2(k - 1) - 1 && (Pow2(k) - 1) % 2 == 1;
    }
  }

  /** The highest of k + 1 bits is set exactly from half the range up. */
  lemma {:induction false} HighestBit(a: nat, k: nat)
    requires a < Pow2(k + 1)
    ensures And(a, Pow2(k)) != 0 <==> a >= Pow2(k)
  {
    ShiftScales(1, k);
    if a > 0 && k > 0 {
      assert Pow2(k + 1) == 2 * Pow2(k) && Pow2(k) == 2 * Pow2(k - 1);
      HighestBit(a / 2, k - 1);
    }
  }
}
