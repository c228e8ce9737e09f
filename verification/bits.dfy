/**
  Bitwise OR, AND and XOR on natural numbers, defined one bit at a time from
  the least significant end, together with an independent per-bit reading
  (`Bit`) that each operation is proved against. The CHIP-8 registers are
  8 bits wide, so the byte-bound lemmas at the end are what the interpreter
  relies on.
*/
module Bits {

  function Pow2(k: nat): (r: nat)
    ensures r >= 1
  {
    if k == 0 then 1 else 2 * Pow2(k - 1)
  }

  /** Bit `k` of `a`, bit 0 being the least significant one. */
  function Bit(a: nat, k: nat): nat
  {
    if k == 0 then a % 2 else Bit(a / 2, k - 1)
  }

  function Or(a: nat, b: nat): nat
    decreases a + b
  {
    if a == 0 && b == 0 then 0
    else 2 * Or(a / 2, b / 2) + (if a % 2 == 1 || b % 2 == 1 then 1 else 0)
  }

  function And(a: nat, b: nat): nat
    decreases a + b
  {
    if a == 0 || b == 0 then 0
    else 2 * And(a / 2, b / 2) + (if a % 2 == 1 && b % 2 == 1 then 1 else 0)
  }

  function Xor(a: nat, b: nat): nat
    decreases a + b
  {
    if a == 0 && b == 0 then 0
    else 2 * Xor(a / 2, b / 2) + (if a % 2 != b % 2 then 1 else 0)
  }

  lemma {:induction false} BitIsBinary(a: nat, k: nat)
    ensures Bit(a, k) == 0 || Bit(a, k) == 1
  {
    if k > 0 {
      BitIsBinary(a / 2, k - 1);
    }
  }

  /** Bit k of `Or(a, b)` is set exactly when bit k of `a` or of `b` is. */
  lemma {:induction false} OrBits(a: nat, b: nat, k: nat)
    ensures Bit(Or(a, b), k) == 1 <==> Bit(a, k) == 1 || Bit(b, k) == 1
    decreases k
  {
    if k > 0 && !(a == 0 && b == 0) {
      OrBits(a / 2, b / 2, k - 1);
    }
  }

  /** Bit k of `And(a, b)` is set exactly when bit k of both `a` and `b` is. */
  lemma {:induction false} AndBits(a: nat, b: nat, k: nat)
    ensures Bit(And(a, b), k) == 1 <==> Bit(a, k) == 1 && Bit(b, k) == 1
    decreases k
  {
    if k > 0 {
      if a == 0 || b == 0 {
        ZeroBit(k);
      } else {
        AndBits(a / 2, b / 2, k - 1);
      }
    }
  }

  /** Bit k of `Xor(a, b)` is set exactly when bits k of `a` and `b` differ. */
  lemma {:induction false} XorBits(a: nat, b: nat, k: nat)
    ensures Bit(Xor(a, b), k) == 1 <==> Bit(a, k) != Bit(b, k)
    decreases k
  {
    if k > 0 {
      BitIsBinary(a, k);
      BitIsBinary(b, k);
      if a == 0 && b == 0 {
        ZeroBit(k);
      } else {
        XorBits(a / 2, b / 2, k - 1);
      }
    }
  }

  lemma {:induction false} ZeroBit(k: nat)
    ensures Bit(0, k) == 0
  {
    if k > 0 {
      ZeroBit(k - 1);
    }
  }

  lemma {:induction false} OrBound(a: nat, b: nat, k: nat)
    requires a < Pow2(k) && b < Pow2(k)
    ensures Or(a, b) < Pow2(k)
  {
    if k > 0 && !(a == 0 && b == 0) {
      OrBound(a / 2, b / 2, k - 1);
    }
  }

  lemma {:induction false} AndBelow(a: nat, b: nat)
    ensures And(a, b) <= a && And(a, b) <= b
    decreases a + b
  {
    if a != 0 && b != 0 {
      AndBelow(a / 2, b / 2);
    }
  }

  lemma {:induction false} XorBound(a: nat, b: nat, k: nat)
    requires a < Pow2(k) && b < Pow2(k)
    ensures Xor(a, b) < Pow2(k)
  {
    if k > 0 && !(a == 0 && b == 0) {
      XorBound(a / 2, b / 2, k - 1);
    }
  }

  lemma {:induction false} XorZero(a: nat)
    ensures Xor(a, 0) == a
    decreases a
  {
    if a != 0 {
      XorZero(a / 2);
    }
  }

  /** XOR with the same operand twice gives the original value back. */
  lemma {:induction false} XorCancel(a: nat, b: nat)
    ensures Xor(Xor(a, b), b) == a
    decreases a + b
  {
    if b == 0 {
      XorZero(a);
      XorZero(Xor(a, 0));
    } else {
      var c := Xor(a, b);
      XorCancel(a / 2, b / 2);
      assert c / 2 == Xor(a / 2, b / 2);
      assert c % 2 == (if a % 2 != b % 2 then 1 else 0);
    }
  }

  /** The three operations keep 8-bit operands within 8 bits. */
  lemma ByteClosed(a: nat, b: nat)
    requires a < 0x100 && b < 0x100
    ensures Or(a, b) < 0x100 && And(a, b) < 0x100 && Xor(a, b) < 0x100
  {
    assert Pow2(8) == 0x100;
    OrBound(a, b, 8);
    XorBound(a, b, 8);
    AndBelow(a, b);
  }

  /** The top bit of a (k + 1)-bit value is set exactly when the value reaches 2^k. */
  lemma {:induction false} HighBit(a: nat, k: nat)
    requires a < 2 * Pow2(k)
    ensures Bit(a, k) == if a >= Pow2(k) then 1 else 0
  {
    if k > 0 {
      HighBit(a / 2, k - 1);
    }
  }

  /** Bit 7 of an 8-bit value is its top bit: 1 exactly for values from 0x80 on. */
  lemma TopBit(a: nat)
    requires a < 0x100
    ensures Bit(a, 7) == a / 0x80
  {
    assert Pow2(7) == 0x80;
    HighBit(a, 7);
  }
}
