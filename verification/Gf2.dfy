/**
 Go's bit operators on non-negative ints -- ^, <<, >> and masking with the low
 k bits -- defined bit by bit, and the GF(2) laws the checksum rests on.
 */
module Gf2 {

  function Pow2(k: nat): (p: nat)
    ensures p >= 1
  {
    if k == 0 then 1 else 2 * Pow2(k - 1)
  }

  lemma Pow2Values()
    ensures Pow2(5) == 32 && Pow2(25) == 0x2000000 && Pow2(30) == 0x40000000
  {
    assert Pow2(5) == 32;
    assert Pow2(10) == 0x400;
    assert Pow2(15) == 0x8000;
    assert Pow2(20) == 0x100000;
    assert Pow2(25) == 0x2000000;
  }

  /** a ^ b */
  function Xor(a: nat, b: nat): nat
    decreases a + b
  {
    if a == 0 then b
    else if b == 0 then a
    else 2 * Xor(a / 2, b / 2) + (if a % 2 != b % 2 then 1 else 0)
  }

  /** a << k */
  function Shl(a: nat, k: nat): nat {
    if k == 0 then a else 2 * Shl(a, k - 1)
  }

  /** a >> k */
  function Shr(a: nat, k: nat): nat {
    if k == 0 then a else Shr(a / 2, k - 1)
  }

  /** a & (1<<k - 1) */
  function Low(a: nat, k: nat): nat {
    if k == 0 then 0 else 2 * Low(a / 2, k - 1) + a % 2
  }

  /** (a >> k) & 1 == 1 */
  predicate Bit(a: nat, k: nat) {
    Shr(a, k) % 2 == 1
  }

  /** a < 1<<k */
  predicate Fits(a: nat, k: nat) {
    Shr(a, k) == 0
  }

  // ---------------------------------------------------------------------
  // Shifts and masks
  // ---------------------------------------------------------------------

  lemma {:induction false} ShlIsProduct(a: nat, k: nat)
    ensures Shl(a, k) == a * Pow2(k)
  {
    if k > 0 {
      ShlIsProduct(a, k - 1);
      calc {
        Shl(a, k);
        2 * (a * Pow2(k - 1));
        a * (2 * Pow2(k - 1));
      }
    }
  }

  /** Masking is the remainder by 2 to the k, shifting right the quotient. */
  lemma {:induction false} LowIsRemainder(a: nat, k: nat)
    ensures a == Shl(Shr(a, k), k) + Low(a, k)
    ensures Low(a, k) < Pow2(k)
  {
    if k > 0 {
      LowIsRemainder(a / 2, k - 1);
    }
  }

  lemma {:induction false} LowFits(a: nat, k: nat)
    ensures Fits(Low(a, k), k)
    ensures Fits(a, k) ==> Low(a, k) == a
    ensures Low(a, k) == 0 && Fits(a, k) ==> a == 0
  {
    if k > 0 {
      LowFits(a / 2, k - 1);
    }
  }

  lemma {:induction false} FitsIff(a: nat, k: nat)
    ensures Fits(a, k) <==> a < Pow2(k)
  {
    if k > 0 {
      FitsIff(a / 2, k - 1);
    }
  }

  lemma {:induction false} ShlFits(a: nat, j: nat, k: nat)
    requires Fits(a, j)
    ensures Fits(Shl(a, k), j + k)
  {
    if k > 0 {
      ShlFits(a, j, k - 1);
      assert Shl(a, k) / 2 == Shl(a, k - 1);
    }
  }

  lemma {:induction false} ShrShr(a: nat, j: nat, k: nat)
    ensures Shr(Shr(a, j), k) == Shr(a, j + k)
  {
    if j > 0 {
      ShrShr(a / 2, j - 1, k);
    }
  }

  lemma {:induction false} ShrZero(k: nat)
    ensures Shr(0, k) == 0 && Low(0, k) == 0 && Shl(0, k) == 0
  {
    if k > 0 {
      ShrZero(k - 1);
    }
  }

  lemma {:induction false} ShlZero(a: nat, k: nat)
    ensures Shl(a, k) == 0 <==> a == 0
  {
    if k > 0 {
      ShlZero(a, k - 1);
    }
  }

  lemma {:induction false} ShlShl(a: nat, j: nat, k: nat)
    ensures Shl(Shl(a, j), k) == Shl(a, j + k)
  {
    if k > 0 {
      ShlShl(a, j, k - 1);
    }
  }

  lemma {:induction false} ShlSum(a: nat, b: nat, k: nat)
    ensures Shl(a + b, k) == Shl(a, k) + Shl(b, k)
  {
    if k > 0 {
      ShlSum(a, b, k - 1);
    }
  }

  /** Splitting a << k + u, with u below 1 << k, gives a and u back. */
  lemma {:induction false} SplitShl(a: nat, u: nat, k: nat)
    requires Fits(u, k)
    ensures Shr(Shl(a, k) + u, k) == a && Low(Shl(a, k) + u, k) == u
  {
    if k > 0 {
      assert (Shl(a, k) + u) / 2 == Shl(a, k - 1) + u / 2;
      SplitShl(a, u / 2, k - 1);
    }
  }

  // ---------------------------------------------------------------------
  // Exclusive or
  // ---------------------------------------------------------------------

  /** Xor reads its operands bit by bit, also when one of them has run out. */
  lemma XorBits(a: nat, b: nat)
    ensures Xor(a, b) / 2 == Xor(a / 2, b / 2)
    ensures Xor(a, b) % 2 == if a % 2 != b % 2 then 1 else 0
  {
  }

  lemma {:induction false} XorSelf(a: nat)
    ensures Xor(a, a) == 0
  {
    if a > 0 {
      XorSelf(a / 2);
    }
  }

  lemma {:induction false} XorComm(a: nat, b: nat)
    ensures Xor(a, b) == Xor(b, a)
  {
    if a > 0 && b > 0 {
      XorComm(a / 2, b / 2);
    }
  }

  lemma {:induction false} XorZero(a: nat, b: nat)
    ensures Xor(a, b) == 0 <==> a == b
  {
    if a > 0 && b > 0 {
      XorZero(a / 2, b / 2);
    }
  }

  lemma {:induction false} XorAssoc(a: nat, b: nat, c: nat)
    ensures Xor(Xor(a, b), c) == Xor(a, Xor(b, c))
    decreases a + b + c
  {
    if a > 0 && b > 0 && c > 0 {
      XorAssoc(a / 2, b / 2, c / 2);
      XorBits(a, b);
      XorBits(b, c);
      XorBits(Xor(a, b), c);
      XorBits(a, Xor(b, c));
    }
  }

  lemma XorShuffle(a: nat, b: nat, c: nat, d: nat)
    ensures Xor(Xor(a, b), Xor(c, d)) == Xor(Xor(a, c), Xor(b, d))
  {
    calc {
      Xor(Xor(a, b), Xor(c, d));
      { XorAssoc(a, b, Xor(c, d)); }
      Xor(a, Xor(b, Xor(c, d)));
      { XorAssoc(b, c, d); XorComm(b, c); XorAssoc(c, b, d); }
      Xor(a, Xor(c, Xor(b, d)));
      { XorAssoc(a, c, Xor(b, d)); }
      Xor(Xor(a, c), Xor(b, d));
    }
  }

  /** Cancelling a common operand. */
  lemma XorCancel(a: nat, z: nat, k: nat)
    requires Xor(a, z) == Xor(z, k)
    ensures a == k
  {
    XorComm(a, z);
    XorAssoc(z, z, a);
    XorAssoc(z, z, k);
    XorSelf(z);
  }

  lemma {:induction false} XorShr(a: nat, b: nat, k: nat)
    ensures Shr(Xor(a, b), k) == Xor(Shr(a, k), Shr(b, k))
  {
    if k > 0 {
      XorBits(a, b);
      XorShr(a / 2, b / 2, k - 1);
    }
  }

  lemma XorDouble(x: nat, y: nat, p: nat, q: nat)
    requires p < 2 && q < 2
    ensures Xor(2 * x + p, 2 * y + q) == 2 * Xor(x, y) + (if p != q then 1 else 0)
  {
    var a, b := 2 * x + p, 2 * y + q;
    assert a / 2 == x && a % 2 == p && b / 2 == y && b % 2 == q;
    XorBits(a, b);
  }

  lemma XorBit(a: nat, b: nat, k: nat)
    ensures Bit(Xor(a, b), k) == (Bit(a, k) != Bit(b, k))
  {
    XorShr(a, b, k);
    XorBits(Shr(a, k), Shr(b, k));
  }

  lemma {:induction false} XorLow(a: nat, b: nat, k: nat)
    ensures Low(Xor(a, b), k) == Xor(Low(a, k), Low(b, k))
  {
    if k > 0 {
      XorBits(a, b);
      XorLow(a / 2, b / 2, k - 1);
      var x, y := Low(a / 2, k - 1), Low(b / 2, k - 1);
      XorDouble(x, y, a % 2, b % 2);
    }
  }

  lemma {:induction false} XorShl(a: nat, b: nat, k: nat)
    ensures Shl(Xor(a, b), k) == Xor(Shl(a, k), Shl(b, k))
  {
    if k > 0 {
      XorShl(a, b, k - 1);
      XorDouble(Shl(a, k - 1), Shl(b, k - 1), 0, 0);
    }
  }

  lemma XorFits(a: nat, b: nat, k: nat)
    requires Fits(a, k) && Fits(b, k)
    ensures Fits(Xor(a, b), k)
  {
    XorShr(a, b, k);
  }

  /** Operands without a common bit position add up. */
  lemma {:induction false} XorDisjoint(a: nat, u: nat, k: nat)
    requires Fits(u, k)
    ensures Xor(Shl(a, k), u) == Shl(a, k) + u
  {
    if k > 0 {
      XorDisjoint(a, u / 2, k - 1);
      XorBits(Shl(a, k), u);
    }
  }
}
