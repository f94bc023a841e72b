/** Bitwise operations on unbounded non-negative integers, by their binary digits. */
module Bitwise {
  import opened Arithmetic

  function Xor(a: nat, b: nat): nat {
    if a == 0 && b == 0 then 0 else 2 * Xor(a / 2, b / 2) + (if a % 2 != b % 2 then 1 else 0)
  }

  /** `a ^ b` with a signed `a`: the digits of a negative integer are the complements of those of -1 - a. */
  function XorSigned(a: int, b: nat): int {
    if a >= 0 then Xor(a, b) else -1 - Xor(-1 - a, b)
  }

  /** `x << k` */
  function Shl(x: nat, k: nat): nat
    decreases k
  {
    if k == 0 then x else Shl(2 * x, k - 1)
  }

  /** `x >> k` */
  function Shr(x: nat, k: nat): nat {
    if k == 0 then x else Shr(x / 2, k - 1)
  }

  /** `x & (2^w - 1)` */
  function Low(x: nat, w: nat): nat {
    if w == 0 then 0 else 2 * Low(x / 2, w - 1) + x % 2
  }

  /** `x` has at most `w` binary digits. */
  predicate Fits(x: nat, w: nat) { Low(x, w) == x }

  // ---- Exclusive or

  lemma {:induction false} XorCommutes(a: nat, b: nat)
    ensures Xor(a, b) == Xor(b, a)
  {
    if a != 0 || b != 0 {
      XorCommutes(a / 2, b / 2);
    }
  }

  lemma {:induction false} XorZero(a: nat)
    ensures Xor(a, 0) == a && Xor(0, a) == a && Xor(a, a) == 0
  {
    if a != 0 {
      XorZero(a / 2);
    }
  }

  lemma XorDigits(a: nat, b: nat)
    ensures Xor(a, b) / 2 == Xor(a / 2, b / 2)
    ensures Xor(a, b) % 2 == if a % 2 != b % 2 then 1 else 0
  {
  }

  lemma {:induction false} XorAssociates(a: nat, b: nat, c: nat)
    ensures Xor(Xor(a, b), c) == Xor(a, Xor(b, c))
  {
    if a != 0 || b != 0 || c != 0 {
      XorAssociates(a / 2, b / 2, c / 2);
      XorDigits(a, b);
      XorDigits(b, c);
      XorDigits(Xor(a, b), c);
      XorDigits(a, Xor(b, c));
    }
  }

  /** x ^ y, y ^ z: the common part cancels. */
  lemma XorCancels(x: nat, y: nat, z: nat)
    ensures Xor(Xor(x, y), Xor(y, z)) == Xor(x, z)
  {
    XorAssociates(x, y, Xor(y, z));
    XorAssociates(y, y, z);
    XorZero(y);
    XorZero(z);
  }

  lemma XorSwaps(a: nat, b: nat, c: nat, d: nat)
    ensures Xor(Xor(a, b), Xor(c, d)) == Xor(Xor(a, c), Xor(b, d))
  {
    XorAssociates(a, b, Xor(c, d));
    XorAssociates(b, c, d);
    XorCommutes(b, c);
    XorAssociates(c, b, d);
    XorAssociates(a, c, Xor(b, d));
  }

  // ---- Shifts and masks are linear

  lemma {:induction false} ShlXor(a: nat, b: nat, k: nat)
    ensures Shl(Xor(a, b), k) == Xor(Shl(a, k), Shl(b, k))
    decreases k
  {
    if k != 0 {
      ShlXor(2 * a, 2 * b, k - 1);
    }
  }

  lemma {:induction false} ShrXor(a: nat, b: nat, k: nat)
    ensures Shr(Xor(a, b), k) == Xor(Shr(a, k), Shr(b, k))
  {
    if k != 0 {
      XorDigits(a, b);
      ShrXor(a / 2, b / 2, k - 1);
    }
  }

  lemma {:induction false} LowXor(a: nat, b: nat, w: nat)
    ensures Low(Xor(a, b), w) == Xor(Low(a, w), Low(b, w))
  {
    if w != 0 {
      LowXor(a / 2, b / 2, w - 1);
      XorDigits(a, b);
      XorDigits(Low(a, w), Low(b, w));
      assert Low(a, w) / 2 == Low(a / 2, w - 1) && Low(b, w) / 2 == Low(b / 2, w - 1);
    } else {
      XorZero(0);
    }
  }

  lemma {:induction false} LowLow(x: nat, w: nat)
    ensures Low(Low(x, w), w) == Low(x, w)
  {
    if w != 0 {
      LowLow(x / 2, w - 1);
    }
  }

  lemma {:induction false} ShlShl(x: nat, a: nat, b: nat)
    ensures Shl(Shl(x, a), b) == Shl(x, a + b)
    decreases a
  {
    if a != 0 {
      ShlShl(2 * x, a - 1, b);
    }
  }

  lemma {:induction false} ShrShr(x: nat, a: nat, b: nat)
    ensures Shr(Shr(x, a), b) == Shr(x, a + b)
  {
    if a != 0 {
      ShrShr(x / 2, a - 1, b);
    }
  }

  /** Digits shifted out of the mask do not come back. */
  lemma {:induction false} LowShlLow(x: nat, k: nat, w: nat)
    ensures Low(Shl(Low(x, w), k), w) == Low(Shl(x, k), w)
    decreases k
  {
    if k == 0 {
      LowLow(x, w);
    } else if w > 0 {
      LowDouble(x, w);
      LowShlLow(2 * x, k - 1, w);
      LowShlLow(2 * Low(x, w), k - 1, w);
    }
  }

  lemma LowOfDouble(y: nat, w: nat)
    requires w > 0
    ensures Low(2 * y, w) == 2 * Low(y, w - 1)
  {
    assert 2 * y / 2 == y && 2 * y % 2 == 0;
  }

  lemma LowDouble(x: nat, w: nat)
    ensures Low(2 * Low(x, w), w) == Low(2 * x, w)
  {
    if w > 0 {
      LowOfDouble(x, w);
      LowOfDouble(Low(x, w), w);
      LowLower(x, w - 1, w);
    }
  }

  lemma {:induction false} LowLower(x: nat, v: nat, w: nat)
    requires v <= w
    ensures Low(Low(x, w), v) == Low(x, v)
  {
    if v > 0 {
      LowLower(x / 2, v - 1, w - 1);
    }
  }

  lemma {:induction false} LowOfShl(x: nat, k: nat, w: nat)
    requires k >= w
    ensures Low(Shl(x, k), w) == 0
    decreases w, k
  {
    if w > 0 {
      ShlEven(x, k);
      LowOfShl(x, k - 1, w - 1);
    }
  }

  lemma {:induction false} ShlEven(x: nat, k: nat)
    requires k >= 1
    ensures Shl(x, k) == 2 * Shl(x, k - 1)
    decreases k
  {
    if k > 1 {
      ShlEven(2 * x, k - 1);
    }
  }

  lemma {:induction false} ShrOfFits(x: nat, k: nat, w: nat)
    requires Fits(x, w) && k >= w
    ensures Shr(x, k) == 0
    decreases k
  {
    if k > 0 {
      if w > 0 {
        ShrOfFits(x / 2, k - 1, w - 1);
      } else {
        ShrOfFits(x / 2, k - 1, 0);
      }
    }
  }

  lemma {:induction false} ShrFits(x: nat, k: nat, w: nat)
    requires Fits(x, w)
    ensures Fits(Shr(x, k), w)
  {
    if k > 0 {
      HalfFits(x, w);
      ShrFits(x / 2, k - 1, w);
    }
  }

  lemma {:induction false} HalfFits(x: nat, w: nat)
    requires Fits(x, w)
    ensures Fits(x / 2, w)
  {
    if w > 0 {
      HalfFits(x / 2, w - 1);
    }
  }

  lemma XorFits(a: nat, b: nat, w: nat)
    requires Fits(a, w) && Fits(b, w)
    ensures Fits(Xor(a, b), w)
  {
    LowXor(a, b, w);
  }

  // ---- Masks as remainders

  function Pow2(w: nat): (r: nat)
    ensures r >= 1
  {
    if w == 0 then 1 else 2 * Pow2(w - 1)
  }

  lemma HalfOfRemainder(x: int, m: nat)
    requires m >= 1
    ensures x % (2 * m) == 2 * (x / 2 % m) + x % 2
  {
    var q, r := x / 2 / m, x / 2 % m;
    assert x / 2 == q * m + r;
    assert x == q * (2 * m) + (2 * r + x % 2);
    DivUnique(x, 2 * m, q, 2 * r + x % 2);
  }

  /** Masking is the remainder by the power of two. */
  lemma {:induction false} LowIsRemainder(x: nat, w: nat)
    ensures Low(x, w) == x % Pow2(w)
  {
    if w > 0 {
      LowIsRemainder(x / 2, w - 1);
      HalfOfRemainder(x, Pow2(w - 1));
    }
  }

  lemma XorSignedDigits(a: int, b: nat)
    ensures XorSigned(a, b) / 2 == XorSigned(a / 2, b / 2)
    ensures XorSigned(a, b) % 2 == if a % 2 != b % 2 then 1 else 0
  {
    if a >= 0 {
      XorDigits(a, b);
    } else {
      XorDigits(-1 - a, b);
      assert (-1 - a) / 2 == -1 - a / 2 && (-1 - a) % 2 == 1 - a % 2;
    }
  }

  lemma RemainderDigits(x: int, m: nat, r: int)
    requires m >= 1 && r == x % (2 * m)
    ensures r >= 0 && r / 2 == x / 2 % m && r % 2 == x % 2
  {
    HalfOfRemainder(x, m);
  }

  /** Masking after an exclusive or is masking before it, of negative integers too. */
  lemma {:induction false} XorSignedMasked(a: int, b: nat, w: nat)
    ensures XorSigned(a, b) % Pow2(w) == Xor(a % Pow2(w), b % Pow2(w))
    decreases w
  {
    if w == 0 {
      XorZero(0);
    } else {
      var m := Pow2(w - 1);
      XorSignedMasked(a / 2, b / 2, w - 1);
      XorSignedMaskedOneMore(a, b, m, XorSigned(a, b) % (2 * m), a % (2 * m), b % (2 * m));
    }
  }

  lemma XorSignedMaskedOneMore(a: int, b: nat, m: nat, r: int, x: nat, y: nat)
    requires m >= 1 && XorSigned(a / 2, b / 2) % m == Xor(a / 2 % m, b / 2 % m)
    requires r == XorSigned(a, b) % (2 * m) && x == a % (2 * m) && y == b % (2 * m)
    ensures r == Xor(x, y)
  {
    RemainderDigits(XorSigned(a, b), m, r);
    RemainderDigits(a, m, x);
    RemainderDigits(b, m, y);
    XorSignedDigits(a, b);
    XorDigits(x, y);
    assert r / 2 == Xor(x, y) / 2 && r % 2 == Xor(x, y) % 2;
  }

  lemma SmallRemainder(x: nat, m: nat)
    requires m >= 1
    ensures x % m == x <==> x < m
  {
    if x < m {
      DivUnique(x, m, 0, x);
    }
  }

  lemma FitsExactly(x: nat, w: nat)
    ensures Fits(x, w) <==> x < Pow2(w)
  {
    LowIsRemainder(x, w);
    SmallRemainder(x, Pow2(w));
  }
}
