/** Bitwise operators of an unsigned 64-bit type on natural numbers, as far as the masks in
    target.h and job.cc use them. */
module Bits {
  import opened Arithmetic

  function Pow2(k: nat): (p: nat)
    ensures p >= 1
  {
    if k == 0 then 1 else 2 * Pow2(k - 1)
  }

  const WORD_BITS: nat := 64

  /** The operator & on unsigned words, bit by bit. */
  function And(x: nat, y: nat): nat {
    if x == 0 || y == 0 then 0
    else 2 * And(x / 2, y / 2) + (if x % 2 == 1 && y % 2 == 1 then 1 else 0)
  }

  /** The operator ~ on a word of `bits` bits. */
  function Not(x: nat, bits: nat): nat
    requires x < Pow2(bits)
  {
    Pow2(bits) - 1 - x
  }

  lemma {:induction false} AndZero(x: nat)
    ensures And(x, 0) == 0 && And(0, x) == 0
  {
  }

  /** Masking with 2^k - 1 is the remainder by 2^k. */
  lemma {:induction false} LowMask(x: nat, k: nat)
    ensures And(x, Pow2(k) - 1) == x % Pow2(k)
    decreases k
  {
    if k == 0 {
      AndZero(x);
    } else if x == 0 {
      SmallRemainder(x, Pow2(k));
    } else {
      LowMask(x / 2, k - 1);
      LowMaskStep(x, k);
    }
  }

  lemma LowMaskStep(x: nat, k: nat)
    requires x > 0 && k > 0 && And(x / 2, Pow2(k - 1) - 1) == (x / 2) % Pow2(k - 1)
    ensures And(x, Pow2(k) - 1) == x % Pow2(k)
  {
    hide And;
    var p := Pow2(k - 1);
    assert Pow2(k) == 2 * p;
    LowMaskBit(x, p);
    HalveRemainder(x, p);
  }

  lemma LowMaskBit(x: nat, p: nat)
    requires x > 0 && p > 0
    ensures And(x, 2 * p - 1) == 2 * And(x / 2, p - 1) + x % 2
  {
    assert (2 * p - 1) / 2 == p - 1 && (2 * p - 1) % 2 == 1;
  }

  lemma HalveRemainder(x: nat, p: nat)
    requires p > 0
    ensures x % (2 * p) == 2 * ((x / 2) % p) + x % 2
  {
    var q, r := (x / 2) / p, (x / 2) % p;
    assert x == 2 * (q * p + r) + x % 2;
    assert 2 * (q * p) == q * (2 * p);
    ModUnique(x, 2 * p, q, 2 * r + x % 2);
  }

  /** Masking with ~(2^k - 1) drops the remainder by 2^k. */
  lemma {:induction false} HighMask(x: nat, k: nat, bits: nat)
    requires k <= bits && x < Pow2(bits)
    ensures Pow2(k) - 1 < Pow2(bits)
    ensures And(x, Not(Pow2(k) - 1, bits)) == x - x % Pow2(k)
    decreases bits
  {
    hide And, Not, Pow2;
    if k == 0 {
      FullMask(x, bits);
      Pow2Mono(0, bits);
    } else {
      HalfBelow(x, bits);
      Pow2Mono(k - 1, bits - 1);
      HighMask(x / 2, k - 1, bits - 1);
      HighMaskStep(x, k, bits);
    }
  }

  lemma HalfBelow(x: nat, bits: nat)
    requires bits > 0 && x < Pow2(bits)
    ensures x / 2 < Pow2(bits - 1)
  {
  }

  lemma FullMask(x: nat, bits: nat)
    requires x < Pow2(bits)
    ensures And(x, Not(Pow2(0) - 1, bits)) == x - x % Pow2(0)
  {
    hide And;
    assert Not(Pow2(0) - 1, bits) == Pow2(bits) - 1;
    LowMask(x, bits);
    SmallRemainder(x, Pow2(bits));
  }

  lemma HighMaskStep(x: nat, k: nat, bits: nat)
    requires 0 < k <= bits && x < Pow2(bits) && Pow2(k - 1) <= Pow2(bits - 1)
    requires And(x / 2, Not(Pow2(k - 1) - 1, bits - 1)) == x / 2 - (x / 2) % Pow2(k - 1)
    ensures Pow2(k) - 1 < Pow2(bits)
    ensures And(x, Not(Pow2(k) - 1, bits)) == x - x % Pow2(k)
  {
    hide And;
    var p, h := Pow2(k - 1), Pow2(bits - 1) - Pow2(k - 1);
    assert Pow2(k) == 2 * p && Pow2(bits) - Pow2(k) == 2 * h;
    AndEven(x, h);
    HalveRemainder(x, p);
  }

  lemma AndEven(x: nat, h: nat)
    ensures And(x, 2 * h) == 2 * And(x / 2, h)
  {
    assert (2 * h) / 2 == h && (2 * h) % 2 == 0;
  }

  lemma SmallRemainder(x: nat, p: nat)
    requires x < p
    ensures x % p == x
  {
  }

  lemma {:induction false} Pow2Mono(k: nat, n: nat)
    requires k <= n
    ensures Pow2(k) <= Pow2(n)
    decreases n
  {
    if k == n {
    } else {
      Pow2Mono(k, n - 1);
    }
  }

  ghost predicate IsPowerOfTwo(a: nat) {
    exists k: nat :: a == Pow2(k)
  }

  lemma HalfOfPower(a: nat)
    requires a > 0 && a % 2 == 0
    ensures IsPowerOfTwo(a) <==> IsPowerOfTwo(a / 2)
  {
    if k: nat :| a == Pow2(k) {
      assert k != 0;
      var j: nat := k - 1;
      assert a / 2 == Pow2(j);
    }
    if j: nat :| a / 2 == Pow2(j) {
      assert a == Pow2(j + 1);
    }
  }

  lemma OddPower(a: nat)
    requires a > 1 && a % 2 == 1
    ensures !IsPowerOfTwo(a)
  {
  }

  /** The test `!(a & (a - 1))` on a positive word tells the powers of two. */
  lemma {:induction false} PowerOfTwoTest(a: nat)
    requires a > 0
    ensures And(a, a - 1) == 0 <==> IsPowerOfTwo(a)
    ensures a == 1 ==> And(a, a - 1) == 0
  {
    if a == 1 {
      assert a == Pow2(0);
    } else if a % 2 == 1 {
      assert And(a, a - 1) == 2 * And(a / 2, a / 2);
      AndSelf(a / 2);
      OddPower(a);
    } else {
      PowerOfTwoTest(a / 2);
      HalfOfPower(a);
      assert (a - 1) / 2 == a / 2 - 1;
      assert And(a, a - 1) == 2 * And(a / 2, a / 2 - 1);
    }
  }

  lemma {:induction false} AndSelf(x: nat)
    ensures And(x, x) == x
  {
    if x == 0 {
    } else {
      AndSelf(x / 2);
    }
  }
}
