/** Nonlinear facts, one at a time. */
module Arithmetic {

  lemma MulMono(x: int, y: int, s: int)
    requires x <= y && s >= 0
    ensures x * s <= y * s
  {
  }

  /** Division rounds down to the last multiple that fits. */
  lemma DivFits(x: int, a: int, s: int)
    requires s > 0
    ensures x * s <= a <==> x <= a / s
  {
    if x <= a / s {
      MulMono(x, a / s, s);
    } else {
      MulMono(a / s + 1, x, s);
    }
  }

  lemma DropRemainder(a: int, s: int)
    requires s > 0
    ensures (a - a % s) / s == a / s
  {
    assert a - a % s == (a / s) * s;
    MulDiv(a / s, s);
  }

  lemma MulDiv(x: int, s: int)
    requires s > 0
    ensures (x * s) / s == x && (x * s) % s == 0
  {
    DivFits(x, x * s, s);
    DivFits(x + 1, x * s, s);
    assert (x + 1) * s == x * s + s;
  }

  /** A multiple of a multiple. */
  lemma MulOfMultiple(x: int, s: int, d: int)
    requires d > 0 && s % d == 0
    ensures (x * s) % d == 0
  {
    assert s == (s / d) * d;
    assert x * s == (x * (s / d)) * d;
    MulDiv(x * (s / d), d);
  }

  lemma SumOfMultiples(a: int, b: int, d: int)
    requires d > 0 && a % d == 0 && b % d == 0
    ensures (a + b) % d == 0
  {
    var p, q := a / d, b / d;
    assert a + b == p * d + q * d == (p + q) * d;
    MulDiv(p + q, d);
  }

  /** Counting up by one, modulo `k`. */
  lemma ModNext(n: nat, k: int)
    requires k > 0
    ensures (n + 1) % k == if n % k + 1 == k then 0 else n % k + 1
  {
    var q, r := n / k, n % k;
    assert n + 1 == q * k + (r + 1);
    if r + 1 == k {
      assert n + 1 == (q + 1) * k;
      MulDiv(q + 1, k);
    } else {
      ModUnique(n + 1, k, q, r + 1);
    }
  }

  lemma ModUnique(a: int, k: int, q: int, r: int)
    requires k > 0 && a == q * k + r && 0 <= r < k
    ensures a % k == r && a / k == q
  {
    QuotientUnique(a, k, q, r);
    RemainderIs(a, k);
  }

  lemma QuotientUnique(a: int, k: int, q: int, r: int)
    requires k > 0 && a == q * k + r && 0 <= r < k
    ensures a / k == q
  {
    DivFits(q, a, k);
    DivFits(q + 1, a, k);
    assert (q + 1) * k == q * k + k;
  }

  lemma RemainderIs(a: int, k: int)
    requires k > 0
    ensures a % k == a - (a / k) * k
  {
  }
}
