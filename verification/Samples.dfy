/** The plain list of samples that the statistics structures compress. */
module Samples {

  ghost predicate Sorted(s: seq<nat>) {
    forall i, j :: 0 <= i <= j < |s| ==> s[i] <= s[j]
  }

  /** A sorted list of the samples; there is one for every multiset. */
  lemma {:induction false} SortedExists(m: multiset<nat>)
    ensures exists s: seq<nat> :: Sorted(s) && multiset(s) == m
    decreases |m|
  {
    if m == multiset{} {
      assert Sorted([]) && multiset([]) == m;
    } else {
      var x := Smallest(m);
      SortedExists(m - multiset{x});
      var s: seq<nat> :| Sorted(s) && multiset(s) == m - multiset{x};
      forall j | 0 <= j < |s| ensures x <= s[j] {
        assert s[j] in multiset(s);
      }
      SortedCons(x, s);
      assert multiset([x] + s) == m;
    }
  }

  lemma SortedCons(x: nat, s: seq<nat>)
    requires Sorted(s) && forall j :: 0 <= j < |s| ==> x <= s[j]
    ensures Sorted([x] + s)
  {
  }

  lemma {:induction false} Smallest(m: multiset<nat>) returns (x: nat)
    requires m != multiset{}
    ensures x in m && forall y :: y in m ==> x <= y
    decreases |m|
  {
    var first :| first in m;
    var rest := m - multiset{first};
    assert forall z :: z in m ==> z == first || z in rest;
    if rest == multiset{} {
      x := first;
    } else {
      x := Smallest(rest);
      x := if first < x then first else x;
    }
  }

  /** How many samples satisfy `f`. */
  ghost function CountIf(m: multiset<nat>, f: nat -> bool): nat {
    if m == multiset{} then 0
    else var x :| x in m; CountIf(m - multiset{x}, f) + if f(x) then 1 else 0
  }

  lemma {:induction false} CountIfRemove(m: multiset<nat>, x: nat, f: nat -> bool)
    requires x in m
    ensures CountIf(m, f) == CountIf(m - multiset{x}, f) + if f(x) then 1 else 0
    decreases |m|
  {
    var y :| y in m && CountIf(m, f) == CountIf(m - multiset{y}, f) + if f(y) then 1 else 0;
    if x == y {
    } else {
      CountIfRemove(m - multiset{y}, x, f);
      CountIfRemove(m - multiset{x}, y, f);
      assert m - multiset{y} - multiset{x} == m - multiset{x} - multiset{y};
    }
  }

  lemma CountIfAdd(m: multiset<nat>, x: nat, f: nat -> bool)
    ensures CountIf(m + multiset{x}, f) == CountIf(m, f) + if f(x) then 1 else 0
  {
    hide CountIf;
    assert m + multiset{x} - multiset{x} == m;
    CountIfRemove(m + multiset{x}, x, f);
  }

  lemma CountIfNone(f: nat -> bool)
    ensures CountIf(multiset{}, f) == 0
  {
  }

  lemma {:induction false} CountIfUnion(a: multiset<nat>, b: multiset<nat>, f: nat -> bool)
    ensures CountIf(a + b, f) == CountIf(a, f) + CountIf(b, f)
    decreases |b|
  {
    hide CountIf;
    if b == multiset{} {
      assert a + b == a;
      CountIfNone(f);
    } else {
      var x :| x in b;
      CountIfUnion(a, b - multiset{x}, f);
      CountIfRemove(b, x, f);
      assert a + b == a + (b - multiset{x}) + multiset{x};
      CountIfAdd(a + (b - multiset{x}), x, f);
    }
  }

  /** A count is positive exactly when there is such a sample. */
  lemma {:induction false} CountIfPositive(m: multiset<nat>, f: nat -> bool)
    ensures CountIf(m, f) > 0 <==> exists x :: x in m && f(x)
    decreases |m|
  {
    hide CountIf;
    if m == multiset{} {
      CountIfNone(f);
    } else {
      var x :| x in m;
      CountIfRemove(m, x, f);
      CountIfPositive(m - multiset{x}, f);
      assert forall y :: y in m ==> y == x || y in m - multiset{x};
    }
  }

  function AtMost(v: int): nat -> bool {
    (x: nat) => x <= v
  }

  /** How many samples are at most `v`. */
  ghost function CountUpTo(m: multiset<nat>, v: int): nat {
    CountIf(m, AtMost(v))
  }

  lemma CountRemove(m: multiset<nat>, x: nat, v: int)
    requires x in m
    ensures CountUpTo(m, v) == CountUpTo(m - multiset{x}, v) + if x <= v then 1 else 0
  {
    hide CountIf;
    CountIfRemove(m, x, AtMost(v));
  }

  /** From one value to the next one present the count grows by the copies of the latter. */
  lemma {:induction false} CountStep(m: multiset<nat>, u: int, v: nat)
    requires u < v && forall x :: x in m ==> x <= u || x >= v
    ensures CountUpTo(m, v) == CountUpTo(m, u) + m[v]
    decreases |m|
  {
    hide CountUpTo;
    if m == multiset{} {
      CountNone(u);
      CountNone(v);
    } else {
      var x :| x in m;
      CountRemove(m, x, u);
      CountRemove(m, x, v);
      CountStep(m - multiset{x}, u, v);
    }
  }

  /** Where no sample lies the count stays. */
  lemma CountFlat(m: multiset<nat>, u: int, v: int)
    requires -1 <= u <= v && forall x :: x in m ==> x <= u || x > v
    ensures CountUpTo(m, v) == CountUpTo(m, u)
  {
    hide CountUpTo;
    if u < v {
      CountStep(m, u, v);
    }
  }

  /** Counting up to an upper or below a lower bound. */
  lemma {:induction false} CountBounds(m: multiset<nat>, v: int)
    ensures CountUpTo(m, v) <= |m|
    ensures (forall x :: x in m ==> x <= v) ==> CountUpTo(m, v) == |m|
    ensures (forall x :: x in m ==> x > v) ==> CountUpTo(m, v) == 0
    decreases |m|
  {
    hide CountUpTo;
    if m == multiset{} {
      CountNone(v);
    } else {
      var x :| x in m;
      CountRemove(m, x, v);
      CountBounds(m - multiset{x}, v);
    }
  }

  /** In a sorted list the samples at most `v` come first. */
  lemma {:induction false} CountSorted(s: seq<nat>, v: int)
    requires Sorted(s)
    ensures CountUpTo(multiset(s), v) <= |s|
    ensures forall i :: 0 <= i < |s| ==> (i < CountUpTo(multiset(s), v) <==> s[i] <= v)
    decreases |s|
  {
    hide CountUpTo;
    if s == [] {
      CountNone(v);
    } else {
      var n := |s| - 1;
      var front := s[..n];
      CountSorted(front, v);
      CountLast(s, v);
      assert s == front + [s[n]];
      assert forall i :: 0 <= i < n ==> s[i] == front[i];
      SortedCut(front, s[n], CountUpTo(multiset(front), v), v);
    }
  }

  lemma CountNone(v: int)
    ensures CountUpTo(multiset{}, v) == 0
  {
    CountIfNone(AtMost(v));
  }

  lemma CountLast(s: seq<nat>, v: int)
    requires s != []
    ensures CountUpTo(multiset(s), v)
         == CountUpTo(multiset(s[..|s| - 1]), v) + if s[|s| - 1] <= v then 1 else 0
  {
    hide CountUpTo;
    var n := |s| - 1;
    assert s == s[..n] + [s[n]];
    assert multiset(s) - multiset{s[n]} == multiset(s[..n]);
    CountRemove(multiset(s), s[n], v);
  }

  /** If the first `c` of the front are the ones at most `v`, the last one joins them only
      when they are all of the front. */
  lemma SortedCut(front: seq<nat>, last: nat, c: nat, v: int)
    requires Sorted(front + [last]) && c <= |front|
    requires forall i :: 0 <= i < |front| ==> (i < c <==> front[i] <= v)
    ensures last <= v ==> c == |front|
  {
    var s := front + [last];
    assert s[|front|] == last;
    forall i | 0 <= i < |front| ensures front[i] <= last {
      assert s[i] == front[i];
    }
    assert c < |front| ==> front[c] <= last;
  }

  /** The sum of a weight over all samples. */
  ghost function Total(m: multiset<nat>, f: nat -> real): real {
    if m == multiset{} then 0.0
    else var x :| x in m; Total(m - multiset{x}, f) + f(x)
  }

  /** The sample the definition picks. */
  lemma TotalPick(m: multiset<nat>, f: nat -> real) returns (y: nat)
    requires m != multiset{}
    ensures y in m && Total(m, f) == Total(m - multiset{y}, f) + f(y)
  {
    y :| y in m && Total(m, f) == Total(m - multiset{y}, f) + f(y);
  }

  lemma {:induction false} TotalRemove(m: multiset<nat>, x: nat, f: nat -> real)
    requires x in m
    ensures Total(m, f) == Total(m - multiset{x}, f) + f(x)
    decreases |m|
  {
    hide Total;
    var y := TotalPick(m, f);
    if x == y {
    } else {
      TotalRemove(m - multiset{y}, x, f);
      TotalRemove(m - multiset{x}, y, f);
      assert m - multiset{y} - multiset{x} == m - multiset{x} - multiset{y};
    }
  }

  lemma TotalEmpty(f: nat -> real)
    ensures Total(multiset{}, f) == 0.0
  {
  }

  lemma TotalAdd(m: multiset<nat>, x: nat, f: nat -> real)
    ensures Total(m + multiset{x}, f) == Total(m, f) + f(x)
  {
    assert m + multiset{x} - multiset{x} == m;
    TotalRemove(m + multiset{x}, x, f);
  }

  /** Adding two sample sets adds their totals: what Merge relies on. */
  lemma {:induction false} TotalUnion(a: multiset<nat>, b: multiset<nat>, f: nat -> real)
    ensures Total(a + b, f) == Total(a, f) + Total(b, f)
    decreases |b|
  {
    if b == multiset{} {
      assert a + b == a;
    } else {
      var x :| x in b;
      TotalUnion(a, b - multiset{x}, f);
      TotalRemove(b, x, f);
      assert a + b == a + (b - multiset{x}) + multiset{x};
      TotalAdd(a + (b - multiset{x}), x, f);
    }
  }

  function Times(n: nat, a: real): real {
    n as real * a
  }

  lemma OneMore(n: nat, a: real)
    ensures Times(0, a) == 0.0
    ensures Times(n + 1, a) == Times(n, a) + a
  {
  }

  /** `c` copies of `x`. */
  ghost function Copies(x: nat, c: nat): multiset<nat> {
    multiset{}[x := c]
  }

  lemma {:induction false} TotalCopies(x: nat, c: nat, f: nat -> real)
    ensures Total(Copies(x, c), f) == Times(c, f(x))
    ensures |Copies(x, c)| == c
    decreases c
  {
    hide Total, Times;
    OneMore(0, f(x));
    if c == 0 {
      assert Copies(x, 0) == multiset{};
      TotalEmpty(f);
    } else {
      TotalCopies(x, c - 1, f);
      assert Copies(x, c) == Copies(x, c - 1) + multiset{x};
      TotalAdd(Copies(x, c - 1), x, f);
      OneMore(c - 1, f(x));
    }
  }

  /** All copies of one value at once: what one entry of a table of counts stands for. */
  lemma TotalEntry(m: multiset<nat>, x: nat, c: nat, f: nat -> real)
    requires x !in m
    ensures Total(m[x := c], f) == Total(m, f) + Times(c, f(x))
  {
    assert m[x := c] == m + Copies(x, c);
    TotalUnion(m, Copies(x, c), f);
    TotalCopies(x, c, f);
  }

  function Value(x: nat): real {
    x as real
  }

  function Square(x: nat): real {
    x as real * x as real
  }

  ghost function Mean(m: multiset<nat>): real
    requires m != multiset{}
  {
    Total(m, Value) / |m| as real
  }

  /** A total lies between any bounds of the samples, as many times as there are samples. */
  lemma {:induction false} TotalBounds(m: multiset<nat>, low: nat, high: nat)
    requires forall x :: x in m ==> low <= x <= high
    ensures Times(|m|, low as real) <= Total(m, Value) <= Times(|m|, high as real)
    decreases |m|
  {
    hide Total, Times;
    if m == multiset{} {
      TotalEmpty(Value);
      OneMore(0, low as real);
      OneMore(0, high as real);
    } else {
      var x :| x in m;
      TotalRemove(m, x, Value);
      TotalBounds(m - multiset{x}, low, high);
      OneMore(|m| - 1, low as real);
      OneMore(|m| - 1, high as real);
    }
  }

  /** Squared deviations from `a`, from the number, the total and the squared total. */
  function Spread(squares: real, sum: real, n: nat, a: real): real {
    squares - 2.0 * a * sum + n as real * a * a
  }

  lemma {:induction false} TotalDeviation(m: multiset<nat>, a: real)
    ensures Total(m, Deviation(a)) == Spread(Total(m, Square), Total(m, Value), |m|, a)
    decreases |m|
  {
    hide Total, Spread, Deviation, Square, Value;
    if m == multiset{} {
      TotalEmpty(Deviation(a));
      TotalEmpty(Square);
      TotalEmpty(Value);
      SpreadEmpty(a);
    } else {
      var x :| x in m;
      var r := m - multiset{x};
      TotalDeviation(r, a);
      TotalRemove(m, x, Deviation(a));
      TotalRemove(m, x, Value);
      TotalRemove(m, x, Square);
      SpreadStep(Total(r, Square), Total(r, Value), |r|, a, x);
    }
  }

  function Deviation(a: real): nat -> real {
    (x: nat) => (x as real - a) * (x as real - a)
  }

  lemma SpreadEmpty(a: real)
    ensures Spread(0.0, 0.0, 0, a) == 0.0
  {
  }

  lemma SpreadStep(squares: real, sum: real, n: nat, a: real, x: nat)
    ensures Spread(squares + Square(x), sum + Value(x), n + 1, a)
         == Spread(squares, sum, n, a) + Deviation(a)(x)
  {
    var v := x as real;
    assert (v - a) * (v - a) == v * v - 2.0 * a * v + a * a;
    assert 2.0 * a * (sum + v) == 2.0 * a * sum + 2.0 * a * v;
    assert (n + 1) as real * a * a == n as real * a * a + a * a;
  }

  lemma MeanTimesSize(m: multiset<nat>)
    requires m != multiset{}
    ensures Mean(m) * |m| as real == Total(m, Value)
  {
    hide Total;
    DivMul(Total(m, Value), |m| as real);
  }

  lemma DivSum(a: real, b: real, n: real)
    requires n > 0.0
    ensures (a + b) / n == a / n + b / n
  {
  }

  lemma DivMul(a: real, n: real)
    requires n > 0.0
    ensures a / n * n == a
  {
  }

  lemma VarianceArithmetic(sq: real, sum: real, size: nat, a: real)
    requires size > 0 && sum == a * size as real
    ensures Spread(sq, sum, size, a) / size as real == sq / size as real - a * a
  {
    var n := size as real;
    assert 2.0 * a * sum == 2.0 * (n * a * a);
    var b := n * a * a;
    assert b == (a * a) * n;
    assert (sq - b) / n == sq / n - b / n;
    MulThenDiv(a * a, n);
  }

  lemma MulThenDiv(a: real, n: real)
    requires n > 0.0
    ensures a * n / n == a
  {
  }

  /** The mean squared deviation is the mean of the squares minus the square of the mean. */
  lemma VarianceIdentity(m: multiset<nat>)
    requires m != multiset{}
    ensures Total(m, Deviation(Mean(m))) / |m| as real
         == Total(m, Square) / |m| as real - Mean(m) * Mean(m)
  {
    hide Total, Mean, Spread;
    TotalDeviation(m, Mean(m));
    MeanTimesSize(m);
    VarianceArithmetic(Total(m, Square), Total(m, Value), |m|, Mean(m));
  }

  /** The mean of a union is the weighted mean. */
  lemma MeanOfUnion(a: multiset<nat>, b: multiset<nat>)
    requires a != multiset{} && b != multiset{}
    ensures a + b != multiset{}
    ensures Mean(a + b) * |a + b| as real == Mean(a) * |a| as real + Mean(b) * |b| as real
  {
    hide Total, Mean;
    var x :| x in a;
    assert x in a + b;
    TotalUnion(a, b, Value);
    MeanTimesSize(a);
    MeanTimesSize(b);
    MeanTimesSize(a + b);
  }

  /** The target count of percentile `p`. */
  function Share(n: nat, p: real): real {
    n as real * p
  }

  lemma ShareIs(n: nat, p: real)
    ensures Share(n, p) == n as real * p
  {
  }

  function Ceiling(x: real): int {
    if x.Floor as real == x then x.Floor else x.Floor + 1
  }

  /** The rank of percentile `p` among `n` samples, counted from 1. */
  function Rank(n: nat, p: real): int {
    if Ceiling(Share(n, p)) >= 1 then Ceiling(Share(n, p)) else 1
  }

  lemma RankInRange(n: nat, p: real)
    requires n > 0 && 0.0 <= p <= 1.0
    ensures 1 <= Rank(n, p) <= n
  {
    AtMostAll(n, p);
    CeilingLeast(Share(n, p), n);
  }

  lemma MulAtMost(n: real, p: real)
    requires n >= 0.0 && 0.0 <= p <= 1.0
    ensures 0.0 <= n * p <= n
  {
  }

  lemma AtMostAll(n: nat, p: real)
    requires 0.0 <= p <= 1.0
    ensures 0.0 <= Share(n, p) <= n as real
  {
    MulAtMost(n as real, p);
  }

  /** The rank is the least number, from 1 on, that reaches n * p. */
  lemma RankExact(n: nat, p: real)
    ensures Rank(n, p) >= 1 && Rank(n, p) as real >= n as real * p
    ensures Rank(n, p) > 1 ==> (Rank(n, p) - 1) as real < n as real * p
  {
  }

  /** `r` is the sample at the percentile's rank in the sorted list. */
  ghost predicate IsPercentile(m: multiset<nat>, p: real, r: nat)
    requires m != multiset{} && 0.0 <= p <= 1.0
  {
    forall s: seq<nat> :: Sorted(s) && multiset(s) == m ==> AtRank(s, p, r)
  }

  ghost predicate AtRank(s: seq<nat>, p: real, r: nat) {
    1 <= Rank(|s|, p) <= |s| && s[Rank(|s|, p) - 1] == r
  }

  /** What the loop over the sorted counts stops at: the first value up to which at least
      n * p samples have been counted. */
  lemma FirstCountIsPercentile(m: multiset<nat>, p: real, r: nat)
    requires m != multiset{} && 0.0 <= p <= 1.0 && r in m
    requires CountUpTo(m, r) as real >= |m| as real * p
    requires CountUpTo(m, r - 1) == 0 || (CountUpTo(m, r - 1) as real) < |m| as real * p
    ensures IsPercentile(m, p, r)
  {
    hide CountUpTo, AtRank, Sorted;
    assert Share(|m|, p) == |m| as real * p;
    hide Share;
    forall s: seq<nat> | Sorted(s) && multiset(s) == m ensures AtRank(s, p, r) {
      assert |s| == |multiset(s)|;
      FirstCountAtRank(s, p, r);
    }
  }

  lemma FirstCountAtRank(s: seq<nat>, p: real, r: nat)
    requires Sorted(s) && 0.0 <= p <= 1.0 && r in multiset(s)
    requires CountUpTo(multiset(s), r) as real >= Share(|s|, p)
    requires CountUpTo(multiset(s), r - 1) == 0 || (CountUpTo(multiset(s), r - 1) as real) < Share(|s|, p)
    ensures AtRank(s, p, r)
  {
    hide CountUpTo, AtRank, Sorted;
    CountSorted(s, r);
    CountSorted(s, r - 1);
    CutsGiveRank(s, CountUpTo(multiset(s), r), CountUpTo(multiset(s), r - 1), p, r);
  }

  lemma CutsGiveRank(s: seq<nat>, upTo: nat, below: nat, p: real, r: nat)
    requires r in s && 0.0 <= p <= 1.0 && upTo <= |s|
    requires forall i :: 0 <= i < |s| ==> (i < upTo <==> s[i] <= r)
    requires forall i :: 0 <= i < |s| ==> (i < below <==> s[i] <= r - 1)
    requires upTo as real >= Share(|s|, p)
    requires below == 0 || (below as real) < Share(|s|, p)
    ensures AtRank(s, p, r)
  {
    hide Ceiling;
    var i :| 0 <= i < |s| && s[i] == r;
    RankInRange(|s|, p);
    CeilingLeast(Share(|s|, p), upTo);
    CeilingAbove(Share(|s|, p), below);
    assert below <= Rank(|s|, p) - 1 < upTo;
  }

  lemma CeilingLeast(x: real, c: int)
    requires c as real >= x
    ensures c >= Ceiling(x)
  {
  }

  lemma CeilingAbove(x: real, c: int)
    ensures (c as real) < x ==> c < Ceiling(x)
  {
  }

  lemma PercentileMonotone(m: multiset<nat>, p: real, q: real, a: nat, b: nat)
    requires m != multiset{} && 0.0 <= p <= q <= 1.0
    requires IsPercentile(m, p, a) && IsPercentile(m, q, b)
    ensures a <= b
  {
    SortedExists(m);
    var s: seq<nat> :| Sorted(s) && multiset(s) == m;
    assert AtRank(s, p, a) && AtRank(s, q, b);
    RankMonotone(|s|, p, q);
  }

  lemma RankMonotone(n: nat, p: real, q: real)
    requires p <= q
    ensures Rank(n, p) <= Rank(n, q)
  {
    assert n as real * p <= n as real * q;
  }

  /** The 0th percentile is the minimum and the 100th the maximum. */
  lemma PercentileExtremes(m: multiset<nat>, low: nat, high: nat)
    requires m != multiset{} && IsPercentile(m, 0.0, low) && IsPercentile(m, 1.0, high)
    ensures low in m && high in m && forall x :: x in m ==> low <= x <= high
  {
    SortedExists(m);
    var s: seq<nat> :| Sorted(s) && multiset(s) == m;
    assert AtRank(s, 0.0, low) && AtRank(s, 1.0, high);
    assert Rank(|s|, 0.0) == 1 && Rank(|s|, 1.0) == |s|;
    assert s[0] in multiset(s) && s[|s| - 1] in multiset(s);
    forall x | x in m ensures low <= x <= high {
      assert x in multiset(s);
      var i :| 0 <= i < |s| && s[i] == x;
    }
  }

  /** The mean lies between the minimum and the maximum. */
  lemma MeanBetween(m: multiset<nat>, low: nat, high: nat)
    requires m != multiset{} && forall x :: x in m ==> low <= x <= high
    ensures low as real <= Mean(m) <= high as real
  {
    hide Total;
    TotalBounds(m, low, high);
    DivBounds(Total(m, Value), |m| as real, low as real, high as real);
  }

  lemma DivBounds(a: real, n: real, low: real, high: real)
    requires n > 0.0 && n * low <= a <= n * high
    ensures low <= a / n <= high
  {
  }
}
