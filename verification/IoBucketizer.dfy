/** IoBucketizer.cc: completed operations counted per interval of time. */
module IoBucketizer {
  import opened Arithmetic
  import opened Samples

  const INVALID_BUCKET_DURATION: nat := 0

  /** The completion times that fall in interval `i`. */
  function InBucket(d: nat, i: nat): nat -> bool
    requires d > 0
  {
    (t: nat) => t / d == i
  }

  /** The buckets `b` stand for the completion times `m`: one count per interval, as many
      intervals as the latest time needs. */
  ghost predicate Table(b: seq<nat>, m: multiset<nat>, d: nat) {
    && d > 0
    && (forall i: nat :: i < |b| ==> b[i] == CountIf(m, InBucket(d, i)))
    && (forall t :: t in m ==> t / d < |b|)
    && (b != [] ==> b[|b| - 1] > 0)
  }

  function At(b: seq<nat>, i: nat): nat {
    if i < |b| then b[i] else 0
  }

  /** vector::resize to at least `n`: new entries are zero. */
  function Grown(b: seq<nat>, n: nat): (r: seq<nat>)
    ensures |r| == if |b| < n then n else |b|
    ensures forall i: nat :: At(r, i) == At(b, i)
  {
    if |b| < n then b + seq(n - |b|, _ => 0) else b
  }

  /** What a merge leaves: the counts added up position by position. */
  ghost predicate Added(r: seq<nat>, b: seq<nat>, c: seq<nat>) {
    && |r| == (if |b| < |c| then |c| else |b|)
    && forall i: nat :: i < |r| ==> r[i] == At(b, i) + At(c, i)
  }

  class IoBucketizer {
    var bucketDuration: nat
    var validBuckets: nat
    var buckets: seq<nat>
    ghost var times: multiset<nat>

    /** Everything in it was counted with duration `d`. An object that was only merged into
        has no duration of its own. */
    ghost predicate Valid(d: nat)
      reads this
    {
      Table(buckets, times, d) && (bucketDuration == INVALID_BUCKET_DURATION || bucketDuration == d)
    }

    constructor ()
      ensures bucketDuration == INVALID_BUCKET_DURATION && validBuckets == 0 && times == multiset{}
      ensures forall d: nat :: d > 0 ==> Valid(d)
    {
      bucketDuration, validBuckets, buckets, times := INVALID_BUCKET_DURATION, 0, [], multiset{};
    }

    /** The two requirements are the source's own assertions. */
    method Initialize(duration: nat, valid: nat)
      requires bucketDuration == INVALID_BUCKET_DURATION && duration != INVALID_BUCKET_DURATION
      requires Valid(duration)
      modifies this
      ensures Valid(duration) && bucketDuration == duration && validBuckets == valid
      ensures times == old(times)
    {
      bucketDuration, validBuckets := duration, valid;
    }

    method Add(t: nat)
      requires bucketDuration != INVALID_BUCKET_DURATION && Valid(bucketDuration)
      modifies this`buckets, this`times
      ensures Valid(bucketDuration) && times == old(times) + multiset{t}
    {
      hide Table;
      AddToTable(buckets, times, bucketDuration, t);
      var bucketNumber := t / bucketDuration;
      var currentSize := |buckets|;
      if currentSize < bucketNumber + 1 {
        buckets := Grown(buckets, bucketNumber + 1);
        var i := currentSize;
        while i <= bucketNumber
          invariant times == old(times) && currentSize <= i && buckets == Grown(old(buckets), bucketNumber + 1)
        {
          assert At(buckets, i) == 0;
          buckets := buckets[i := 0];
          i := i + 1;
        }
      }
      buckets := buckets[bucketNumber := buckets[bucketNumber] + 1];
      times := times + multiset{t};
    }

    /** Buckets beyond the expected number hold stragglers and are not counted. */
    function ValidPart(): (s: seq<nat>)
      reads this
      ensures |s| <= validBuckets && s <= buckets
      ensures |s| == validBuckets || s == buckets
    {
      if |buckets| > validBuckets then buckets[..validBuckets] else buckets
    }

    method GetNumberOfValidBuckets() returns (n: nat)
      ensures n <= |buckets| && ValidPart() == buckets[..n]
    {
      n := if |buckets| > validBuckets then validBuckets else |buckets|;
      assert buckets[..|buckets|] == buckets;
    }

    /** Merging adds the counts of `other`, which may be this object, position by position,
        whatever the two durations are. Where both count with duration `d` it adds the
        completion times. */
    method Merge(other: IoBucketizer, ghost d: nat)
      modifies this`buckets, this`validBuckets, this`times
      ensures Added(buckets, old(buckets), old(other.buckets)) && times == old(times) + old(other.times)
      ensures old(Valid(d)) && old(other.Valid(d)) ==> Valid(d)
      ensures validBuckets ==
        if old(other.validBuckets) > old(validBuckets) then old(other.validBuckets) else old(validBuckets)
    {
      hide Table;
      if |other.buckets| > |buckets| {
        buckets := Grown(buckets, |other.buckets|);
      }
      if other.validBuckets > validBuckets {
        validBuckets := other.validBuckets;
      }
      AddBuckets(other);
      if old(Valid(d)) && old(other.Valid(d)) {
        AddedTables(buckets, old(buckets), old(times), old(other.buckets), old(other.times), d);
      }
      times := times + other.times;
    }

    method AddBuckets(other: IoBucketizer)
      requires |other.buckets| <= |buckets|
      modifies this`buckets
      ensures Added(buckets, old(buckets), old(other.buckets))
    {
      var i := 0;
      while i < |other.buckets|
        invariant i <= |other.buckets| == old(|other.buckets|) && |buckets| == old(|buckets|)
        invariant forall k: nat :: k < |buckets| ==>
          buckets[k] == old(buckets)[k] + if k < i then old(other.buckets)[k] else 0
        invariant forall k: nat :: i <= k < |other.buckets| ==> other.buckets[k] == old(other.buckets)[k]
      {
        buckets := buckets[i := buckets[i] + other.buckets[i]];
        i := i + 1;
      }
    }

    /** The mean count over the valid buckets. */
    method GetMean() returns (sum: real)
      ensures sum == MeanOf(ValidPart())
    {
      hide Total;
      var numBuckets := GetNumberOfValidBuckets();
      sum := 0.0;
      TotalEmpty(Value);
      assert multiset(buckets[..0]) == multiset{};
      var i := 0;
      while i < numBuckets
        invariant i <= numBuckets <= |buckets| && (numBuckets == 0 ==> sum == 0.0)
        invariant numBuckets > 0 ==> sum == Total(multiset(buckets[..i]), Value) / numBuckets as real
      {
        TotalPrefix(buckets, i, Value);
        DivSum(Total(multiset(buckets[..i]), Value), buckets[i] as real, numBuckets as real);
        sum := sum + buckets[i] as real / numBuckets as real;
        i := i + 1;
      }
    }

    /** The quantity under the square root of GetStandardDeviation; no valid buckets give 0. */
    method GetVariance() returns (v: real)
      ensures v == VarianceOf(ValidPart())
    {
      hide Total, MeanOf, Deviation;
      var numBuckets := GetNumberOfValidBuckets();
      if numBuckets == 0 {
        return 0.0;
      }
      var mean := GetMean();
      var ssd := 0.0;
      TotalEmpty(Deviation(mean));
      assert multiset(buckets[..0]) == multiset{};
      var i := 0;
      while i < numBuckets
        invariant i <= numBuckets <= |buckets|
        invariant ssd == Total(multiset(buckets[..i]), Deviation(mean))
      {
        TotalPrefix(buckets, i, Deviation(mean));
        var dev := buckets[i] as real - mean;
        var sqdev := dev * dev;
        DeviationAt(mean, buckets[i]);
        ssd := ssd + sqdev;
        i := i + 1;
      }
      return ssd / numBuckets as real;
    }
  }

  ghost function MeanOf(s: seq<nat>): real {
    if s == [] then 0.0 else assert s[0] in multiset(s); Mean(multiset(s))
  }

  ghost function VarianceOf(s: seq<nat>): real {
    if s == [] then 0.0 else Total(multiset(s), Deviation(MeanOf(s))) / |s| as real
  }

  /** The variance over buckets is the mean of the squares minus the squared mean. */
  lemma VarianceOfBuckets(s: seq<nat>)
    requires s != []
    ensures VarianceOf(s) == Total(multiset(s), Square) / |s| as real - MeanOf(s) * MeanOf(s)
  {
    hide Total, Mean, Deviation, Square;
    assert |multiset(s)| == |s|;
    assert s[0] in multiset(s);
    VarianceIdentity(multiset(s));
  }

  lemma DeviationAt(mean: real, x: nat)
    ensures Deviation(mean)(x) == (x as real - mean) * (x as real - mean)
  {
  }

  lemma TotalPrefix(b: seq<nat>, i: nat, f: nat -> real)
    requires i < |b|
    ensures Total(multiset(b[..i + 1]), f) == Total(multiset(b[..i]), f) + f(b[i])
  {
    hide Total;
    assert b[..i + 1] == b[..i] + [b[i]];
    TotalAdd(multiset(b[..i]), b[i], f);
  }

  /** In every position, also past the end, stands the count of that interval. */
  lemma TableAt(b: seq<nat>, m: multiset<nat>, d: nat, i: nat)
    requires Table(b, m, d)
    ensures At(b, i) == CountIf(m, InBucket(d, i))
  {
    hide CountIf;
    CountIfPositive(m, InBucket(d, i));
  }

  /** The buckets are determined by the times, so it does not matter in what order, or in
      how many objects merged together, they were counted. */
  lemma TableUnique(b: seq<nat>, c: seq<nat>, m: multiset<nat>, d: nat)
    requires Table(b, m, d) && Table(c, m, d)
    ensures b == c
  {
    hide CountIf;
    forall i: nat ensures At(b, i) == At(c, i) {
      TableAt(b, m, d, i);
      TableAt(c, m, d, i);
    }
    assert b != [] ==> At(b, |b| - 1) == At(c, |b| - 1);
    assert c != [] ==> At(b, |c| - 1) == At(c, |c| - 1);
    assert forall i: nat :: i < |b| == |c| ==> b[i] == At(b, i) == At(c, i) == c[i];
  }

  /** A table is recognised by its entries in all positions and its last one. */
  lemma TableFromEntries(b: seq<nat>, m: multiset<nat>, d: nat)
    requires d > 0 && forall i: nat :: At(b, i) == CountIf(m, InBucket(d, i))
    requires b != [] ==> b[|b| - 1] > 0
    ensures Table(b, m, d)
  {
    hide CountIf;
    forall t | t in m ensures t / d < |b| {
      CountIfPositive(m, InBucket(d, t / d));
      assert InBucket(d, t / d)(t);
      assert At(b, t / d) > 0;
    }
    forall i: nat | i < |b| ensures b[i] == CountIf(m, InBucket(d, i)) {
      assert At(b, i) == b[i];
    }
  }

  lemma AddToTable(b: seq<nat>, m: multiset<nat>, d: nat, t: nat)
    requires Table(b, m, d)
    ensures var g := Grown(b, t / d + 1); Table(g[t / d := g[t / d] + 1], m + multiset{t}, d)
  {
    hide CountIf;
    var g := Grown(b, t / d + 1);
    var r := g[t / d := g[t / d] + 1];
    forall i: nat ensures At(r, i) == CountIf(m + multiset{t}, InBucket(d, i)) {
      TableAt(b, m, d, i);
      CountIfAdd(m, t, InBucket(d, i));
    }
    TableFromEntries(r, m + multiset{t}, d);
  }

  lemma AddedTables(r: seq<nat>, b: seq<nat>, m: multiset<nat>, c: seq<nat>, k: multiset<nat>, d: nat)
    requires Table(b, m, d) && Table(c, k, d) && Added(r, b, c)
    ensures Table(r, m + k, d)
  {
    hide CountIf;
    forall i: nat ensures At(r, i) == CountIf(m + k, InBucket(d, i)) {
      TableAt(b, m, d, i);
      TableAt(c, k, d, i);
      CountIfUnion(m, k, InBucket(d, i));
    }
    TableFromEntries(r, m + k, d);
  }

  /** The first `n` buckets together hold exactly the operations completed before the end of
      the n-th interval. */
  lemma {:induction false} BucketsHold(b: seq<nat>, m: multiset<nat>, d: nat, n: nat)
    requires d > 0 && Table(b, m, d) && n <= |b|
    ensures Total(multiset(b[..n]), Value) == CountUpTo(m, n * d - 1) as real
    decreases n
  {
    hide Total, CountIf, Table;
    if n == 0 {
      assert multiset(b[..0]) == multiset{};
      TotalEmpty(Value);
      CountBounds(m, -1);
    } else {
      BucketsHold(b, m, d, n - 1);
      TotalPrefix(b, n - 1, Value);
      TableAt(b, m, d, n - 1);
      BucketIsDifference(m, d, n - 1);
    }
  }

  /** All buckets together hold every operation added. */
  lemma AllBucketsHold(b: seq<nat>, m: multiset<nat>, d: nat)
    requires Table(b, m, d)
    ensures Total(multiset(b), Value) == |m| as real
  {
    hide Total, CountIf, CountUpTo;
    assert b[..|b|] == b;
    BucketsHold(b, m, d, |b|);
    forall t | t in m ensures t <= |b| * d - 1 {
      DivFits(t / d + 1, |b| * d, d);
      DivFits(|b|, t, d);
    }
    CountBounds(m, |b| * d - 1);
  }

  lemma {:induction false} BucketIsDifference(m: multiset<nat>, d: nat, i: nat)
    requires d > 0
    ensures CountUpTo(m, (i + 1) * d - 1) == CountUpTo(m, i * d - 1) + CountIf(m, InBucket(d, i))
    decreases |m|
  {
    hide CountIf, CountUpTo;
    if m == multiset{} {
      CountNone((i + 1) * d - 1);
      CountNone(i * d - 1);
      CountIfNone(InBucket(d, i));
    } else {
      var t :| t in m;
      BucketIsDifference(m - multiset{t}, d, i);
      CountRemove(m, t, (i + 1) * d - 1);
      CountRemove(m, t, i * d - 1);
      CountIfRemove(m, t, InBucket(d, i));
      DivisionInterval(t, d, i);
    }
  }

  lemma DivisionInterval(t: nat, d: nat, i: nat)
    requires d > 0
    ensures t / d == i <==> i * d <= t < (i + 1) * d
    ensures i * d <= (i + 1) * d
  {
    DivFits(i, t, d);
    DivFits(i + 1, t, d);
    MulMono(i, i + 1, d);
  }

  /** The mean of the valid buckets is the number of operations completed before their end,
      per bucket. */
  lemma MeanIsRate(b: seq<nat>, m: multiset<nat>, d: nat, n: nat)
    requires Table(b, m, d) && 0 < n <= |b|
    ensures MeanOf(b[..n]) == CountUpTo(m, n * d - 1) as real / n as real
  {
    hide Total, CountUpTo;
    BucketsHold(b, m, d, n);
    assert |multiset(b[..n])| == n;
  }

  /** valid_buckets as thread_func computes it; duration * 1000 is a 32-bit product. */
  function ValidBucketCount(duration: nat, bucketMs: nat): int
    requires bucketMs > 0
  {
    Ceiling(((duration * 1000) % 0x1_0000_0000) as real / bucketMs as real)
  }

  lemma CeilingOfQuotient(a: nat, b: nat)
    requires b > 0
    ensures Ceiling(a as real / b as real) == (a + b - 1) / b
  {
    var c := (a + b - 1) / b;
    RoundsUp(a, b);
    CastProduct(c, b);
    CastProduct(c - 1, b);
    QuotientBounds(a as real, b as real, c as real);
    CeilingIs(a as real / b as real, c);
  }

  lemma RoundsUp(a: nat, b: nat)
    requires b > 0
    ensures var c := (a + b - 1) / b; c * b >= a > (c - 1) * b
  {
    var c := (a + b - 1) / b;
    DivFits(c, a + b - 1, b);
    DivFits(c + 1, a + b - 1, b);
    assert (c + 1) * b == c * b + b && (c - 1) * b == c * b - b;
  }

  lemma CastProduct(c: int, b: nat)
    ensures c as real * b as real == (c * b) as real
  {
  }

  lemma CeilingIs(x: real, c: int)
    requires c as real >= x > c as real - 1.0
    ensures Ceiling(x) == c
  {
  }

  lemma QuotientBounds(a: real, b: real, c: real)
    requires b > 0.0 && c * b >= a > (c - 1.0) * b
    ensures c >= a / b > c - 1.0
  {
    var q := a / b;
    DivMul(a, b);
    if q > c {
      ProductGrows(c, q, b);
    }
    if q <= c - 1.0 {
      ProductMonotone(q, c - 1.0, b);
    }
  }

  lemma ProductGrows(x: real, y: real, z: real)
    requires x < y && z > 0.0
    ensures x * z < y * z
  {
  }

  lemma ProductMonotone(x: real, y: real, z: real)
    requires x <= y && z > 0.0
    ensures x * z <= y * z
  {
  }

  /** Every operation completed before the end of the duration falls in a valid bucket, for
      every bucket length, if and only if the duration in milliseconds fits 32 bits. */
  lemma ValidBucketsCover(duration: nat, bucketMs: nat)
    requires 0 < bucketMs < 0x1_0000_0000
    ensures (forall t: nat :: t < duration * 1000 ==> t / bucketMs < ValidBucketCount(duration, bucketMs))
       <==> duration * 1000 < 0x1_0000_0000
  {
    var w := (duration * 1000) % 0x1_0000_0000;
    CeilingOfQuotient(w, bucketMs);
    if duration * 1000 < 0x1_0000_0000 {
      forall t: nat | t < duration * 1000 ensures t / bucketMs < ValidBucketCount(duration, bucketMs) {
        DivBelow(t, w, bucketMs);
      }
    } else {
      var t := duration * 1000 - 1;
      DivBeyond(t, w, bucketMs);
    }
  }

  /** And there are no more valid buckets than that takes. */
  lemma ValidBucketsLeast(duration: nat, bucketMs: nat, n: nat)
    requires 0 < bucketMs && duration * 1000 < 0x1_0000_0000
    requires forall t: nat :: t < duration * 1000 ==> t / bucketMs < n
    ensures ValidBucketCount(duration, bucketMs) <= n
  {
    var w := duration * 1000;
    CeilingOfQuotient(w, bucketMs);
    if w == 0 {
      DivFits(1, bucketMs - 1, bucketMs);
    } else {
      var k := (w - 1) / bucketMs;
      assert k < n;
      DivFits(k + 1, w - 1, bucketMs);
      DivFits(k + 2, w + bucketMs - 1, bucketMs);
      assert (k + 2) * bucketMs == (k + 1) * bucketMs + bucketMs;
    }
  }

  lemma DivBelow(t: nat, w: nat, d: nat)
    requires d > 0 && t < w
    ensures t / d < (w + d - 1) / d
  {
    DivFits(t / d, t, d);
    DivFits(t / d + 1, w + d - 1, d);
  }

  lemma DivBeyond(t: nat, w: nat, d: nat)
    requires d > 0 && t >= w + d - 1
    ensures t / d >= (w + d - 1) / d
  {
    var p := (w + d - 1) / d;
    DivFits(p, w + d - 1, d);
    DivFits(p, t, d);
  }
}
