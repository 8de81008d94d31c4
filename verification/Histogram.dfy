/** Histogram.h: a count per value instead of the list of samples. */
module Histogram {
  import opened Samples
  import opened Wrappers

  datatype Error = InvalidArgument | Undefined | Overflow | NotANumber

  /** The counts `data` stand for the samples `m`. */
  ghost predicate Counts(data: map<nat, nat>, m: multiset<nat>) {
    && (forall v :: v in data ==> data[v] == m[v] > 0)
    && (forall v :: v in m ==> v in data)
  }

  /** The samples of the values in `keys`. */
  ghost predicate Part(data: map<nat, nat>, keys: set<nat>, m: multiset<nat>) {
    && keys <= data.Keys
    && (forall v :: v in keys ==> data[v] == m[v])
    && (forall v :: v in m ==> v in keys)
  }

  class Histogram {
    var data: map<nat, nat>
    var samples: nat
    ghost var contents: multiset<nat>

    ghost predicate Valid()
      reads this
    {
      Counts(data, contents) && samples == |contents|
    }

    constructor ()
      ensures Valid() && contents == multiset{}
    {
      data, samples, contents := map[], 0, multiset{};
    }

    method Clear()
      modifies this
      ensures Valid() && contents == multiset{}
    {
      data, samples, contents := map[], 0, multiset{};
    }

    method Add(v: nat)
      requires Valid()
      modifies this
      ensures Valid() && contents == old(contents) + multiset{v}
    {
      data := data[v := (if v in data then data[v] else 0) + 1];
      samples := samples + 1;
      contents := contents + multiset{v};
    }

    /** Merging adds the samples of `other`, in whatever order its table is walked. `other`
        may be this histogram itself. */
    method Merge(other: Histogram)
      requires Valid() && other.Valid()
      modifies this
      ensures Valid() && contents == old(contents) + old(other.contents)
    {
      hide Counts, Part;
      var left := other.data.Keys;
      ghost var done: set<nat> := {};
      ghost var added: multiset<nat> := multiset{};
      NothingMerged(other.data, other.contents, data, contents);
      while left != {}
        invariant left == old(other.data).Keys - done && done <= old(other.data).Keys
        invariant forall v :: v in left ==> v in other.data && other.data[v] == old(other.data)[v] > 0
        invariant Part(old(other.data), done, added)
        invariant Counts(data, old(contents) + added)
        invariant samples == old(samples) && contents == old(contents) && other.samples == old(other.samples)
        decreases left
      {
        var v :| v in left;
        MergeEntry(old(other.data), done, added, data, old(contents), v);
        ghost var c := other.data[v];
        data := data[v := (if v in data then data[v] else 0) + other.data[v]];
        left := left - {v};
        done := done + {v};
        added := added[v := c];
      }
      assert done == old(other.data).Keys;
      WholePart(old(other.data), old(other.contents), added);
      samples := samples + other.samples;
      contents := contents + added;
    }

    method GetSampleSize() returns (n: nat)
      requires Valid()
      ensures n == |contents|
    {
      n := samples;
    }

    /** `limit` is numeric_limits<T>::max(), the answer for no samples. */
    method GetMin(limit: nat) returns (min: nat)
      requires Valid()
      ensures contents == multiset{} ==> min == limit
      ensures contents != multiset{} && (forall v :: v in contents ==> v <= limit) ==>
                min in contents && forall v :: v in contents ==> min <= v
    {
      min := limit;
      var left := data.Keys;
      while left != {}
        invariant left <= data.Keys
        invariant min == limit || min in data
        invariant forall v :: v in data && v !in left ==> min <= v
        decreases left
      {
        var v :| v in left;
        if v < min {
          min := v;
        }
        left := left - {v};
      }
      if contents != multiset{} && forall v :: v in contents ==> v <= limit {
        ghost var x :| x in contents;
        assert x in data;
      }
    }

    method GetMax() returns (max: nat)
      requires Valid()
      ensures contents == multiset{} ==> max == 0
      ensures contents != multiset{} ==> max in contents && forall v :: v in contents ==> v <= max
    {
      max := 0;
      var left := data.Keys;
      while left != {}
        invariant left <= data.Keys
        invariant max == 0 || max in data
        invariant forall v :: v in data && v !in left ==> v <= max
        decreases left
      {
        var v :| v in left;
        if v > max {
          max := v;
        }
        left := left - {v};
      }
      if contents != multiset{} {
        ghost var x :| x in contents;
        assert x in data;
      }
    }

    /** The sorted walk stops at the percentile of the sample list. For samples and a
        percentage in range the final throw is never reached. */
    method GetPercentile(p: real) returns (r: Result<nat, Error>)
      requires Valid()
      ensures p < 0.0 || p > 1.0 ==> r == Err(InvalidArgument)
      ensures 0.0 <= p <= 1.0 && contents == multiset{} ==> r == Err(Undefined)
      ensures 0.0 <= p <= 1.0 && contents != multiset{} ==> r.Ok? && IsPercentile(contents, p, r.value)
    {
      hide CountUpTo, IsPercentile, Counts, Walked, Share;
      if p < 0.0 || p > 1.0 {
        return Err(InvalidArgument);
      }
      var target := Share(samples, p);
      var cur := 0;
      var left := data.Keys;
      ghost var last: int := -1;
      FirstEntry(data, contents);
      while left != {}
        invariant Walked(data.Keys, left, last)
        invariant cur == CountUpTo(contents, last) && (cur == 0 || (cur as real) < target)
        decreases left
      {
        var v := Least(left);
        NextEntry(data, contents, left, last, v);
        cur := cur + data[v];
        if cur as real >= target {
          ShareIs(samples, p);
          FirstCountIsPercentile(contents, p, v);
          return Ok(v);
        }
        left := left - {v};
        last := v;
      }
      LastEntry(data, contents, last);
      AtMostAll(samples, p);
      return Err(Undefined);
    }

    /** The mean, term by term; the overflow exit is never taken, and no samples give 0. */
    method GetMean() returns (r: Result<real, Error>)
      requires Valid()
      ensures r == Ok(if contents == multiset{} then 0.0 else Mean(contents))
    {
      hide Total, Term, Counts;
      var sum := 0.0;
      var left := data.Keys;
      ghost var part: multiset<nat> := multiset{};
      TotalEmpty(Value);
      NoKeys(data, contents);
      while left != {}
        invariant left <= data.Keys && Part(data, data.Keys - left, part)
        invariant samples > 0 ==> sum == Total(part, Value) / samples as real
        invariant sum >= 0.0 && (samples == 0 ==> left == {} && sum == 0.0)
        decreases left
      {
        var v :| v in left;
        var bucketVal := Term(v, data[v], samples);
        MeanTerm(part, v, data[v], samples);
        if sum + bucketVal < 0.0 {
          return Err(Overflow);
        }
        sum := sum + bucketVal;
        NextPart(data, left, part, v);
        part := part[v := data[v]];
        left := left - {v};
      }
      if samples > 0 {
        WholePart(data, contents, part);
      }
      return Ok(sum);
    }

    /** The quantity under the square root of GetStandardDeviation: the mean squared
        deviation from the mean. Without samples it is 0/0. */
    method GetVariance() returns (r: Result<real, Error>)
      requires Valid()
      ensures contents == multiset{} ==> r == Err(NotANumber)
      ensures contents != multiset{} ==>
                r == Ok(Total(contents, Deviation(Mean(contents))) / |contents| as real)
    {
      hide Total, Mean;
      var m := GetMean();
      if samples == 0 {
        return Err(NotANumber);
      }
      var ssd := SumOfSquares(m.value);
      return Ok(ssd / samples as real);
    }

    method SumOfSquares(mean: real) returns (ssd: real)
      requires Valid()
      ensures ssd == Total(contents, Deviation(mean))
    {
      hide Total, Counts, Deviation;
      ssd := 0.0;
      var left := data.Keys;
      ghost var part: multiset<nat> := multiset{};
      TotalEmpty(Deviation(mean));
      while left != {}
        invariant left <= data.Keys && Part(data, data.Keys - left, part)
        invariant ssd == Total(part, Deviation(mean))
        decreases left
      {
        var v :| v in left;
        TotalEntry(part, v, data[v], Deviation(mean));
        ssd := ssd + SquareTerm(v, data[v], mean);
        NextPart(data, left, part, v);
        part := part[v := data[v]];
        left := left - {v};
      }
      WholePart(data, contents, part);
    }
  }

  /** One value's share of the mean. */
  function Term(v: nat, c: nat, n: nat): real
    requires n > 0
  {
    v as real * c as real / n as real
  }

  /** One value's share of the squared deviations. */
  function SquareTerm(v: nat, c: nat, mean: real): (r: real)
    ensures r == Times(c, Deviation(mean)(v))
  {
    var dev := v as real - mean;
    var sqdev := dev * dev;
    c as real * sqdev
  }

  /** The walk has passed exactly the keys up to `last`. */
  ghost predicate Walked(keys: set<nat>, left: set<nat>, last: int) {
    && left <= keys && last >= -1
    && (forall v :: v in keys ==> (v in left <==> v > last))
  }

  /** The smallest key, as the sorted table yields it. */
  method Least(keys: set<nat>) returns (v: nat)
    requires keys != {}
    ensures v in keys && forall w :: w in keys ==> v <= w
  {
    v :| v in keys;
    var left := keys - {v};
    while left != {}
      invariant left <= keys && v in keys && forall w :: w in keys && w !in left ==> v <= w
      decreases left
    {
      var w :| w in left;
      if w < v {
        v := w;
      }
      left := left - {w};
    }
  }

  lemma NextEntry(data: map<nat, nat>, m: multiset<nat>, left: set<nat>, last: int, v: nat)
    requires Counts(data, m) && Walked(data.Keys, left, last)
    requires v in left && forall w :: w in left ==> v <= w
    ensures v in m && v in data && CountUpTo(m, v) == CountUpTo(m, last) + data[v]
    ensures CountUpTo(m, v - 1) == CountUpTo(m, last)
    ensures Walked(data.Keys, left - {v}, v)
  {
    hide CountUpTo;
    CountStep(m, last, v);
    CountFlat(m, last, v - 1);
  }

  lemma FirstEntry(data: map<nat, nat>, m: multiset<nat>)
    requires Counts(data, m)
    ensures CountUpTo(m, -1) == 0 && Walked(data.Keys, data.Keys, -1)
  {
    hide CountUpTo;
    CountBounds(m, -1);
  }

  lemma LastEntry(data: map<nat, nat>, m: multiset<nat>, last: int)
    requires Counts(data, m) && Walked(data.Keys, {}, last)
    ensures CountUpTo(m, last) == |m|
  {
    hide CountUpTo;
    CountBounds(m, last);
  }

  lemma NothingMerged(other: map<nat, nat>, others: multiset<nat>, data: map<nat, nat>, m: multiset<nat>)
    requires Counts(data, m) && Counts(other, others)
    ensures forall v :: v in other ==> other[v] > 0
    ensures Part(other, {}, multiset{}) && Counts(data, m + multiset{})
  {
    assert m + multiset{} == m;
  }

  /** One turn of Merge moves one value's copies. */
  lemma MergeEntry(other: map<nat, nat>, done: set<nat>, added: multiset<nat>,
                   data: map<nat, nat>, m: multiset<nat>, v: nat)
    requires Part(other, done, added) && Counts(data, m + added) && v in other && v !in done && other[v] > 0
    ensures Part(other, done + {v}, added[v := other[v]])
    ensures Counts(data[v := (if v in data then data[v] else 0) + other[v]], m + added[v := other[v]])
  {
    assert (m + added[v := other[v]])[v] == (m + added)[v] + other[v];
  }

  lemma NoKeys(data: map<nat, nat>, m: multiset<nat>)
    requires Counts(data, m)
    ensures m == multiset{} ==> data.Keys == {}
  {
  }

  lemma NextPart(data: map<nat, nat>, left: set<nat>, part: multiset<nat>, v: nat)
    requires v in left && left <= data.Keys && Part(data, data.Keys - left, part)
    ensures v !in part && Part(data, data.Keys - (left - {v}), part[v := data[v]])
  {
  }

  lemma MeanTerm(part: multiset<nat>, v: nat, c: nat, n: nat)
    requires v !in part && n > 0
    ensures Total(part[v := c], Value) / n as real == Total(part, Value) / n as real + Term(v, c, n)
    ensures Term(v, c, n) >= 0.0
  {
    hide Total;
    TotalEntry(part, v, c, Value);
    DivSum(Total(part, Value), v as real * c as real, n as real);
    DivNonNegative(v as real, c as real, n as real);
  }

  lemma DivNonNegative(a: real, b: real, n: real)
    requires a >= 0.0 && b >= 0.0 && n > 0.0
    ensures a * b / n >= 0.0
  {
    assert a * b >= 0.0;
  }

  /** The table is determined by the samples, so a stream of samples gives the same table in
      any order, and split over any number of histograms that are merged. */
  lemma SameTable(a: map<nat, nat>, b: map<nat, nat>, m: multiset<nat>)
    requires Counts(a, m) && Counts(b, m)
    ensures a == b
  {
    assert a.Keys == b.Keys;
  }

  lemma WholePart(data: map<nat, nat>, m: multiset<nat>, part: multiset<nat>)
    requires Counts(data, m) && Part(data, data.Keys, part)
    ensures part == m
  {
  }
}
