/** TargetResults: the counters, histograms and bucketizers a thread keeps per target, and
    the summary the result formatter makes of them. */
module TargetResults {
  import Arithmetic
  import opened Samples
  import opened Tally
  import H = Histogram
  import B = IoBucketizer

  class TargetResults {
    var iops: nat
    var bytes: nat
    var readIops: nat
    var readBytes: nat
    var writeIops: nat
    var writeBytes: nat
    const readLatency: H.Histogram
    const writeLatency: H.Histogram
    const readBuckets: B.IoBucketizer
    const writeBuckets: B.IoBucketizer

    ghost function Repr(): set<object> {
      {this, readLatency, writeLatency, readBuckets, writeBuckets}
    }

    /** The objects stand for the plain lists of `r`: nothing is lost by keeping counts. */
    ghost predicate Holds(r: Results, m: Measure, d: nat)
      reads Repr()
    {
      && readLatency != writeLatency && readBuckets != writeBuckets
      && iops == r.iops && bytes == r.bytes
      && readIops == r.read.iops && readBytes == r.read.bytes
      && writeIops == r.write.iops && writeBytes == r.write.bytes
      && SideHolds(r.read, readLatency, readBuckets, m, d)
      && SideHolds(r.write, writeLatency, writeBuckets, m, d)
    }

    /** `bucketMs` and `validBuckets` are what thread_func passes to Initialize. */
    constructor (m: Measure, bucketMs: nat, validBuckets: nat)
      requires bucketMs != B.INVALID_BUCKET_DURATION
      ensures Holds(EMPTY, m, bucketMs) && fresh(Repr())
      ensures m.iopsStdDev ==> readBuckets.validBuckets == writeBuckets.validBuckets == validBuckets
    {
      iops, bytes, readIops, readBytes, writeIops, writeBytes := 0, 0, 0, 0, 0, 0;
      var readHistogram, readBucketizer := NewSide(m, bucketMs, validBuckets);
      var writeHistogram, writeBucketizer := NewSide(m, bucketMs, validBuckets);
      readLatency, readBuckets := readHistogram, readBucketizer;
      writeLatency, writeBuckets := writeHistogram, writeBucketizer;
    }

    /** The structures of one side. The bucketizer gets its duration only if it is going to
        be used. */
    static method NewSide(m: Measure, bucketMs: nat, validBuckets: nat)
      returns (h: H.Histogram, b: B.IoBucketizer)
      requires bucketMs != B.INVALID_BUCKET_DURATION
      ensures fresh(h) && fresh(b) && SideHolds(EMPTY_SIDE, h, b, m, bucketMs)
      ensures m.iopsStdDev ==> b.validBuckets == validBuckets
    {
      h := new H.Histogram();
      b := new B.IoBucketizer();
      if m.iopsStdDev {
        b.Initialize(bucketMs, validBuckets);
      }
    }

    /** Lines 269-306 of thread.cc. */
    method RecordOp(ghost r: Results, m: Measure, d: nat, kind: Kind, ret: nat, sinceStartUs: nat, opTimeUs: nat)
      requires Holds(r, m, d)
      modifies Repr()
      ensures Holds(Record(r, m, kind, ret, sinceStartUs, opTimeUs), m, d)
      ensures readBuckets.validBuckets == old(readBuckets.validBuckets)
      ensures writeBuckets.validBuckets == old(writeBuckets.validBuckets)
    {
      hide SideHolds;
      bytes := bytes + ret;
      iops := iops + 1;
      if kind.Read? {
        readIops := readIops + 1;
        readBytes := readBytes + ret;
        RecordSide(r.read, readLatency, readBuckets, m, d, ret, sinceStartUs, opTimeUs);
      } else {
        writeIops := writeIops + 1;
        writeBytes := writeBytes + ret;
        RecordSide(r.write, writeLatency, writeBuckets, m, d, ret, sinceStartUs, opTimeUs);
      }
    }

    static method RecordSide(ghost s: Side, h: H.Histogram, b: B.IoBucketizer,
                             m: Measure, d: nat, ret: nat, sinceStartUs: nat, opTimeUs: nat)
      requires SideHolds(s, h, b, m, d)
      modifies h, b
      ensures SideHolds(AddSide(s, m, ret, sinceStartUs, opTimeUs), h, b, m, d)
      ensures b.validBuckets == old(b.validBuckets)
    {
      if m.iopsStdDev {
        b.Add(sinceStartUs / 1000);
      }
      if m.latency {
        h.Add(opTimeUs);
      }
    }
  }

  ghost predicate SideHolds(s: Side, h: H.Histogram, b: B.IoBucketizer, m: Measure, d: nat)
    reads h, b
  {
    && h.Valid() && h.contents == multiset(s.latencies)
    && d > 0 && b.Valid(d) && b.times == multiset(s.times)
    && (m.iopsStdDev ==> b.bucketDuration == d)
  }

  /** Recording conserves: with both measurements on, the sample size of the histogram and
      the sum of all buckets are both the number of operations recorded. */
  lemma SideAgrees(s: Side, h: H.Histogram, b: B.IoBucketizer, m: Measure, d: nat, block: nat)
    requires SideHolds(s, h, b, m, d) && SideConserved(s, m, block)
    ensures m.latency ==> h.samples == s.iops
    ensures m.iopsStdDev ==> Total(multiset(b.buckets), Value) == s.iops as real
  {
    hide Total, B.Table;
    B.AllBucketsHold(b.buckets, b.times, d);
  }

  /** What a stamp older than the start does to the buckets: the difference wraps around, so
      the operation counts in no valid bucket, and the vector grows to hold its number. */
  lemma EarlySample(b: seq<nat>, times: multiset<nat>, bucketMs: nat, duration: nat, stampUs: nat, startUs: nat)
    requires B.Table(b, times, bucketMs) && SinceStart(stampUs, startUs) / 1000 in times
    requires bucketMs < 0x1_0000_0000 && stampUs < startUs <= stampUs + 0x8000_0000_0000_0000
    ensures B.ValidBucketCount(duration, bucketMs) <= SinceStart(stampUs, startUs) / 1000 / bucketMs < |b|
    ensures |b| > 9_223_372_036_854_775 / bucketMs
  {
    var t := SinceStart(stampUs, startUs) / 1000;
    assert t >= 9_223_372_036_854_775;
    var w := (duration * 1000) % 0x1_0000_0000;
    B.CeilingOfQuotient(w, bucketMs);
    B.DivBeyond(t, w, bucketMs);
    DivMonotone(9_223_372_036_854_775, t, bucketMs);
  }

  lemma DivMonotone(a: nat, b: nat, d: nat)
    requires a <= b && d > 0
    ensures a / d <= b / d
  {
    Arithmetic.DivFits(a / d, a, d);
    Arithmetic.DivFits(a / d, b, d);
  }

  // ---- the latency table of the result formatter ----------------------------------------

  /** The latency histograms of one (thread, target) result. */
  datatype Latencies = Latencies(read: multiset<nat>, write: multiset<nat>)

  ghost function Reads(l: seq<Latencies>): multiset<nat> {
    if l == [] then multiset{} else Reads(l[..|l| - 1]) + l[|l| - 1].read
  }

  ghost function Writes(l: seq<Latencies>): multiset<nat> {
    if l == [] then multiset{} else Writes(l[..|l| - 1]) + l[|l| - 1].write
  }

  /** What the total histogram receives: after each result the running read and write
      histograms are merged into it once more. */
  ghost function RunningTotal(l: seq<Latencies>): multiset<nat> {
    if l == [] then multiset{} else RunningTotal(l[..|l| - 1]) + Reads(l) + Writes(l)
  }

  predicate NoSamples(l: Latencies) {
    l.read == multiset{} == l.write
  }

  lemma {:induction false} NothingUpTo(l: seq<Latencies>)
    ensures Reads(l) + Writes(l) == multiset{} <==> forall i :: 0 <= i < |l| ==> NoSamples(l[i])
    ensures Reads(l) + Writes(l) == multiset{} ==> RunningTotal(l) == multiset{}
    ensures |RunningTotal(l)| >= |Reads(l)| + |Writes(l)|
    decreases |l|
  {
    if l == [] {
    } else {
      var front, last := l[..|l| - 1], l[|l| - 1];
      NothingUpTo(front);
      assert |Reads(l) + Writes(l)| == |Reads(front)| + |last.read| + |Writes(front)| + |last.write|;
      assert forall i :: 0 <= i < |front| ==> l[i] == front[i];
    }
  }

  /** The column headed Total is made from all reads and writes exactly when no result but
      the last has a latency sample; otherwise earlier samples are counted again. */
  lemma TotalColumn(l: seq<Latencies>)
    ensures RunningTotal(l) == Reads(l) + Writes(l)
       <==> forall i :: 0 <= i < |l| - 1 ==> NoSamples(l[i])
  {
    if l != [] {
      var front := l[..|l| - 1];
      NothingUpTo(front);
      assert RunningTotal(l) == RunningTotal(front) + Reads(l) + Writes(l);
      assert |RunningTotal(l)| == |RunningTotal(front)| + |Reads(l) + Writes(l)|;
      assert forall i :: 0 <= i < |l| - 1 ==> l[i] == front[i];
    }
  }

  /** One turn of the loop over the results. */
  method MergeResult(from: H.Histogram, fromWrite: H.Histogram, read: H.Histogram, write: H.Histogram,
                     total: H.Histogram, ghost l: seq<Latencies>)
    requires l != [] && Stored(from, fromWrite, l[|l| - 1])
    requires Summed(read, write, total, l[..|l| - 1])
    requires {from, fromWrite} !! {read, write, total}
    modifies read, write, total
    ensures Summed(read, write, total, l)
  {
    hide H.Counts;
    read.Merge(from);
    write.Merge(fromWrite);
    total.Merge(read);
    total.Merge(write);
  }

  ghost predicate Summed(read: H.Histogram, write: H.Histogram, total: H.Histogram, l: seq<Latencies>)
    reads read, write, total
  {
    && read != write && write != total && total != read
    && read.Valid() && write.Valid() && total.Valid()
    && read.contents == Reads(l) && write.contents == Writes(l) && total.contents == RunningTotal(l)
  }

  method NothingSummed() returns (read: H.Histogram, write: H.Histogram, total: H.Histogram)
    ensures fresh({read, write, total}) && Summed(read, write, total, [])
  {
    read := new H.Histogram();
    write := new H.Histogram();
    total := new H.Histogram();
  }

  /** Lines 146-158 of result_formatter.cc. */
  method Summarise(readHists: seq<H.Histogram>, writeHists: seq<H.Histogram>, ghost l: seq<Latencies>)
    returns (read: H.Histogram, write: H.Histogram, total: H.Histogram)
    requires |readHists| == |writeHists| == |l|
    requires forall k :: 0 <= k < |l| ==> Stored(readHists[k], writeHists[k], l[k])
    ensures Summed(read, write, total, l)
  {
    hide *;
    read, write, total := NothingSummed();
    var k := 0;
    assert l[..0] == [];
    while k < |readHists|
      invariant 0 <= k <= |readHists| && fresh({read, write, total})
      invariant Summed(read, write, total, l[..k])
      invariant forall j :: 0 <= j < |l| ==> Stored(readHists[j], writeHists[j], l[j])
      modifies read, write, total
    {
      assert l[..k + 1][..k] == l[..k];
      MergeResult(readHists[k], writeHists[k], read, write, total, l[..k + 1]);
      k := k + 1;
    }
    assert l[..k] == l;
  }

  ghost predicate Stored(read: H.Histogram, write: H.Histogram, l: Latencies)
    reads read, write
  {
    read.Valid() && write.Valid() && read.contents == l.read && write.contents == l.write
  }
}
