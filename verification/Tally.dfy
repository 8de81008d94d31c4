/** What a thread records for one target (TargetResults), as a value: the counters, and the
    samples in the order in which the histograms and bucketizers received them. */
module Tally {

  datatype Kind = Read | Write

  /** The two measurement switches of JobOptions. */
  datatype Measure = Measure(latency: bool, iopsStdDev: bool)

  datatype Side = Side(iops: nat, bytes: nat, latencies: seq<nat>, times: seq<nat>)

  datatype Results = Results(iops: nat, bytes: nat, read: Side, write: Side)

  const EMPTY_SIDE := Side(0, 0, [], [])
  const EMPTY := Results(0, 0, EMPTY_SIDE, EMPTY_SIDE)

  function AddSide(s: Side, m: Measure, ret: nat, sinceStartUs: nat, opTimeUs: nat): Side {
    Side(s.iops + 1, s.bytes + ret,
         if m.latency then s.latencies + [opTimeUs] else s.latencies,
         if m.iopsStdDev then s.times + [sinceStartUs / 1000] else s.times)
  }

  /** Lines 263-306 of thread.cc for one completed op. */
  function Record(r: Results, m: Measure, kind: Kind, ret: nat, sinceStartUs: nat, opTimeUs: nat): Results {
    var s := r.(iops := r.iops + 1, bytes := r.bytes + ret);
    if kind.Read? then s.(read := AddSide(r.read, m, ret, sinceStartUs, opTimeUs))
    else s.(write := AddSide(r.write, m, ret, sinceStartUs, opTimeUs))
  }

  /** since_start_us and since_start_ms, differences of unsigned 64-bit clock readings: a
      reading older than the start wraps around. */
  function SinceStart(now: nat, start: nat): nat {
    if now >= start then now - start else (now - start) % 0x1_0000_0000_0000_0000
  }

  /** From the start on it advances one for one with the clock. */
  lemma SinceStartAdvances(start: nat, d: nat)
    ensures SinceStart(start + d, start) == d
  {
  }

  predicate SideConserved(s: Side, m: Measure, block: nat) {
    && s.bytes == block * s.iops
    && |s.latencies| == (if m.latency then s.iops else 0)
    && |s.times| == (if m.iopsStdDev then s.iops else 0)
  }

  /** Totals are read plus write, bytes are blocks, and each op left one sample in each
      structure that is switched on. */
  predicate Conserved(r: Results, m: Measure, block: nat) {
    && r.iops == r.read.iops + r.write.iops
    && r.bytes == r.read.bytes + r.write.bytes
    && SideConserved(r.read, m, block) && SideConserved(r.write, m, block)
  }

  lemma RecordConserves(r: Results, m: Measure, kind: Kind, block: nat, sinceStartUs: nat, opTimeUs: nat)
    requires Conserved(r, m, block)
    ensures Conserved(Record(r, m, kind, block, sinceStartUs, opTimeUs), m, block)
    ensures Record(r, m, kind, block, sinceStartUs, opTimeUs).bytes == r.bytes + block
    ensures var x := Record(r, m, kind, block, sinceStartUs, opTimeUs);
      if kind == Read then x.read.iops == r.read.iops + 1 && x.write == r.write
      else x.write.iops == r.write.iops + 1 && x.read == r.read
  {
    assert block * (r.read.iops + 1) == block * r.read.iops + block;
    assert block * (r.write.iops + 1) == block * r.write.iops + block;
  }

  function Sum(s: seq<nat>): nat {
    if s == [] then 0 else Sum(s[..|s| - 1]) + s[|s| - 1]
  }

  /** All latency samples of a target, added up. */
  function TotalLatency(r: Results): nat {
    Sum(r.read.latencies) + Sum(r.write.latencies)
  }

  lemma RecordTotal(r: Results, m: Measure, kind: Kind, ret: nat, sinceStartUs: nat, opTimeUs: nat)
    ensures TotalLatency(Record(r, m, kind, ret, sinceStartUs, opTimeUs))
         == TotalLatency(r) + if m.latency then opTimeUs else 0
  {
    assert (r.read.latencies + [opTimeUs])[..|r.read.latencies|] == r.read.latencies;
    assert (r.write.latencies + [opTimeUs])[..|r.write.latencies|] == r.write.latencies;
  }
}
