/** job.cc: the checks before a job runs, and the distribution of targets over threads. */
module Job {
  import opened Arithmetic
  import opened Bits
  import opened Target
  import opened Profile
  import AsyncIo
  import W = Worker
  import S = System
  import T = Tally

  /** Target::sector_size keeps its default. */
  const SECTOR_SIZE: nat := 512

  function NoThreads(j: JobOptions, t: TargetFile): nat {
    if j.useTotalThreads then j.totalThreads else t.threadsPerTarget
  }

  /** Unsigned subtraction: no threads at all count as 2^32 - 1 gaps. */
  function Gaps(threads: nat): nat {
    (threads - 1) % TWO_32
  }

  /** What the two checks of run_job mean for one target. */
  ghost predicate TargetChecked(j: JobOptions, t: TargetFile) {
    && (t.direct ==> SectorAligned(t.c, SECTOR_SIZE))
    && t.c.baseOffset + Gaps(NoThreads(j, t)) * t.c.threadOffset + t.c.blockSize <= t.c.maxSize
  }

  /** The same in the user's terms: under O_DIRECT block size, stride and thread offset are whole
      sectors, and every thread's first block fits. Without threads the source asks for room
      for 2^32 - 1 thread offsets. */
  ghost predicate Fits(j: JobOptions, t: TargetFile) {
    && (t.direct ==> t.c.blockSize % 512 == 0 && t.c.stride % 512 == 0 && t.c.threadOffset % 512 == 0)
    && (forall rel: nat :: rel < NoThreads(j, t) ==> StartFits(t, rel))
    && (NoThreads(j, t) == 0 ==> StartFits(t, 4_294_967_295))
  }

  predicate StartFits(t: TargetFile, rel: nat) {
    t.c.baseOffset + rel * t.c.threadOffset + t.c.blockSize <= t.c.maxSize
  }

  /** The check of the last thread's start is a check of all of them, no more and no less. */
  lemma CheckedExactly(j: JobOptions, t: TargetFile)
    requires Placed(t) && NoThreads(j, t) <= TWO_32
    ensures TargetChecked(j, t) <==> Fits(j, t)
  {
    var n := NoThreads(j, t);
    if n == 0 {
      assert Gaps(n) == 4_294_967_295;
    } else {
      assert Gaps(n) == n - 1;
      if StartFits(t, n - 1) {
        forall rel: nat | rel < n ensures StartFits(t, rel) {
          MulMono(rel, n - 1, t.c.threadOffset);
        }
      }
    }
  }

  lemma SectorMask(x: nat)
    ensures And(x, SECTOR_SIZE - 1) == x % SECTOR_SIZE
  {
    assert Pow2(9) == 512 by {
      assert Pow2(4) == 16;
      assert Pow2(9) == 2 * Pow2(8) == 4 * Pow2(7) == 8 * Pow2(6) == 16 * Pow2(5);
    }
    LowMask(x, 9);
  }

  /** Lines 67-102, without the creation of files. */
  method CheckTargets(j: JobOptions) returns (ok: bool)
    requires forall i :: 0 <= i < |j.targets| ==> Placed(j.targets[i])
    ensures ok <==> forall i :: 0 <= i < |j.targets| ==> TargetChecked(j, j.targets[i])
    ensures (forall i :: 0 <= i < |j.targets| ==> NoThreads(j, j.targets[i]) <= TWO_32) ==>
              (ok <==> forall i :: 0 <= i < |j.targets| ==> Fits(j, j.targets[i]))
  {
    AllCheckedExactly(j);
    hide TargetChecked, Placed, Fits;
    var i := 0;
    while i < |j.targets|
      invariant 0 <= i <= |j.targets| && forall k :: 0 <= k < i ==> TargetChecked(j, j.targets[k])
    {
      ok := CheckTarget(j, j.targets[i]);
      if !ok {
        return;
      }
      i := i + 1;
    }
    return true;
  }

  lemma AllCheckedExactly(j: JobOptions)
    requires forall i :: 0 <= i < |j.targets| ==> Placed(j.targets[i])
    ensures forall i :: 0 <= i < |j.targets| && NoThreads(j, j.targets[i]) <= TWO_32 ==>
              (TargetChecked(j, j.targets[i]) <==> Fits(j, j.targets[i]))
  {
    hide TargetChecked, Placed, Fits;
    forall i | 0 <= i < |j.targets| && NoThreads(j, j.targets[i]) <= TWO_32
      ensures TargetChecked(j, j.targets[i]) <==> Fits(j, j.targets[i])
    {
      CheckedExactly(j, j.targets[i]);
    }
  }

  method CheckTarget(j: JobOptions, t: TargetFile) returns (ok: bool)
    requires Placed(t)
    ensures ok <==> TargetChecked(j, t)
  {
    hide And, Gaps;
    SectorMask(t.c.blockSize);
    SectorMask(t.c.stride);
    SectorMask(t.c.threadOffset);
    if t.direct && (And(t.c.blockSize, SECTOR_SIZE - 1) != 0
                    || And(t.c.stride, SECTOR_SIZE - 1) != 0
                    || And(t.c.threadOffset, SECTOR_SIZE - 1) != 0) {
      return false;
    }
    var noThreads := if j.useTotalThreads then j.totalThreads else t.threadsPerTarget;
    var maxOffset := t.c.maxSize - t.c.baseOffset - t.c.blockSize;
    return maxOffset >= t.c.threadOffset * Gaps(noThreads);
  }

  /** The checks give every relative id below the thread count its place in the file. */
  lemma CheckedForEveryThread(j: JobOptions, t: TargetFile, rel: nat)
    requires Placed(t) && TargetChecked(j, t) && rel < NoThreads(j, t) < TWO_32
    ensures Checked(t.c, rel)
  {
    MulMono(rel, Gaps(NoThreads(j, t)), t.c.threadOffset);
  }

  // ---- distributing the targets --------------------------------------------------------

  /** The view of target number `x` that the thread with relative id `rel` gets. */
  function View(j: JobOptions, x: nat, rel: nat): W.TargetView
    requires x < |j.targets|
  {
    var t := j.targets[x];
    W.TargetView(t.c, t.overlap, rel, t.writePercentage, t.maxThroughput, x)
  }

  function NewThread(o: W.Options): W.Thread {
    W.Thread(o, [], W.Starting(0), AsyncIo.Group([], {}), map[], 0, [])
  }

  function WithTarget(w: W.Thread, v: W.TargetView): W.Thread {
    w.(targets := w.targets + [v], results := w.results + [T.EMPTY])
  }

  /** The first thread that works on target `x` when each thread has one target. */
  function FirstThread(j: JobOptions, x: nat): nat
    requires x <= |j.targets|
  {
    ThreadsOf(j.targets[..x])
  }

  /** The thread that gets target `x` in turn `i` of its loop. */
  function ThreadFor(j: JobOptions, x: nat, i: nat): nat
    requires x < |j.targets|
  {
    if j.useTotalThreads then i else FirstThread(j, x) + i
  }

  lemma {:induction false} FirstThreadStep(j: JobOptions, x: nat)
    requires x < |j.targets|
    ensures FirstThread(j, x + 1) == FirstThread(j, x) + j.targets[x].threadsPerTarget
    ensures FirstThread(j, x + 1) <= ThreadsOf(j.targets)
    decreases |j.targets| - x
  {
    assert j.targets[..x + 1][..x] == j.targets[..x];
    if x + 1 < |j.targets| {
      FirstThreadStep(j, x + 1);
    } else {
      assert j.targets[..x + 1] == j.targets;
    }
  }

  predicate ThreadCountOk(j: JobOptions) {
    !j.useTotalThreads ==> j.totalThreads == ThreadsOf(j.targets)
  }

  /** Every view on a thread is a view of its target for a relative id below the number of
      threads working on it. */
  ghost predicate Assigned(j: JobOptions, w: W.Thread) {
    && W.Init(w)
    && forall v :: v in w.targets ==>
         v.shared < |j.targets| && v == View(j, v.shared, v.rel) && v.rel < NoThreads(j, j.targets[v.shared])
  }

  lemma AssignedMore(j: JobOptions, w: W.Thread, x: nat, rel: nat)
    requires Assigned(j, w) && x < |j.targets| && rel < NoThreads(j, j.targets[x])
    requires j.targets[x].c.blockSize >= 0
    ensures Assigned(j, WithTarget(w, View(j, x, rel)))
  {
    var r := WithTarget(w, View(j, x, rel));
    forall v | v in r.targets
      ensures v.shared < |j.targets| && v == View(j, v.shared, v.rel) && v.rel < NoThreads(j, j.targets[v.shared])
    {
      assert v in w.targets || v == View(j, x, rel);
    }
  }

  lemma {:induction false} OverlapsUpdate(threads: seq<W.Thread>, k: nat, v: W.TargetView)
    requires k < |threads|
    ensures S.AllOverlaps(threads[k := WithTarget(threads[k], v)]) == S.AllOverlaps(threads) + v.overlap
    decreases |threads|
  {
    var n := |threads| - 1;
    var r := threads[k := WithTarget(threads[k], v)];
    if k == n {
      assert r[..n] == threads[..n];
      assert (threads[k].targets + [v])[..|threads[k].targets|] == threads[k].targets;
    } else {
      assert r[..n] == threads[..n][k := WithTarget(threads[k], v)];
      OverlapsUpdate(threads[..n], k, v);
    }
  }

  lemma {:induction false} NoOverlaps(threads: seq<W.Thread>)
    requires forall k :: 0 <= k < |threads| ==> threads[k].targets == []
    ensures S.AllOverlaps(threads) == 0
    decreases |threads|
  {
    if threads == [] {
    } else {
      NoOverlaps(threads[..|threads| - 1]);
    }
  }

  class Assignment {
    const j: JobOptions
    var threads: seq<W.Thread>
    var totalOverlap: nat
    var index: nat

    /** Lines 192-225: one thread per count, none with a target yet. */
    constructor (j: JobOptions, o: W.Options)
      ensures this.j == j && Valid() && index == 0 && Served(j, 0, threads)
    {
      this.j := j;
      threads := seq(j.totalThreads, _ => NewThread(o));
      totalOverlap, index := 0, 0;
      new;
      NoOverlaps(threads);
    }

    ghost predicate Valid()
      reads this
    {
      && |threads| == j.totalThreads
      && (forall k :: 0 <= k < |threads| ==> Assigned(j, threads[k]))
      && totalOverlap == S.AllOverlaps(threads)
    }

    /** Lines 240-273: one turn of the inner loop. */
    method AssignOne(x: nat, innerIndex: nat)
      requires Valid() && x < |j.targets| && innerIndex < NoThreads(j, j.targets[x])
      requires j.targets[x].c.blockSize >= 0
      requires (if j.useTotalThreads then innerIndex else index) < |threads|
      modifies this
      ensures Valid() && index == old(index) + if j.useTotalThreads then 0 else 1
      ensures var k := if j.useTotalThreads then innerIndex else old(index);
        threads == old(threads)[k := WithTarget(old(threads)[k], View(j, x, innerIndex))]
    {
      totalOverlap := totalOverlap + j.targets[x].overlap;
      var k := innerIndex;
      if !j.useTotalThreads {
        k := index;
        index := index + 1;
      }
      AssignedMore(j, threads[k], x, innerIndex);
      OverlapsUpdate(threads, k, View(j, x, innerIndex));
      threads := threads[k := WithTarget(threads[k], View(j, x, innerIndex))];
    }

    /** Lines 229-280 for one target. */
    method AssignTarget(x: nat)
      requires Valid() && ThreadCountOk(j) && x < |j.targets| && j.targets[x].c.blockSize >= 0
      requires !j.useTotalThreads ==> index == FirstThread(j, x)
      modifies this
      ensures Valid() && (!j.useTotalThreads ==> index == FirstThread(j, x + 1))
      ensures Added(j, x, old(threads), threads)
    {
      hide Dealt, Valid, S.AllOverlaps;
      FirstThreadStep(j, x);
      var innerIndex := 0;
      DealNone(j, x, threads);
      while innerIndex < NoThreads(j, j.targets[x])
        invariant Valid() && innerIndex <= NoThreads(j, j.targets[x])
        invariant !j.useTotalThreads ==> index == FirstThread(j, x) + innerIndex
        invariant Dealt(j, x, innerIndex, old(threads), threads)
      {
        ThreadCount();
        DealOne(j, x, innerIndex, old(threads), threads);
        AssignOne(x, innerIndex);
        innerIndex := innerIndex + 1;
      }
      DealAll(j, x, old(threads), threads);
    }

    lemma ThreadCount()
      requires Valid()
      ensures |threads| == j.totalThreads
    {
    }

    /** Lines 227-281. */
    method AssignAll()
      requires Valid() && ThreadCountOk(j) && index == 0 && Served(j, 0, threads)
      requires forall x :: 0 <= x < |j.targets| ==> j.targets[x].c.blockSize >= 0
      modifies this
      ensures Valid() && Served(j, |j.targets|, threads)
    {
      hide *;
      var x := 0;
      NoneBefore(j);
      while x < |j.targets|
        invariant Valid() && x <= |j.targets| && (!j.useTotalThreads ==> index == FirstThread(j, x))
        invariant Served(j, x, threads)
      {
        ghost var before := threads;
        AssignTarget(x);
        ServeNext(j, x, before, threads);
        x := x + 1;
      }
    }
  }

  /** In which turn of target `x`'s loop thread `k` is served; negative or too large if never. */
  function Turn(j: JobOptions, x: nat, k: nat): int
    requires x < |j.targets|
  {
    if j.useTotalThreads then k else k - FirstThread(j, x)
  }

  /** What thread `k` gets of target `x`. */
  function Share(j: JobOptions, x: nat, k: nat): seq<W.TargetView>
    requires x < |j.targets|
  {
    if 0 <= Turn(j, x, k) < NoThreads(j, j.targets[x]) then [View(j, x, Turn(j, x, k))] else []
  }

  /** After `n` turns of target `x`'s loop. */
  ghost predicate Dealt(j: JobOptions, x: nat, n: nat, before: seq<W.Thread>, after: seq<W.Thread>)
    requires x < |j.targets|
  {
    && |after| == |before|
    && forall k :: 0 <= k < |after| ==>
         after[k].targets == before[k].targets + if Turn(j, x, k) < n then Share(j, x, k) else []
  }

  lemma DealNone(j: JobOptions, x: nat, before: seq<W.Thread>)
    requires x < |j.targets|
    ensures Dealt(j, x, 0, before, before)
  {
  }

  lemma DealOne(j: JobOptions, x: nat, n: nat, before: seq<W.Thread>, after: seq<W.Thread>)
    requires x < |j.targets| && Dealt(j, x, n, before, after) && n < NoThreads(j, j.targets[x])
    requires ThreadFor(j, x, n) < |after|
    ensures var k := ThreadFor(j, x, n);
      Dealt(j, x, n + 1, before, after[k := WithTarget(after[k], View(j, x, n))])
  {
    var m := ThreadFor(j, x, n);
    var r := after[m := WithTarget(after[m], View(j, x, n))];
    assert forall k: nat :: Turn(j, x, k) == n <==> k == m;
    forall k | 0 <= k < |r|
      ensures r[k].targets == before[k].targets + if Turn(j, x, k) < n + 1 then Share(j, x, k) else []
    {
      if k == m {
        assert Share(j, x, k) == [View(j, x, n)];
      }
    }
  }

  lemma DealAll(j: JobOptions, x: nat, before: seq<W.Thread>, after: seq<W.Thread>)
    requires x < |j.targets| && Dealt(j, x, NoThreads(j, j.targets[x]), before, after)
    ensures Added(j, x, before, after)
  {
  }

  /** Target `x` has been given out: each thread has got its share of it. */
  ghost predicate Added(j: JobOptions, x: nat, before: seq<W.Thread>, after: seq<W.Thread>)
    requires x < |j.targets|
  {
    |after| == |before| && forall k :: 0 <= k < |after| ==> after[k].targets == before[k].targets + Share(j, x, k)
  }

  /** Each thread has its shares of the first `n` targets, in the order of the targets. */
  ghost predicate Served(j: JobOptions, n: nat, threads: seq<W.Thread>)
    requires n <= |j.targets|
  {
    forall k :: 0 <= k < |threads| ==> threads[k].targets == Shares(j, n, k)
  }

  lemma ServeNext(j: JobOptions, x: nat, before: seq<W.Thread>, after: seq<W.Thread>)
    requires x < |j.targets| && Served(j, x, before) && Added(j, x, before, after)
    ensures Served(j, x + 1, after)
  {
  }

  lemma NoneBefore(j: JobOptions)
    ensures FirstThread(j, 0) == 0
  {
  }

  function Shares(j: JobOptions, n: nat, k: nat): seq<W.TargetView>
    requires n <= |j.targets|
  {
    if n == 0 then [] else Shares(j, n - 1, k) + Share(j, n - 1, k)
  }

  /** With -F thread `k` works on every target, in order, as relative thread `k`. */
  lemma {:induction false} SharesOfAll(j: JobOptions, n: nat, k: nat)
    requires j.useTotalThreads && k < j.totalThreads && n <= |j.targets|
    ensures |Shares(j, n, k)| == n
    ensures forall x :: 0 <= x < n ==> Shares(j, n, k)[x] == View(j, x, k)
    decreases n
  {
    if n == 0 {
    } else {
      SharesOfAll(j, n - 1, k);
    }
  }

  /** With -t thread `k` works on exactly one target, the one whose group of consecutive
      threads `k` falls in, as relative thread number within that group. */
  lemma {:induction false} SharesOfOne(j: JobOptions, n: nat, k: nat)
    requires !j.useTotalThreads && n <= |j.targets|
    ensures k >= FirstThread(j, n) ==> Shares(j, n, k) == []
    ensures k < FirstThread(j, n) ==> HasOneOf(j, n, k)
    decreases n
  {
    if n == 0 {
    } else {
      SharesOfOne(j, n - 1, k);
      FirstThreadStep(j, n - 1);
      NextShare(j, n - 1, k);
    }
  }

  /** Thread `k` has exactly one target, one of the first `n`, in whose group it falls. */
  ghost predicate HasOneOf(j: JobOptions, n: nat, k: nat)
    requires n <= |j.targets|
  {
    exists x: nat :: InGroup(j, n, x, k) && Shares(j, n, k) == [View(j, x, k - FirstThread(j, x))]
  }

  lemma NextShare(j: JobOptions, n: nat, k: nat)
    requires !j.useTotalThreads && n < |j.targets|
    requires FirstThread(j, n + 1) == FirstThread(j, n) + j.targets[n].threadsPerTarget
    requires if k >= FirstThread(j, n) then Shares(j, n, k) == [] else HasOneOf(j, n, k)
    ensures k >= FirstThread(j, n + 1) ==> Shares(j, n + 1, k) == []
    ensures k < FirstThread(j, n + 1) ==> HasOneOf(j, n + 1, k)
  {
    hide FirstThread, View;
    if FirstThread(j, n) <= k < FirstThread(j, n + 1) {
      assert Share(j, n, k) == [View(j, n, k - FirstThread(j, n))];
      assert InGroup(j, n + 1, n, k);
    } else {
      assert Share(j, n, k) == [];
      if k < FirstThread(j, n) {
        var x: nat :| InGroup(j, n, x, k) && Shares(j, n, k) == [View(j, x, k - FirstThread(j, x))];
        assert InGroup(j, n + 1, x, k);
      }
    }
  }

  predicate InGroup(j: JobOptions, n: nat, x: nat, k: nat)
    requires n <= |j.targets|
  {
    x < n && FirstThread(j, x) <= k < FirstThread(j, x + 1)
  }

  // ---- from the command line to the run ------------------------------------------------

  /** The system the threads start from: each Target with its interlocked offset. */
  function StartState(j: JobOptions, threads: seq<W.Thread>): S.Sys {
    S.Sys(seq(|j.targets|, x requires 0 <= x < |j.targets| =>
      S.Shared(j.targets[x].c, j.targets[x].interlockedOffset, 0)), threads)
  }

  /** Assigned views of checked targets are what the offset proofs ask for. */
  lemma StartStateOk(j: JobOptions, threads: seq<W.Thread>)
    requires forall x :: 0 <= x < |j.targets| ==>
               Placed(j.targets[x]) && TargetChecked(j, j.targets[x]) && NoThreads(j, j.targets[x]) < TWO_32
    requires forall k :: 0 <= k < |threads| ==> Assigned(j, threads[k])
    ensures S.Init(StartState(j, threads)) && S.Configured(StartState(j, threads))
  {
    var s := StartState(j, threads);
    forall k, t | 0 <= k < |s.threads| && 0 <= t < |s.threads[k].targets|
      ensures S.ViewOk(s, s.threads[k].targets[t])
    {
      assert Assigned(j, threads[k]);
      var v := s.threads[k].targets[t];
      assert v in threads[k].targets;
      CheckedForEveryThread(j, j.targets[v.shared], v.rel);
    }
    forall x | 0 <= x < |s.shared|
      ensures s.shared[x].draws == 0
      ensures s.shared[x].c.useInterlocked ==> s.shared[x].interlockedOffset == s.shared[x].c.baseOffset
    {
      assert Placed(j.targets[x]);
    }
  }

  datatype Prepared = Ready(j: JobOptions, s: S.Sys, totalOverlap: nat) | NotRun

  /** From options and files to the state in which the threads are created. It is reached
      exactly when the options are accepted and the checks hold; the I/O manager is started
      with as many operations as all threads together keep in flight. */
  method Prepare(settings: Settings, files: seq<File>, o: W.Options) returns (r: Prepared)
    requires Parsed(settings) && forall i :: 0 <= i < |files| ==> FitsOffT(files[i])
    ensures r.Ready? ==>
              && Accepts(settings, files) && JobOk(settings, files, r.j) && ThreadCountOk(r.j)
              && (forall i :: 0 <= i < |r.j.targets| ==>
                    Placed(r.j.targets[i]) && TargetChecked(r.j, r.j.targets[i]) && Fits(r.j, r.j.targets[i]))
              && r.s == StartState(r.j, r.s.threads) && |r.s.threads| == r.j.totalThreads
              && (forall k :: 0 <= k < |r.s.threads| ==> Assigned(r.j, r.s.threads[k]))
              && Served(r.j, |r.j.targets|, r.s.threads)
              && r.totalOverlap == S.AllOverlaps(r.s.threads)
              && (forall i :: 0 <= i < |r.j.targets| ==> NoThreads(r.j, r.j.targets[i]) < TWO_32)
    ensures r.NotRun? && Accepts(settings, files) ==>
              exists j :: JobOk(settings, files, j)
                       && exists i :: 0 <= i < |j.targets| && !Fits(j, j.targets[i])
  {
    hide Parsed, FileAccepted, TargetOk, OptionsAgree, FitsOffT, Placed, TargetChecked, Fits, Served, S.AllOverlaps;
    var parsed := ParseOptions(settings, files);
    if parsed.Err? {
      return NotRun;
    }
    var j := parsed.value;
    AllPlaced(settings, files, j);
    ThreadsFit(settings, files, j);
    var ok := CheckTargets(j);
    if !ok {
      return NotRun;
    }
    var a := new Assignment(j, o);
    a.AssignAll();
    return Ready(j, StartState(j, a.threads), a.totalOverlap);
  }

  /** The number of threads on a target is one of the option values, which fit 32 bits. */
  lemma ThreadsFit(settings: Settings, files: seq<File>, j: JobOptions)
    requires Parsed(settings) && JobOk(settings, files, j)
    ensures forall i :: 0 <= i < |j.targets| ==> NoThreads(j, j.targets[i]) < TWO_32
  {
    forall i | 0 <= i < |j.targets| ensures NoThreads(j, j.targets[i]) < TWO_32 {
      assert TargetOk(settings, files[i], j.targets[i]);
    }
  }

  lemma AllPlaced(settings: Settings, files: seq<File>, j: JobOptions)
    requires Parsed(settings) && Accepts(settings, files) && JobOk(settings, files, j)
    ensures forall i :: 0 <= i < |j.targets| ==> Placed(j.targets[i]) && j.targets[i].c.blockSize >= 0
  {
    forall i | 0 <= i < |j.targets| ensures Placed(j.targets[i]) && j.targets[i].c.blockSize >= 0 {
      AcceptedIsPlaced(settings, files[i], j.targets[i]);
    }
  }

  /** Every view a thread of an accepted job works with says what the options say. */
  lemma ViewsFollowOptions(settings: Settings, files: seq<File>, j: JobOptions, w: W.Thread, v: W.TargetView)
    requires JobOk(settings, files, j) && Assigned(j, w) && v in w.targets
    ensures v.shared < |files| && v.rel < NoThreads(j, j.targets[v.shared])
    ensures v.overlap == settings.overlap && v.writePercentage == settings.writePercentage
    ensures v.maxThroughput == settings.maxThroughput
    ensures v.c.blockSize == settings.blockSize && v.c.baseOffset == settings.baseOffset
    ensures settings.maxSize != 0 ==> v.c.maxSize == settings.maxSize
    ensures v.c.threadOffset == if settings.threadStride.Number? then settings.threadStride.value else 0
    ensures v.c.useRandomAlignment <==> settings.random != Absent
  {
    assert v == View(j, v.shared, v.rel);
    assert TargetOk(settings, files[v.shared], j.targets[v.shared]);
  }

  /** Whole-run containment, from the command line on: whatever the options, the files, the
      interleaving and the draws, every block a thread reads or writes lies inside the usable
      part of its file, and under O_DIRECT a whole number of sectors from the base. */
  lemma WholeRunContainment(j: JobOptions, s: S.Sys, es: seq<S.Step>, k: nat, op: W.OpId)
    requires forall x :: 0 <= x < |j.targets| ==>
               Placed(j.targets[x]) && TargetChecked(j, j.targets[x]) && NoThreads(j, j.targets[x]) < TWO_32
    requires s == StartState(j, s.threads) && forall i :: 0 <= i < |s.threads| ==> Assigned(j, s.threads[i])
    requires S.Run(s, es) && k < |S.Exec(s, es).threads| && op in S.Exec(s, es).threads[k].ops
    ensures var w := S.Exec(s, es).threads[k];
      && op.t < |w.targets| && w.targets[op.t].shared < |j.targets|
      && var t := j.targets[w.targets[op.t].shared]; var offset := w.ops[op].offset;
        && t.c.baseOffset <= offset && offset + t.c.blockSize <= t.c.maxSize <= t.size
        && (t.direct ==> (offset - t.c.baseOffset) % SECTOR_SIZE == 0)
  {
    hide S.Do, S.Enabled, S.Exec, S.Run, S.Init, S.Configured;
    StartStateOk(j, s.threads);
    S.Containment(s, es, k, op);
    S.RunLength(s, es);
    S.RunKeepsConfig(s, es);
    assert Assigned(j, s.threads[k]);
    var v := s.threads[k].targets[op.t];
    assert v in s.threads[k].targets;
    if j.targets[v.shared].direct {
      S.SectorAlignment(s, es, k, op, SECTOR_SIZE);
    }
  }
}
