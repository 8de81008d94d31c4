/** thread.cc: thread_func as code over the fields of a ThreadParams, proved against the
    steps of Worker. */
module ThreadFunc {
  import opened AsyncIo
  import opened Tally
  import opened Wrappers
  import opened Worker

  lemma RunSnoc(w: Thread, es: seq<Step>, e: Step)
    requires Worker.Run(w, es) && Enabled(Exec(w, es), e)
    ensures Worker.Run(w, es + [e]) && Exec(w, es + [e]) == Do(Exec(w, es), e)
  {
    assert (es + [e])[..|es|] == es;
  }

  lemma {:induction false} RunConcat(w: Thread, a: seq<Step>, b: seq<Step>)
    requires Worker.Run(w, a) && Worker.Run(Exec(w, a), b)
    ensures Worker.Run(w, a + b) && Exec(w, a + b) == Exec(Exec(w, a), b)
    decreases |b|
  {
    hide Do, Enabled;
    if b == [] {
      assert a + b == a;
    } else {
      var front, e := b[..|b| - 1], b[|b| - 1];
      RunConcat(w, a, front);
      RunSnoc(w, a + front, e);
      assert a + b == (a + front) + [e];
    }
  }

  lemma {:induction false} RunPrefix(w: Thread, es: seq<Step>, k: nat)
    requires Worker.Run(w, es) && k <= |es|
    ensures Worker.Run(w, es[..k])
    decreases |es|
  {
    if k < |es| {
      RunPrefix(w, es[..|es| - 1], k);
      assert es[..|es| - 1][..k] == es[..k];
    } else {
      assert es[..k] == es;
    }
  }

  lemma NoSteps(w: Thread, es: seq<Step>)
    requires es == []
    ensures Worker.Run(w, es) && Exec(w, es) == w
  {
  }

  lemma LastLoop(w: Thread, es: seq<Step>, p: Pass)
    requires es != [] && es[|es| - 1] == Loop(p) && Worker.Run(w, es)
    ensures Worker.Run(w, es[..|es| - 1])
    ensures Enabled(Exec(w, es[..|es| - 1]), Loop(p))
    ensures Exec(w, es) == OnePass(Exec(w, es[..|es| - 1]), p)
  {
  }

  /** The loop is left at its head, or by the second test of run_threads. */
  function Exit(waited: Option<OpId>): Step {
    if waited.Some? then StopAfterWait(waited.value) else Stop
  }

  lemma EndsWith(w: Thread, es: seq<Step>, e: Step)
    requires Worker.Run(w, es + [e])
    ensures Worker.Run(w, es) && Enabled(Exec(w, es), e)
    ensures Exec(w, es + [e]) == Do(Exec(w, es), e)
  {
    assert (es + [e])[..|es|] == es;
  }

  lemma LeaveStep(w: Thread, waited: Option<OpId>)
    requires Enabled(w, Exit(waited))
    ensures Do(w, Exit(waited)).phase == Stopped
    ensures Do(w, Exit(waited)) ==
      w.(phase := Stopped, group := if waited.Some? then w.group.Wait(waited.value) else w.group)
  {
  }

  function Loops(passes: seq<Pass>): seq<Step> {
    seq(|passes|, k requires 0 <= k < |passes| => Loop(passes[k]))
  }

  class ThreadParams {
    const options: Options
    const targets: seq<TargetView>
    var group: Group<OpId>
    var ops: map<OpId, OpState>
    var threadBytes: nat
    var results: seq<Results>
    ghost var phase: Phase

    ghost function Abs(): Thread
      reads this
    {
      Thread(options, targets, phase, group, ops, threadBytes, results)
    }

    constructor (options: Options, targets: seq<TargetView>)
      requires forall t :: 0 <= t < |targets| ==> targets[t].c.blockSize >= 0
      ensures Init(Abs()) && this.options == options && this.targets == targets
    {
      this.options := options;
      this.targets := targets;
      group, ops, threadBytes := Group([], {}), map[], 0;
      results := seq(|targets|, _ => EMPTY);
      phase := Starting(0);
    }

    /** Lines 139-190: the loop over one target. `next` and `percentage` give what
        get_next_offset and get_percentage return in turn `i`. */
    method BuildTarget(t: nat, start: int, next: nat -> int, percentage: nat -> nat)
      returns (ghost es: seq<Step>)
      requires WellFormed(Abs()) && phase == Starting(t) && t < |targets|
      modifies this
      ensures Worker.Run(old(Abs()), es) && Abs() == Exec(old(Abs()), es)
      ensures phase == Starting(t + 1) && WellFormed(Abs())
    {
      hide Do;
      ghost var w := Abs();
      es := [StartTarget(start)];
      var curr := start;
      phase := Building(t, 0, curr);
      assert Abs() == Exec(w, es) by { RunSnoc(w, [], StartTarget(start)); FirstStep(w, start); }
      var i := 0;
      while i < targets[t].overlap
        invariant Worker.Run(w, es) && Abs() == Exec(w, es)
        invariant WellFormed(Abs()) && phase == Building(t, i, curr) && i <= targets[t].overlap
      {
        es := ConstructOp(w, es, t, i, curr, next(i), percentage(i));
        curr := next(i);
        i := i + 1;
      }
      RunSnoc(w, es, FinishTarget);
      LastStep(Exec(w, es));
      es := es + [FinishTarget];
      phase := Starting(t + 1);
    }

    method ConstructOp(ghost w: Thread, ghost es: seq<Step>, t: nat, i: nat, curr: int, next: int, percentage: nat)
      returns (ghost es': seq<Step>)
      requires Worker.Run(w, es) && Abs() == Exec(w, es)
      requires WellFormed(Abs()) && phase == Building(t, i, curr) && t < |targets| && i < targets[t].overlap
      modifies this
      ensures Worker.Run(w, es') && Abs() == Exec(w, es')
      ensures WellFormed(Abs()) && phase == Building(t, i + 1, next)
    {
      RunSnoc(w, es, Construct(percentage, next));
      var kind := Read;
      if percentage <= targets[t].writePercentage {
        kind := Write;
      }
      var op := OpId(t, i);
      ops := ops[op := OpState(kind, curr, None, 0)];
      group := group.Enqueue(op);
      phase := Building(t, i + 1, next);
      es' := es + [Construct(percentage, next)];
    }

    /** Lines 134-199: all targets, then one submit for the whole batch. */
    method InitialBatch(start: nat -> int, next: (nat, nat) -> int, percentage: (nat, nat) -> nat)
      returns (ghost es: seq<Step>)
      requires WellFormed(Abs()) && phase == Starting(0)
      modifies this
      ensures Worker.Run(old(Abs()), es) && Abs() == Exec(old(Abs()), es) && phase == Working
    {
      ghost var w := Abs();
      es := [];
      var t := 0;
      while t < |targets|
        invariant Worker.Run(w, es) && Abs() == Exec(w, es)
        invariant WellFormed(Abs()) && phase == Starting(t) && t <= |targets|
      {
        ghost var more := BuildTarget(t, start(t), (i: nat) => next(t, i), (i: nat) => percentage(t, i));
        RunConcat(w, es, more);
        es := es + more;
        t := t + 1;
      }
      RunSnoc(w, es, SubmitBatch);
      group := group.Submit();
      phase := Working;
      es := es + [SubmitBatch];
    }

    /** Lines 263-306, counter by counter. */
    method RecordOp(t: nat, kind: Kind, ret: nat, stampUs: nat, opTime: nat)
      requires t < |results|
      modifies this`results
      ensures results == old(results)[t :=
        Record(old(results)[t], options.measure, kind, ret, SinceStart(stampUs, options.startUs), opTime)]
    {
      var r := results[t];
      r := r.(bytes := r.bytes + ret);
      r := r.(iops := r.iops + 1);
      var sinceStartUs, opTimeUs := 0, 0;
      if options.measure.iopsStdDev || options.measure.latency {
        sinceStartUs := SinceStart(stampUs, options.startUs);
        opTimeUs := opTime;
      }
      var s := if kind.Read? then r.read else r.write;
      s := s.(iops := s.iops + 1);
      s := s.(bytes := s.bytes + ret);
      if options.measure.iopsStdDev {
        s := s.(times := s.times + [sinceStartUs / 1000]);
      }
      if options.measure.latency {
        s := s.(latencies := s.latencies + [opTimeUs]);
      }
      r := if kind.Read? then r.(read := s) else r.(write := s);
      results := results[t := r];
    }

    /** Lines 216-338: one pass of the work loop. */
    method WorkPass(p: Pass)
      requires Enabled(Abs(), Loop(p))
      modifies this
      ensures phase == old(phase) && Abs() == OnePass(old(Abs()), p)
    {
      var throughput := if targets == [] then 0 else targets[0].maxThroughput;
      if p.throttleFlag && throughput != 0 {
        var sinceStartMs := SinceStart(p.nowMs, options.startMs);
        if sinceStartMs != 0 {
          var currBytesPerMs := threadBytes / sinceStartMs;
          if currBytesPerMs > throughput {
            return;
          }
        }
      }
      assert !Throttled(Abs(), p);
      group := group.Wait(p.op);
      var t := p.op.t;
      var st := ops[p.op];
      var ret := targets[t].c.blockSize;
      if p.recordFlag {
        threadBytes := threadBytes + ret;
        var opTime := if st.time.Some? then p.stampUs - st.time.value else p.garbage;
        RecordOp(t, st.kind, ret, p.stampUs, opTime);
      }
      st := st.(time := Some(p.stampUs));
      st := st.(offset := p.newOffset);
      st := st.(kind := ChooseKind(p.percentage, targets[t].writePercentage));
      ops := ops[p.op := st.(rounds := st.rounds + 1)];
      group := group.Enqueue(p.op);
      group := group.Submit();
    }

    /** The work loop, for any sequence of passes the environment can offer, and its end: at
        the head, or after waiting for an op. */
    method WorkLoop(passes: seq<Pass>, waited: Option<OpId>)
      requires Worker.Run(Abs(), Loops(passes) + [Exit(waited)])
      modifies this
      ensures Abs() == Exec(old(Abs()), Loops(passes) + [Exit(waited)])
    {
      hide Enabled, Do, OnePass, Worker.Run, Exec;
      ghost var w := Abs();
      var k := 0;
      EndsWith(w, Loops(passes), Exit(waited));
      NoSteps(w, Loops(passes)[..0]);
      while k < |passes|
        invariant 0 <= k <= |passes| && Worker.Run(w, Loops(passes)[..k])
        invariant Abs() == Exec(w, Loops(passes)[..k])
      {
        RunPrefix(w, Loops(passes), k + 1);
        LastLoop(w, Loops(passes)[..k + 1], passes[k]);
        assert Loops(passes)[..k + 1][..k] == Loops(passes)[..k];
        WorkPass(passes[k]);
        k := k + 1;
      }
      assert Loops(passes)[..k] == Loops(passes);
      LeaveStep(Abs(), waited);
      if waited.Some? {
        group := group.Wait(waited.value);
      }
      phase := Stopped;
    }

    lemma FirstStep(w: Thread, start: int)
      requires Enabled(w, StartTarget(start))
      ensures Do(w, StartTarget(start)) == w.(phase := Building(w.phase.t, 0, start))
    {
    }

    lemma LastStep(w: Thread)
      requires Enabled(w, FinishTarget)
      ensures Do(w, FinishTarget) == w.(phase := Starting(w.phase.t + 1))
    {
    }
  }
}
