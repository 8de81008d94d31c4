/** What a thread has recorded, told from the steps of its run alone: when an op was last
    handled, what was last drawn for it, and which passes were recorded with what result. */
module History {
  import opened Tally
  import opened Worker
  import opened Wrappers

  /** A step handles a completion of `op`: a pass for it that is not throttled, recorded or not. */
  predicate Handles(w: Thread, e: Step, op: OpId) {
    e.Loop? && e.p.op == op && !Throttled(w, e.p)
  }

  /** The clock read in the last pass that handled `op`. */
  function LastStamp(w: Thread, es: seq<Step>, op: OpId): Option<nat>
    requires Run(w, es)
  {
    if es == [] then None
    else
      var front, e := es[..|es| - 1], es[|es| - 1];
      if Handles(Exec(w, front), e, op) then Some(e.p.stampUs) else LastStamp(w, front, op)
  }

  /** The percentage last drawn for `op`: when it was constructed, or when it was last handled. */
  function LastDraw(w: Thread, es: seq<Step>, op: OpId): Option<nat>
    requires Run(w, es)
  {
    if es == [] then None
    else
      var front, e := es[..|es| - 1], es[|es| - 1];
      var r := Exec(w, front);
      if e.Construct? && OpId(r.phase.t, r.phase.i) == op then Some(e.percentage)
      else if Handles(r, e, op) then Some(e.p.percentage)
      else LastDraw(w, front, op)
  }

  /** -w percent of the draws ask for a write. */
  function KindDrawn(w: Thread, op: OpId, draw: Option<nat>): Kind {
    if draw.Some? && op.t < |w.targets| && draw.value <= w.targets[op.t].writePercentage then Write else Read
  }

  /** An op carries the stamp of the last pass that handled it and the kind last drawn. */
  ghost predicate Told(w: Thread, ops: map<OpId, OpState>, op: OpId, stamp: Option<nat>, draw: Option<nat>) {
    if op in ops then
      draw.Some? && ops[op].time == stamp && ops[op].kind == KindDrawn(w, op, draw)
    else stamp == None && draw == None
  }

  lemma {:induction false} OpTold(w: Thread, es: seq<Step>, op: OpId)
    requires Init(w) && Run(w, es)
    ensures Told(w, Exec(w, es).ops, op, LastStamp(w, es, op), LastDraw(w, es, op))
    decreases |es|
  {
    hide Do, Enabled, Told, Handles;
    if es == [] {
      assert Told(w, w.ops, op, None, None) by { NothingTold(w, op); }
    } else {
      var front, e := es[..|es| - 1], es[|es| - 1];
      OpTold(w, front, op);
      RunKeepsConfig(w, front);
      RunKeepsDepth(w, front);
      StepTold(w, Exec(w, front), e, op, LastStamp(w, front, op), LastDraw(w, front, op));
    }
  }

  lemma NothingTold(w: Thread, op: OpId)
    requires Init(w)
    ensures Told(w, w.ops, op, None, None)
  {
  }

  lemma StepTold(w: Thread, r: Thread, e: Step, op: OpId, stamp: Option<nat>, draw: Option<nat>)
    requires DepthKept(r) && Enabled(r, e) && r.targets == w.targets && Told(w, r.ops, op, stamp, draw)
    ensures var stamp' := if Handles(r, e, op) then Some(e.p.stampUs) else stamp;
      var draw' := if e.Construct? && OpId(r.phase.t, r.phase.i) == op then Some(e.percentage)
                   else if Handles(r, e, op) then Some(e.p.percentage) else draw;
      Told(w, Do(r, e).ops, op, stamp', draw')
  {
    match e
    case Construct(percentage, o) =>
      assert !IsBuilt(r, OpId(r.phase.t, r.phase.i));
    case Loop(p) => hide DepthKept;
    case _ => hide DepthKept;
  }

  /** How many passes have handled `op`. */
  function TimesHandled(w: Thread, es: seq<Step>, op: OpId): nat
    requires Run(w, es)
  {
    if es == [] then 0
    else
      var front, e := es[..|es| - 1], es[|es| - 1];
      TimesHandled(w, front, op) + if Handles(Exec(w, front), e, op) then 1 else 0
  }

  /** That is what an op's rounds count. */
  lemma {:induction false} RoundsTold(w: Thread, es: seq<Step>, op: OpId)
    requires Init(w) && Run(w, es)
    ensures if op in Exec(w, es).ops then Exec(w, es).ops[op].rounds == TimesHandled(w, es, op)
            else TimesHandled(w, es, op) == 0
    decreases |es|
  {
    hide Do, Enabled, Handles;
    if es == [] {
    } else {
      var front, e := es[..|es| - 1], es[|es| - 1];
      RoundsTold(w, front, op);
      RunKeepsDepth(w, front);
      RoundsStep(Exec(w, front), e, op);
    }
  }

  lemma RoundsStep(r: Thread, e: Step, op: OpId)
    requires DepthKept(r) && Enabled(r, e)
    ensures op in r.ops ==> op in Do(r, e).ops
                            && Do(r, e).ops[op].rounds == r.ops[op].rounds + if Handles(r, e, op) then 1 else 0
    ensures op !in r.ops ==> !Handles(r, e, op) && (op in Do(r, e).ops ==> Do(r, e).ops[op].rounds == 0)
  {
    match e
    case Construct(percentage, o) =>
      assert !IsBuilt(r, OpId(r.phase.t, r.phase.i));
    case _ => hide DepthKept;
  }

  // ---- the passes that were recorded -----------------------------------------------------

  datatype Entry = Entry(kind: Kind, stampUs: nat, latencyUs: nat)

  /** What recording pass `p` after the run `es` gives: the kind last drawn, the clock, and the
      time since the last pass that handled the op. Before the first there is no such time. */
  function EntryOf(w: Thread, es: seq<Step>, p: Pass): Entry
    requires Run(w, es)
  {
    var last := LastStamp(w, es, p.op);
    Entry(KindDrawn(w, p.op, LastDraw(w, es, p.op)), p.stampUs,
          if last.Some? && last.value <= p.stampUs then p.stampUs - last.value else p.garbage)
  }

  /** A step records an op of target `t`. */
  predicate Records(r: Thread, e: Step, t: nat) {
    e.Loop? && e.p.op.t == t && e.p.recordFlag && Handles(r, e, e.p.op)
  }

  /** The recorded passes on target `t`, in order. */
  function Recorded(w: Thread, es: seq<Step>, t: nat): seq<Entry>
    requires Run(w, es)
  {
    if es == [] then []
    else
      var front, e := es[..|es| - 1], es[|es| - 1];
      Recorded(w, front, t) + if Records(Exec(w, front), e, t) then [EntryOf(w, front, e.p)] else []
  }

  /** The entries of one kind. */
  function Side(h: seq<Entry>, kind: Kind): seq<Entry> {
    if h == [] then []
    else Side(h[..|h| - 1], kind) + if h[|h| - 1].kind == kind then [h[|h| - 1]] else []
  }

  function Latencies(h: seq<Entry>): seq<nat> {
    seq(|h|, i requires 0 <= i < |h| => h[i].latencyUs)
  }

  /** Milliseconds since the start. */
  function Times(h: seq<Entry>, startUs: nat): seq<nat> {
    seq(|h|, i requires 0 <= i < |h| => SinceStart(h[i].stampUs, startUs) / 1000)
  }

  predicate SideIs(s: Tally.Side, h: seq<Entry>, m: Measure, startUs: nat, block: nat) {
    && s.iops == |h| && s.bytes == |h| * block
    && s.latencies == (if m.latency then Latencies(h) else [])
    && s.times == (if m.iopsStdDev then Times(h, startUs) else [])
  }

  predicate ResultsAre(r: Results, h: seq<Entry>, o: Options, block: nat) {
    && r.iops == |h| && r.bytes == |h| * block
    && SideIs(r.read, Side(h, Read), o.measure, o.startUs, block)
    && SideIs(r.write, Side(h, Write), o.measure, o.startUs, block)
  }

  lemma SideGains(s: Tally.Side, h: seq<Entry>, m: Measure, startUs: nat, block: nat, x: Entry)
    requires SideIs(s, h, m, startUs, block)
    ensures SideIs(AddSide(s, m, block, SinceStart(x.stampUs, startUs), x.latencyUs), h + [x], m, startUs, block)
  {
    assert (|h| + 1) * block == |h| * block + block;
    assert Latencies(h + [x]) == Latencies(h) + [x.latencyUs];
    assert Times(h + [x], startUs) == Times(h, startUs) + [SinceStart(x.stampUs, startUs) / 1000];
  }

  lemma ResultsGain(r: Results, h: seq<Entry>, o: Options, block: nat, x: Entry)
    requires ResultsAre(r, h, o, block)
    ensures var since := SinceStart(x.stampUs, o.startUs);
      ResultsAre(Record(r, o.measure, x.kind, block, since, x.latencyUs), h + [x], o, block)
  {
    hide SideIs, AddSide;
    assert (|h| + 1) * block == |h| * block + block;
    assert (h + [x])[..|h|] == h;
    if x.kind.Read? {
      SideGains(r.read, Side(h, Read), o.measure, o.startUs, block, x);
      assert Side(h + [x], Write) == Side(h, Write) + [] == Side(h, Write);
    } else {
      SideGains(r.write, Side(h, Write), o.measure, o.startUs, block, x);
      assert Side(h + [x], Read) == Side(h, Read) + [] == Side(h, Read);
    }
  }

  lemma NoResults(o: Options, block: nat)
    ensures ResultsAre(EMPTY, [], o, block)
  {
    assert Latencies([]) == [] && Times([], o.startUs) == [];
  }

  lemma RecordedStep(w: Thread, es: seq<Step>, t: nat)
    requires Run(w, es) && es != []
    ensures var front, e := es[..|es| - 1], es[|es| - 1];
      && (Records(Exec(w, front), e, t) ==> Recorded(w, es, t) == Recorded(w, front, t) + [EntryOf(w, front, e.p)])
      && (!Records(Exec(w, front), e, t) ==> Recorded(w, es, t) == Recorded(w, front, t))
  {
    hide Do, Enabled, Handles, Exec, EntryOf;
    var front := es[..|es| - 1];
    assert Recorded(w, front, t) + [] == Recorded(w, front, t);
  }

  lemma ResultsStep(r: Thread, e: Step, t: nat)
    requires Enabled(r, e) && t < |r.targets|
    ensures |Do(r, e).results| == |r.results| == |r.targets|
    ensures !Records(r, e, t) ==> Do(r, e).results[t] == r.results[t]
    ensures Records(r, e, t) ==>
      var st := r.ops[e.p.op];
      Do(r, e).results[t] == Record(r.results[t], r.options.measure, st.kind, Block(r, t),
                                    SinceStart(e.p.stampUs, r.options.startUs), OpTime(st, e.p))
  {
    hide Record, SinceStart, Throttled;
  }

  /** The entry of a pass is what the op's own fields give. */
  lemma EntryIs(w: Thread, front: seq<Step>, p: Pass)
    requires Init(w) && Run(w, front) && Enabled(Exec(w, front), Loop(p)) && !Throttled(Exec(w, front), p)
    ensures var st := Exec(w, front).ops[p.op];
      EntryOf(w, front, p) == Entry(st.kind, p.stampUs, OpTime(st, p))
  {
    hide Run, Exec, Do, Throttled, LastStamp, LastDraw, KindDrawn;
    OpTold(w, front, p.op);
  }

  lemma StepResults(w: Thread, es: seq<Step>, t: nat)
    requires Init(w) && Run(w, es) && es != [] && t < |w.targets|
    requires |Exec(w, es[..|es| - 1]).results| == |w.targets|
    requires ResultsAre(Exec(w, es[..|es| - 1]).results[t], Recorded(w, es[..|es| - 1], t), w.options, Block(w, t))
    ensures |Exec(w, es).results| == |w.targets|
    ensures ResultsAre(Exec(w, es).results[t], Recorded(w, es, t), w.options, Block(w, t))
  {
    hide Do, Enabled, ResultsAre, Record, Recorded, EntryOf, SinceStart;
    var front, e := es[..|es| - 1], es[|es| - 1];
    var r := Exec(w, front);
    RunKeepsConfig(w, front);
    RecordedStep(w, es, t);
    ResultsStep(r, e, t);
    if Records(r, e, t) {
      EntryIs(w, front, e.p);
      ResultsGain(r.results[t], Recorded(w, front, t), w.options, Block(w, t), EntryOf(w, front, e.p));
    }
  }

  /** The results of a target are exactly its recorded passes: each counts on the side of the
      kind last drawn for its op, with its bytes, its time since the start and the time since
      its op was last handled, in the order of the passes. */
  lemma {:induction false} ResultsTold(w: Thread, es: seq<Step>, t: nat)
    requires Init(w) && Run(w, es) && t < |w.targets|
    ensures |Exec(w, es).results| == |w.targets|
    ensures w.targets[t].c.blockSize >= 0
    ensures ResultsAre(Exec(w, es).results[t], Recorded(w, es, t), w.options, w.targets[t].c.blockSize)
    decreases |es|
  {
    hide Do, Enabled, ResultsAre;
    if es == [] {
      NoResults(w.options, Block(w, t));
    } else {
      ResultsTold(w, es[..|es| - 1], t);
      StepResults(w, es, t);
    }
  }

  // ---- reads and writes ------------------------------------------------------------------

  /** The random engine draws from 1 to 100. */
  predicate DrawsInRange(es: seq<Step>) {
    forall k :: 0 <= k < |es| ==>
      && (es[k].Construct? ==> 1 <= es[k].percentage <= 100)
      && (es[k].Loop? ==> 1 <= es[k].p.percentage <= 100)
  }

  lemma {:induction false} LastDrawInRange(w: Thread, es: seq<Step>, op: OpId)
    requires Run(w, es) && DrawsInRange(es)
    ensures LastDraw(w, es, op).Some? ==> 1 <= LastDraw(w, es, op).value <= 100
    decreases |es|
  {
    hide Do, Enabled, Exec, Throttled;
    if es == [] {
    } else {
      var front, e := es[..|es| - 1], es[|es| - 1];
      assert forall k :: 0 <= k < |front| ==> front[k] == es[k];
      LastDrawInRange(w, front, op);
      assert es[|es| - 1] == e;
    }
  }

  /** Every recorded pass on a target with -w0 is a read, and with -w100 a write. */
  lemma {:induction false} OneKind(w: Thread, es: seq<Step>, t: nat)
    requires Init(w) && Run(w, es) && t < |w.targets| && DrawsInRange(es)
    ensures w.targets[t].writePercentage == 0 ==> Side(Recorded(w, es, t), Write) == []
    ensures w.targets[t].writePercentage == 100 ==> Side(Recorded(w, es, t), Read) == []
    decreases |es|
  {
    hide Do, Enabled, Exec, Handles, LastDraw;
    if es == [] {
    } else {
      var front, e := es[..|es| - 1], es[|es| - 1];
      assert forall k :: 0 <= k < |front| ==> front[k] == es[k];
      OneKind(w, front, t);
      RecordedStep(w, es, t);
      var h := Recorded(w, front, t);
      if Records(Exec(w, front), e, t) {
        KindOfRecord(w, front, e, t);
        assert (h + [EntryOf(w, front, e.p)])[..|h|] == h;
      }
    }
  }

  lemma KindOfRecord(w: Thread, front: seq<Step>, e: Step, t: nat)
    requires Init(w) && Run(w, front) && Enabled(Exec(w, front), e) && Records(Exec(w, front), e, t)
    requires t < |w.targets| && DrawsInRange(front)
    ensures w.targets[t].writePercentage == 0 ==> EntryOf(w, front, e.p).kind == Read
    ensures w.targets[t].writePercentage == 100 ==> EntryOf(w, front, e.p).kind == Write
  {
    hide Run, Exec, Do, Throttled, LastDraw, LastStamp;
    OpTold(w, front, e.p.op);
    LastDrawInRange(w, front, e.p.op);
  }

  /** -w0 counts no write and -w100 no read, over every run. */
  lemma PureReadsAndWrites(w: Thread, es: seq<Step>, t: nat)
    requires Init(w) && Run(w, es) && t < |w.targets| && DrawsInRange(es)
    ensures |Exec(w, es).results| == |w.targets|
    ensures w.targets[t].writePercentage == 0 ==> Exec(w, es).results[t].write.iops == 0
    ensures w.targets[t].writePercentage == 100 ==> Exec(w, es).results[t].read.iops == 0
  {
    hide Run, Exec, Recorded;
    ResultsTold(w, es, t);
    OneKind(w, es, t);
  }

  // ---- samples of ops not handled before -------------------------------------------------

  /** How often `op` is recorded although no pass has handled it before. */
  function FirstRecords(w: Thread, es: seq<Step>, op: OpId): nat
    requires Run(w, es)
  {
    if es == [] then 0
    else
      var front, e := es[..|es| - 1], es[|es| - 1];
      FirstRecords(w, front, op) +
      if e.Loop? && e.p.recordFlag && Handles(Exec(w, front), e, op) && LastStamp(w, front, op).None? then 1 else 0
  }

  /** At most once for every op, which has been handled from then on. */
  lemma {:induction false} FirstRecordOnce(w: Thread, es: seq<Step>, op: OpId)
    requires Run(w, es)
    ensures FirstRecords(w, es, op) <= if LastStamp(w, es, op).Some? then 1 else 0
    decreases |es|
  {
    hide Do, Enabled, Handles, Exec;
    if es == [] {
    } else {
      FirstRecordOnce(w, es[..|es| - 1], op);
    }
  }

  /** Once handled, an op stays handled. */
  lemma {:induction false} StampStays(w: Thread, es: seq<Step>, m: nat, op: OpId)
    requires Run(w, es) && m <= |es| && Run(w, es[..m]) && LastStamp(w, es[..m], op).Some?
    ensures LastStamp(w, es, op).Some?
    decreases |es|
  {
    hide Do, Enabled, Handles, Exec;
    if m == |es| {
      assert es[..m] == es;
    } else {
      var front := es[..|es| - 1];
      assert front[..m] == es[..m];
      StampStays(w, front, m, op);
    }
  }

  /** Every op of target `t` completes at least once in the first `m` steps, and none of these
      completions is recorded: a warm-up long enough. */
  ghost predicate WarmedUp(w: Thread, es: seq<Step>, m: nat, t: nat) {
    && m <= |es| && Run(w, es[..m])
    && (forall k :: 0 <= k < m && es[k].Loop? && es[k].p.op.t == t ==> !es[k].p.recordFlag)
    && (forall op :: IsOp(w, op) && op.t == t ==> LastStamp(w, es[..m], op).Some?)
  }

  lemma StepGarbage(w: Thread, es: seq<Step>, m: nat, t: nat)
    requires Init(w) && Run(w, es) && m <= |es| && es != []
    requires m < |es| ==> WarmedUp(w, es, m, t)
    requires m >= |es| ==> (es[|es| - 1].Loop? && es[|es| - 1].p.op.t == t ==> !es[|es| - 1].p.recordFlag)
    ensures GarbageOf(Exec(w, es[..|es| - 1]), es[|es| - 1], t) == 0
  {
    hide Run, Exec, Do, LastStamp, LastDraw;
    var front, e := es[..|es| - 1], es[|es| - 1];
    RunLast(w, es);
    var r := Exec(w, front);
    if m < |es| && Worker.Records(r, e) && e.p.op.t == t {
      RunKeepsDepth(w, front);
      RunKeepsConfig(w, front);
      assert IsOp(w, e.p.op);
      assert front[..m] == es[..m];
      StampStays(w, front, m, e.p.op);
      OpTold(w, front, e.p.op);
    }
  }

  lemma RunLast(w: Thread, es: seq<Step>)
    requires Run(w, es) && es != []
    ensures Run(w, es[..|es| - 1]) && Enabled(Exec(w, es[..|es| - 1]), es[|es| - 1])
  {
  }

  /** After such a warm-up no sample is taken of an op that was not handled before. */
  lemma {:induction false} NoGarbage(w: Thread, es: seq<Step>, m: nat, t: nat)
    requires Init(w) && Run(w, es)
    requires if m <= |es| then WarmedUp(w, es, m, t)
             else forall k :: 0 <= k < |es| && es[k].Loop? && es[k].p.op.t == t ==> !es[k].p.recordFlag
    ensures Garbage(w, es, t) == 0
    decreases |es|
  {
    hide Do, Enabled, Exec, GarbageOf, LastStamp;
    if es == [] {
    } else {
      var front := es[..|es| - 1];
      assert forall k :: 0 <= k < |front| ==> front[k] == es[k];
      if m <= |front| {
        assert front[..m] == es[..m];
      }
      NoGarbage(w, front, m, t);
      StepGarbage(w, es, if m < |es| then m else |es|, t);
    }
  }

  /** Little's law without exception: after a warm-up in which every op of the target completes
      once, the recorded latencies add up to at most overlap times the elapsed time. */
  lemma LittlesLawAfterWarmup(w: Thread, es: seq<Step>, m: nat, t: nat, from: nat, to: nat)
    requires Init(w) && Run(w, es) && t < |w.targets| && w.options.measure.latency
    requires from <= to && StampsWithin(es, from, to) && WarmedUp(w, es, m, t)
    ensures LatencyTotal(Exec(w, es), t) <= w.targets[t].overlap * (to - from)
  {
    hide *;
    WarmupFits(w, es, m, t);
    NoGarbage(w, es, m, t);
    LittlesLaw(w, es, t, from, to);
  }

  lemma WarmupFits(w: Thread, es: seq<Step>, m: nat, t: nat)
    requires WarmedUp(w, es, m, t)
    ensures m <= |es|
  {
  }
}
