/** All worker threads of a job together, with the offset each Target shares among them.
    A step is one step of one thread; the shared offset is touched once in it, under its
    mutex. Every interleaving is a run. */
module System {
  import opened Arithmetic
  import opened Target
  import opened Wrappers
  import W = Worker

  /** A Target as the threads share it. `draws` counts the offsets taken from it under
      interlocked_mutex; the source keeps no such count. */
  datatype Shared = Shared(c: Config, interlockedOffset: int, draws: nat)

  datatype Sys = Sys(shared: seq<Shared>, threads: seq<W.Thread>)

  /** Thread `k` takes step `e`; `draw` is what its random engine returns, if asked. */
  datatype Step = Step(k: nat, e: W.Step, draw: int)

  /** The target on which a thread's step takes an offset, if it takes one. */
  function DrawsOn(w: W.Thread, e: W.Step): Option<nat>
    requires W.Enabled(w, e)
  {
    match e
    case StartTarget(_) => Some(w.phase.t)
    case Construct(_, _) => Some(w.phase.t)
    case Loop(p) => if W.Throttled(w, p) then None else Some(p.op.t)
    case _ => None
  }

  /** The offset the step claims to have taken. */
  function Claimed(e: W.Step): int
    requires e.StartTarget? || e.Construct? || e.Loop?
  {
    match e
    case StartTarget(o) => o
    case Construct(_, o) => o
    case Loop(p) => p.newOffset
  }

  /** What get_start_offset or get_next_offset really gives, and leaves in the Target. */
  function Taken(w: W.Thread, e: W.Step, v: W.TargetView, interlocked: int, draw: int): (int, int)
    requires W.Enabled(w, e) && DrawsOn(w, e).Some?
  {
    match e
    case StartTarget(_) => Start(v.c, v.rel, interlocked, draw)
    case Construct(_, _) => Next(v.c, v.rel, w.phase.curr, interlocked, draw)
    case Loop(p) => Next(v.c, v.rel, w.ops[p.op].offset, interlocked, draw)
  }

  predicate Interlocked(c: Config) {
    c.useInterlocked && !c.useRandomAlignment
  }

  /** The views agree with the Targets, and the checks of Profile and Job have passed. */
  ghost predicate Configured(s: Sys) {
    forall k, t :: 0 <= k < |s.threads| && 0 <= t < |s.threads[k].targets| ==>
      ViewOk(s, s.threads[k].targets[t])
  }

  ghost predicate ViewOk(s: Sys, v: W.TargetView) {
    v.shared < |s.shared| && v.c == s.shared[v.shared].c && Checked(v.c, v.rel)
  }

  ghost predicate Enabled(s: Sys, e: Step) {
    && Configured(s) && e.k < |s.threads| && W.Enabled(s.threads[e.k], e.e)
    && var w := s.threads[e.k];
      (DrawsOn(w, e.e).Some? ==>
        var v := w.targets[DrawsOn(w, e.e).value];
        && 0 <= e.draw < RandomRange(v.c)
        && Claimed(e.e) == Taken(w, e.e, v, s.shared[v.shared].interlockedOffset, e.draw).0)
  }

  ghost function Do(s: Sys, e: Step): Sys
    requires Enabled(s, e)
  {
    var w := s.threads[e.k];
    var threads := s.threads[e.k := W.Do(w, e.e)];
    if DrawsOn(w, e.e).None? then Sys(s.shared, threads)
    else
      var v := w.targets[DrawsOn(w, e.e).value];
      var h := s.shared[v.shared];
      Sys(s.shared[v.shared := Drawn(h, Taken(w, e.e, v, h.interlockedOffset, e.draw).1)], threads)
  }

  function Drawn(h: Shared, o: int): Shared {
    Shared(h.c, o, if Interlocked(h.c) then h.draws + 1 else h.draws)
  }

  ghost predicate Run(s: Sys, es: seq<Step>)
    decreases |es|, 0
  {
    es == [] || (Run(s, es[..|es| - 1]) && Enabled(Exec(s, es[..|es| - 1]), es[|es| - 1]))
  }

  ghost function Exec(s: Sys, es: seq<Step>): Sys
    requires Run(s, es)
    decreases |es|, 1
  {
    if es == [] then s else Do(Exec(s, es[..|es| - 1]), es[|es| - 1])
  }

  predicate Init(s: Sys) {
    && (forall k :: 0 <= k < |s.threads| ==> W.Init(s.threads[k]))
    && (forall x :: 0 <= x < |s.shared| ==>
          && s.shared[x].draws == 0
          && (s.shared[x].c.useInterlocked ==> s.shared[x].interlockedOffset == s.shared[x].c.baseOffset))
  }

  // ---- offsets -----------------------------------------------------------------------

  /** `o` is a legitimate offset number `n` of this view: in sequential mode exactly slot `n`
      from the thread's own base, in interlocked mode some slot of the target, in random
      mode some aligned block. */
  ghost predicate OffsetOk(v: W.TargetView, n: nat, o: int)
    requires Checked(v.c, v.rel)
  {
    if v.c.useRandomAlignment then InBounds(v.c, o) && (o - v.c.baseOffset) % v.c.stride == 0
    else if v.c.useInterlocked then exists m: nat :: o == Slot(v.c, v.c.baseOffset, m)
    else o == Slot(v.c, ThreadBaseOffset(v.c, v.rel), n)
  }

  /** The shared offset is the slot of the last draw. */
  ghost predicate SharedOk(h: Shared) {
    Interlocked(h.c) && h.c.stride > 0 && h.c.baseOffset + h.c.blockSize <= h.c.maxSize ==>
      h.interlockedOffset == Slot(h.c, h.c.baseOffset, h.draws)
  }

  ghost predicate OpsOk(w: W.Thread)
    requires forall t :: 0 <= t < |w.targets| ==> Checked(w.targets[t].c, w.targets[t].rel)
  {
    && (forall op :: op in w.ops ==>
          op.t < |w.targets| && OffsetOk(w.targets[op.t], op.i + w.ops[op].rounds, w.ops[op].offset))
    && (w.phase.Building? ==>
          w.phase.t < |w.targets| && OffsetOk(w.targets[w.phase.t], w.phase.i, w.phase.curr))
  }

  ghost predicate Inv(s: Sys) {
    && Configured(s)
    && (forall x :: 0 <= x < |s.shared| ==> SharedOk(s.shared[x]))
    && (forall k :: 0 <= k < |s.threads| ==> ThreadOk(s, k))
  }

  ghost predicate ThreadOk(s: Sys, k: nat)
    requires Configured(s) && k < |s.threads|
  {
    var w := s.threads[k];
    assert forall t :: 0 <= t < |w.targets| ==> ViewOk(s, w.targets[t]);
    OpsOk(w)
  }

  /** A draw from legitimate offsets is legitimate, and counts the shared slot up by one. */
  lemma NextOk(v: W.TargetView, h: Shared, n: nat, curr: int, draw: int)
    requires Checked(v.c, v.rel) && v.c == h.c && SharedOk(h) && 0 <= draw < RandomRange(v.c)
    requires OffsetOk(v, n, curr)
    ensures var r := Next(v.c, v.rel, curr, h.interlockedOffset, draw);
      && OffsetOk(v, n + 1, r.0) && SharedOk(Drawn(h, r.1))
      && (Interlocked(v.c) ==> r.0 == Slot(v.c, v.c.baseOffset, h.draws + 1))
  {
    if v.c.useRandomAlignment {
      RandomInBounds(v.c, draw);
      MulDiv(draw, v.c.stride);
    } else if v.c.useInterlocked {
      assert ThreadBaseOffset(v.c, v.rel) == v.c.baseOffset;
      SlotStep(v.c, v.rel, h.draws);
    } else {
      SlotStep(v.c, v.rel, n);
    }
  }

  lemma StartOk(v: W.TargetView, h: Shared, draw: int)
    requires Checked(v.c, v.rel) && v.c == h.c && SharedOk(h) && 0 <= draw < RandomRange(v.c)
    ensures var r := Start(v.c, v.rel, h.interlockedOffset, draw);
      && OffsetOk(v, 0, r.0) && SharedOk(Drawn(h, r.1))
      && (Interlocked(v.c) ==> r.0 == Slot(v.c, v.c.baseOffset, h.draws + 1))
  {
    if v.c.useRandomAlignment {
      RandomInBounds(v.c, draw);
      MulDiv(draw, v.c.stride);
    } else if v.c.useInterlocked {
      assert ThreadBaseOffset(v.c, v.rel) == v.c.baseOffset;
      SlotStep(v.c, v.rel, h.draws);
    } else {
      SlotsPositive(v.c, ThreadBaseOffset(v.c, v.rel));
    }
  }

  /** The offset a step takes is legitimate for the op it is taken for. */
  ghost predicate TakenOk(w: W.Thread, e: W.Step, v: W.TargetView, o: int)
    requires W.Enabled(w, e) && DrawsOn(w, e).Some? && Checked(v.c, v.rel)
  {
    match e
    case StartTarget(_) => OffsetOk(v, 0, o)
    case Construct(_, _) => OffsetOk(v, w.phase.i + 1, o)
    case Loop(p) => OffsetOk(v, p.op.i + w.ops[p.op].rounds + 1, o)
  }

  lemma DrawOk(s: Sys, e: Step)
    requires Inv(s) && Enabled(s, e) && DrawsOn(s.threads[e.k], e.e).Some?
    ensures var w := s.threads[e.k]; var v := w.targets[DrawsOn(w, e.e).value];
      && v.shared < |s.shared| && Checked(v.c, v.rel)
      && TakenOk(w, e.e, v, Claimed(e.e))
      && SharedOk(Drawn(s.shared[v.shared], Taken(w, e.e, v, s.shared[v.shared].interlockedOffset, e.draw).1))
      && (Interlocked(v.c) ==> Claimed(e.e) == Slot(v.c, v.c.baseOffset, s.shared[v.shared].draws + 1))
  {
    var w := s.threads[e.k];
    var v := w.targets[DrawsOn(w, e.e).value];
    assert ViewOk(s, v) && ThreadOk(s, e.k);
    var h := s.shared[v.shared];
    match e.e
    case StartTarget(_) => StartOk(v, h, e.draw);
    case Construct(_, _) => NextOk(v, h, w.phase.i, w.phase.curr, e.draw);
    case Loop(p) => NextOk(v, h, p.op.i + w.ops[p.op].rounds, w.ops[p.op].offset, e.draw);
  }

  lemma ViewsChecked(s: Sys, k: nat)
    requires Configured(s) && k < |s.threads|
    ensures forall t :: 0 <= t < |s.threads[k].targets| ==>
              Checked(s.threads[k].targets[t].c, s.threads[k].targets[t].rel)
  {
    forall t | 0 <= t < |s.threads[k].targets|
      ensures Checked(s.threads[k].targets[t].c, s.threads[k].targets[t].rel)
    {
      assert ViewOk(s, s.threads[k].targets[t]);
    }
  }

  /** The thread that steps keeps only legitimate offsets. */
  lemma StepKeepsOps(w: W.Thread, e: W.Step)
    requires forall t :: 0 <= t < |w.targets| ==> Checked(w.targets[t].c, w.targets[t].rel)
    requires OpsOk(w) && W.Enabled(w, e)
    requires DrawsOn(w, e).Some? ==> TakenOk(w, e, w.targets[DrawsOn(w, e).value], Claimed(e))
    ensures W.Do(w, e).targets == w.targets && OpsOk(W.Do(w, e))
  {
  }

  lemma StepKeepsConfig(s: Sys, e: Step)
    requires Enabled(s, e)
    ensures Configured(Do(s, e))
    ensures |Do(s, e).threads| == |s.threads| && |Do(s, e).shared| == |s.shared|
    ensures forall k :: 0 <= k < |s.threads| ==> Do(s, e).threads[k].targets == s.threads[k].targets
    ensures forall x :: 0 <= x < |s.shared| ==> Do(s, e).shared[x].c == s.shared[x].c
  {
    var r := Do(s, e);
    forall k, t | 0 <= k < |r.threads| && 0 <= t < |r.threads[k].targets|
      ensures ViewOk(r, r.threads[k].targets[t])
    {
      assert ViewOk(s, s.threads[k].targets[t]);
    }
  }

  lemma StepInv(s: Sys, e: Step)
    requires Inv(s) && Enabled(s, e)
    ensures Inv(Do(s, e))
  {
    var r, w := Do(s, e), s.threads[e.k];
    StepKeepsConfig(s, e);
    ViewsChecked(s, e.k);
    assert ThreadOk(s, e.k);
    if DrawsOn(w, e.e).Some? {
      DrawOk(s, e);
    }
    StepKeepsOps(w, e.e);
    forall k | 0 <= k < |r.threads| ensures ThreadOk(r, k) {
      ViewsChecked(r, k);
      assert ThreadOk(s, k);
    }
  }

  lemma InitInv(s: Sys)
    requires Init(s) && Configured(s)
    ensures Inv(s)
  {
    forall x | 0 <= x < |s.shared| ensures SharedOk(s.shared[x]) {
      var h := s.shared[x];
      if h.c.stride > 0 && h.c.baseOffset + h.c.blockSize <= h.c.maxSize {
        SlotsPositive(h.c, h.c.baseOffset);
      }
    }
    forall k | 0 <= k < |s.threads| ensures ThreadOk(s, k) {
      ViewsChecked(s, k);
    }
  }

  lemma {:induction false} RunInv(s: Sys, es: seq<Step>)
    requires Init(s) && Configured(s) && Run(s, es)
    ensures Inv(Exec(s, es))
    decreases |es|
  {
    if es == [] {
      InitInv(s);
    } else {
      RunInv(s, es[..|es| - 1]);
      StepInv(Exec(s, es[..|es| - 1]), es[|es| - 1]);
    }
  }

  // ---- what it gives -----------------------------------------------------------------

  lemma {:induction false} RunKeepsConfig(s: Sys, es: seq<Step>)
    requires Configured(s) && Run(s, es)
    ensures Configured(Exec(s, es))
    ensures |Exec(s, es).threads| == |s.threads| && |Exec(s, es).shared| == |s.shared|
    ensures forall k :: 0 <= k < |s.threads| ==> Exec(s, es).threads[k].targets == s.threads[k].targets
    ensures forall x :: 0 <= x < |s.shared| ==> Exec(s, es).shared[x].c == s.shared[x].c
    decreases |es|
  {
    if es == [] {
    } else {
      RunKeepsConfig(s, es[..|es| - 1]);
      StepKeepsConfig(Exec(s, es[..|es| - 1]), es[|es| - 1]);
    }
  }

  lemma OffsetInBounds(v: W.TargetView, n: nat, o: int)
    requires Checked(v.c, v.rel) && OffsetOk(v, n, o)
    ensures InBounds(v.c, o)
  {
    if v.c.useRandomAlignment {
    } else if v.c.useInterlocked {
      var m: nat :| o == Slot(v.c, v.c.baseOffset, m);
      SlotInBounds(v.c, v.c.baseOffset, m);
    } else {
      SlotInBounds(v.c, ThreadBaseOffset(v.c, v.rel), n);
      MulMono(0, v.rel, v.c.threadOffset);
    }
  }

  /** Containment: in every access mode and under every interleaving, each op any thread
      holds lies with its whole block between base_offset and max_size. */
  lemma Containment(s: Sys, es: seq<Step>, k: nat, op: W.OpId)
    requires Init(s) && Configured(s) && Run(s, es)
    requires k < |Exec(s, es).threads| && op in Exec(s, es).threads[k].ops
    ensures var w := Exec(s, es).threads[k];
      op.t < |w.targets| && InBounds(w.targets[op.t].c, w.ops[op].offset)
  {
    hide Run, Exec, Init;
    RunInv(s, es);
    OpOk(Exec(s, es), k, op);
    var w := Exec(s, es).threads[k];
    OffsetInBounds(w.targets[op.t], op.i + w.ops[op].rounds, w.ops[op].offset);
  }

  /** What the invariant says of one op. */
  lemma OpOk(s: Sys, k: nat, op: W.OpId)
    requires Inv(s) && k < |s.threads| && op in s.threads[k].ops
    ensures var w := s.threads[k];
      && op.t < |w.targets| && Checked(w.targets[op.t].c, w.targets[op.t].rel)
      && OffsetOk(w.targets[op.t], op.i + w.ops[op].rounds, w.ops[op].offset)
  {
    assert ThreadOk(s, k);
    ViewsChecked(s, k);
  }

  lemma OffsetAligned(v: W.TargetView, n: nat, o: int, sector: int)
    requires Checked(v.c, v.rel) && OffsetOk(v, n, o) && sector > 0 && SectorAligned(v.c, sector)
    ensures (o - v.c.baseOffset) % sector == 0
  {
    var c := v.c;
    if c.useRandomAlignment {
      var draw := (o - c.baseOffset) / c.stride;
      assert o - c.baseOffset == draw * c.stride;
      MulOfMultiple(draw, c.stride, sector);
    } else if c.useInterlocked {
      var m: nat :| o == Slot(c, c.baseOffset, m);
      MulOfMultiple(m % Slots(c, c.baseOffset), c.stride, sector);
    } else {
      var start := ThreadBaseOffset(c, v.rel);
      MulOfMultiple(v.rel, c.threadOffset, sector);
      MulOfMultiple(n % Slots(c, start), c.stride, sector);
      SumOfMultiples(start - c.baseOffset, o - start, sector);
    }
  }

  /** Under O_DIRECT each offset is congruent to base_offset modulo the sector size. */
  lemma SectorAlignment(s: Sys, es: seq<Step>, k: nat, op: W.OpId, sector: int)
    requires Init(s) && Configured(s) && Run(s, es)
    requires k < |Exec(s, es).threads| && op in Exec(s, es).threads[k].ops
    requires op.t < |Exec(s, es).threads[k].targets| && sector > 0
    requires SectorAligned(Exec(s, es).threads[k].targets[op.t].c, sector)
    ensures var w := Exec(s, es).threads[k];
      (w.ops[op].offset - w.targets[op.t].c.baseOffset) % sector == 0
  {
    hide Run, Exec, Init;
    RunInv(s, es);
    OpOk(Exec(s, es), k, op);
    var w := Exec(s, es).threads[k];
    OffsetAligned(w.targets[op.t], op.i + w.ops[op].rounds, w.ops[op].offset, sector);
  }

  /** Sequential mode: after `rounds` resubmissions op `i` stands at slot `i + rounds` counted
      from its own thread's base, whatever the thread's other ops and other threads did. */
  lemma SequentialOffset(s: Sys, es: seq<Step>, k: nat, op: W.OpId)
    requires Init(s) && Configured(s) && Run(s, es)
    requires k < |Exec(s, es).threads| && op in Exec(s, es).threads[k].ops
    requires op.t < |Exec(s, es).threads[k].targets|
    requires !Exec(s, es).threads[k].targets[op.t].c.useRandomAlignment
    requires !Exec(s, es).threads[k].targets[op.t].c.useInterlocked
    ensures var w := Exec(s, es).threads[k]; var v := w.targets[op.t];
      && Checked(v.c, v.rel)
      && w.ops[op].offset == Slot(v.c, v.c.baseOffset + v.rel * v.c.threadOffset, op.i + w.ops[op].rounds)
  {
    hide Run, Exec, Init;
    RunInv(s, es);
    OpOk(Exec(s, es), k, op);
  }

  /** An op of a sequential target that has not come to the end of the target yet. */
  ghost predicate OnFirstLap(s: Sys, k: nat, op: W.OpId) {
    && k < |s.threads| && op in s.threads[k].ops && op.t < |s.threads[k].targets|
    && var c := s.threads[k].targets[op.t].c; var rel := s.threads[k].targets[op.t].rel;
    && !c.useRandomAlignment && !c.useInterlocked
    && c.baseOffset + rel * c.threadOffset + (op.i + s.threads[k].ops[op].rounds) * c.stride + c.blockSize <= c.maxSize
  }

  /** Before the end of the target op `i` after `rounds` resubmissions is `i + rounds` strides
      from its thread's own start, which lies `rel` thread strides from the base. */
  lemma FirstLap(s: Sys, es: seq<Step>, k: nat, op: W.OpId)
    requires Init(s) && Configured(s) && Run(s, es) && OnFirstLap(Exec(s, es), k, op)
    ensures var w := Exec(s, es).threads[k]; var v := w.targets[op.t];
      w.ops[op].offset == v.c.baseOffset + v.rel * v.c.threadOffset + (op.i + w.ops[op].rounds) * v.c.stride
  {
    hide Run, Exec, Init, Configured, Slot;
    SequentialOffset(s, es, k, op);
    var w := Exec(s, es).threads[k];
    var v := w.targets[op.t];
    SlotsExact(v.c, v.c.baseOffset + v.rel * v.c.threadOffset, op.i + w.ops[op].rounds);
  }

  /** Two threads on one target stay apart: ops with the same number, resubmitted equally often,
      stand exactly as many thread strides apart as their threads' relative ids. */
  lemma ThreadsApart(s: Sys, es: seq<Step>, j: nat, k: nat, a: W.OpId, b: W.OpId)
    requires Init(s) && Configured(s) && Run(s, es)
    requires OnFirstLap(Exec(s, es), j, a) && OnFirstLap(Exec(s, es), k, b) && a.i == b.i
    requires Exec(s, es).threads[j].ops[a].rounds == Exec(s, es).threads[k].ops[b].rounds
    requires Exec(s, es).threads[j].targets[a.t].c == Exec(s, es).threads[k].targets[b.t].c
    ensures var x, y := Exec(s, es).threads[j], Exec(s, es).threads[k];
      y.ops[b].offset - x.ops[a].offset
      == (y.targets[b.t].rel - x.targets[a.t].rel) * x.targets[a.t].c.threadOffset
  {
    hide Run, Exec, Init, Configured;
    FirstLap(s, es, j, a);
    FirstLap(s, es, k, b);
    var x, y := Exec(s, es).threads[j].targets[a.t], Exec(s, es).threads[k].targets[b.t];
    assert (y.rel - x.rel) * x.c.threadOffset == y.rel * x.c.threadOffset - x.rel * x.c.threadOffset;
  }

  /** The offsets taken from target `x`, by any thread, in the order of its mutex. */
  ghost function DrawLog(s: Sys, es: seq<Step>, x: nat): seq<int>
    requires Run(s, es)
    decreases |es|
  {
    if es == [] then []
    else
      var front, e := es[..|es| - 1], es[|es| - 1];
      DrawLog(s, front, x) + if DrawsFrom(Exec(s, front), e, x) then [Claimed(e.e)] else []
  }

  /** Interlocked mode: draw number `j` over all threads is slot `j + 1`, whatever the
      schedule. With EverySlotOnce, any `Slots` consecutive draws visit every slot once. */
  lemma {:induction false} InterlockedDraws(s: Sys, es: seq<Step>, x: nat)
    requires Init(s) && Configured(s) && Run(s, es) && x < |s.shared| && Interlocked(s.shared[x].c)
    requires s.shared[x].c.stride > 0 && s.shared[x].c.baseOffset + s.shared[x].c.blockSize <= s.shared[x].c.maxSize
    ensures x < |Exec(s, es).shared| && Exec(s, es).shared[x].draws == |DrawLog(s, es, x)|
    ensures forall j :: 0 <= j < |DrawLog(s, es, x)| ==>
              DrawLog(s, es, x)[j] == Slot(s.shared[x].c, s.shared[x].c.baseOffset, j + 1)
    decreases |es|
  {
    RunKeepsConfig(s, es);
    if es == [] {
    } else {
      hide Do, Enabled, Inv, Init, Configured, Slot;
      var front, e := es[..|es| - 1], es[|es| - 1];
      InterlockedDraws(s, front, x);
      RunKeepsConfig(s, front);
      RunInv(s, front);
      DrawCounts(Exec(s, front), e, x);
    }
  }

  /** Whether a step takes its offset from target `x`. */
  ghost predicate DrawsFrom(s: Sys, e: Step, x: nat)
    requires Enabled(s, e)
  {
    var d := DrawsOn(s.threads[e.k], e.e);
    d.Some? && s.threads[e.k].targets[d.value].shared == x
  }

  /** A step takes the next slot of target `x` and counts one draw, or leaves the count. */
  lemma DrawCounts(s: Sys, e: Step, x: nat)
    requires Inv(s) && Enabled(s, e) && x < |s.shared| && Interlocked(s.shared[x].c)
    requires s.shared[x].c.stride > 0 && s.shared[x].c.baseOffset + s.shared[x].c.blockSize <= s.shared[x].c.maxSize
    ensures x < |Do(s, e).shared|
    ensures Do(s, e).shared[x].draws == s.shared[x].draws + if DrawsFrom(s, e, x) then 1 else 0
    ensures DrawsFrom(s, e, x) ==>
              Claimed(e.e) == Slot(s.shared[x].c, s.shared[x].c.baseOffset, s.shared[x].draws + 1)
  {
    if DrawsOn(s.threads[e.k], e.e).Some? {
      DrawOk(s, e);
    }
  }

  /** Draw `i` of the window that starts at `first` is offset `o`. */
  predicate DrawnAt(log: seq<int>, first: nat, window: int, i: nat, o: int) {
    i < window && first + i < |log| && log[first + i] == o
  }

  /** Offset `o` is drawn exactly once in the window. */
  ghost predicate DrawnOnce(log: seq<int>, first: nat, window: int, o: int) {
    && (exists i: nat :: DrawnAt(log, first, window, i, o))
    && (forall a: nat, b: nat :: DrawnAt(log, first, window, a, o) && DrawnAt(log, first, window, b, o) ==> a == b)
  }

  /** In any window of `Slots` consecutive draws, over all threads and under any schedule,
      every slot of the target is drawn exactly once. */
  lemma InterlockedCoverage(s: Sys, es: seq<Step>, x: nat, first: nat, j: nat)
    requires Init(s) && Configured(s) && Run(s, es) && x < |s.shared| && Interlocked(s.shared[x].c)
    requires s.shared[x].c.stride > 0 && s.shared[x].c.baseOffset + s.shared[x].c.blockSize <= s.shared[x].c.maxSize
    requires j < Slots(s.shared[x].c, s.shared[x].c.baseOffset)
    requires first + Slots(s.shared[x].c, s.shared[x].c.baseOffset) <= |DrawLog(s, es, x)|
    ensures var c := s.shared[x].c;
      DrawnOnce(DrawLog(s, es, x), first, Slots(c, c.baseOffset), c.baseOffset + j * c.stride)
  {
    hide DrawLog, Run, Exec;
    InterlockedDraws(s, es, x);
    WindowCovers(s.shared[x].c, DrawLog(s, es, x), first, j);
  }

  lemma WindowCovers(c: Config, log: seq<int>, first: nat, j: nat)
    requires c.stride > 0 && c.baseOffset + c.blockSize <= c.maxSize && j < Slots(c, c.baseOffset)
    requires first + Slots(c, c.baseOffset) <= |log|
    requires forall n :: 0 <= n < |log| ==> log[n] == Slot(c, c.baseOffset, n + 1)
    ensures DrawnOnce(log, first, Slots(c, c.baseOffset), c.baseOffset + j * c.stride)
  {
    hide Slots, Slot;
    var k, o := Slots(c, c.baseOffset), c.baseOffset + j * c.stride;
    EverySlotOnce(c, c.baseOffset, first + 1, j);
    var i: nat :| Hits(c, c.baseOffset, first + 1, i, j);
    assert log[first + i] == Slot(c, c.baseOffset, first + i + 1) == o;
    assert DrawnAt(log, first, k, i, o);
    forall a: nat | DrawnAt(log, first, k, a, o) ensures a == i {
      assert log[first + a] == Slot(c, c.baseOffset, first + a + 1);
      assert Hits(c, c.baseOffset, first + 1, a, j);
    }
  }

  // ---- one thread of a run -----------------------------------------------------------

  ghost function Project(es: seq<Step>, k: nat): seq<W.Step> {
    if es == [] then []
    else Project(es[..|es| - 1], k) + if es[|es| - 1].k == k then [es[|es| - 1].e] else []
  }

  /** What one thread does in a run of all threads is a run of that thread: everything proved
      of Worker's runs holds of each thread under every interleaving. */
  lemma {:induction false} ThreadOfRun(s: Sys, es: seq<Step>, k: nat)
    requires Run(s, es) && k < |s.threads|
    ensures |Exec(s, es).threads| == |s.threads|
    ensures W.Run(s.threads[k], Project(es, k))
    ensures W.Exec(s.threads[k], Project(es, k)) == Exec(s, es).threads[k]
    decreases |es|
  {
    if es == [] {
    } else {
      var front, e := es[..|es| - 1], es[|es| - 1];
      ThreadOfRun(s, front, k);
      var p := Project(front, k);
      if e.k == k {
        assert Project(es, k) == p + [e.e];
        assert (p + [e.e])[..|p|] == p;
      } else {
        assert Project(es, k) == p;
      }
    }
  }

  function Overlaps(targets: seq<W.TargetView>): nat {
    if targets == [] then 0 else Overlaps(targets[..|targets| - 1]) + targets[|targets| - 1].overlap
  }

  /** All ops of the first `n` targets. */
  ghost function OpsUpTo(targets: seq<W.TargetView>, n: nat): (ops: set<W.OpId>)
    requires n <= |targets|
    ensures |ops| == Overlaps(targets[..n])
    ensures forall op :: op in ops <==> op.t < n && op.i < targets[op.t].overlap
    decreases n
  {
    if n == 0 then {}
    else
      assert targets[..n][..n - 1] == targets[..n - 1];
      OpsUpTo(targets, n - 1) + W.OpsOf(n - 1, targets[n - 1].overlap)
  }

  function InFlight(threads: seq<W.Thread>): nat {
    if threads == [] then 0 else InFlight(threads[..|threads| - 1]) + |threads[|threads| - 1].group.inFlight|
  }

  function AllOverlaps(threads: seq<W.Thread>): nat {
    if threads == [] then 0 else AllOverlaps(threads[..|threads| - 1]) + Overlaps(threads[|threads| - 1].targets)
  }

  lemma WorkingInFlight(w: W.Thread)
    requires W.DepthKept(w) && w.phase.Working?
    ensures |w.group.inFlight| == Overlaps(w.targets)
  {
    assert w.targets[..|w.targets|] == w.targets;
    assert w.group.inFlight == OpsUpTo(w.targets, |w.targets|);
  }

  lemma {:induction false} SumWorking(threads: seq<W.Thread>)
    requires forall k :: 0 <= k < |threads| ==> W.DepthKept(threads[k]) && threads[k].phase.Working?
    ensures InFlight(threads) == AllOverlaps(threads)
    decreases |threads|
  {
    if threads == [] {
    } else {
      SumWorking(threads[..|threads| - 1]);
      WorkingInFlight(threads[|threads| - 1]);
    }
  }

  /** When all threads are at the head of their work loops, the ops in flight are exactly
      the sum of all overlaps: the number the I/O manager was started with. */
  lemma TotalInFlight(s: Sys, es: seq<Step>)
    requires Init(s) && Run(s, es)
    requires forall k :: 0 <= k < |Exec(s, es).threads| ==> Exec(s, es).threads[k].phase.Working?
    ensures InFlight(Exec(s, es).threads) == AllOverlaps(Exec(s, es).threads)
  {
    forall k | 0 <= k < |Exec(s, es).threads| ensures W.DepthKept(Exec(s, es).threads[k]) {
      RunLength(s, es);
      ThreadOfRun(s, es, k);
      W.RunKeepsDepth(s.threads[k], Project(es, k));
    }
    SumWorking(Exec(s, es).threads);
  }

  lemma {:induction false} OverlapsFixed(a: seq<W.Thread>, b: seq<W.Thread>)
    requires |a| == |b| && forall k :: 0 <= k < |a| ==> a[k].targets == b[k].targets
    ensures AllOverlaps(a) == AllOverlaps(b)
    decreases |a|
  {
    if a == [] {
    } else {
      OverlapsFixed(a[..|a| - 1], b[..|b| - 1]);
    }
  }

  /** The number of operations for which the I/O manager is started is the number in flight
      whenever all threads stand at the head of their work loops. */
  lemma ManagerCapacity(s: Sys, es: seq<Step>)
    requires Init(s) && Configured(s) && Run(s, es)
    requires forall k :: 0 <= k < |Exec(s, es).threads| ==> Exec(s, es).threads[k].phase.Working?
    ensures InFlight(Exec(s, es).threads) == AllOverlaps(s.threads)
  {
    TotalInFlight(s, es);
    RunKeepsConfig(s, es);
    OverlapsFixed(s.threads, Exec(s, es).threads);
  }

  lemma {:induction false} RunLength(s: Sys, es: seq<Step>)
    requires Run(s, es)
    ensures |Exec(s, es).threads| == |s.threads|
    decreases |es|
  {
    if es == [] {
    } else {
      RunLength(s, es[..|es| - 1]);
    }
  }
}
