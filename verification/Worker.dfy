/** thread.cc: what one worker thread does, as steps over a value. Everything the thread
    reads from outside (clock, flags, random engine, which op completed) is in the step. */
module Worker {
  import Arithmetic
  import opened AsyncIo
  import opened Target
  import opened Tally
  import opened Wrappers

  /** Op number `i` of the thread's target number `t`. */
  datatype OpId = OpId(t: nat, i: nat)

  /** `time` is None until the first re-stamp: the constructors ignore their time stamp.
      `rounds` counts the resubmissions; the source keeps no such count. */
  datatype OpState = OpState(kind: Kind, offset: int, time: Option<nat>, rounds: nat)

  /** A TargetData: the thread's view of a target. `shared` names the Target itself. */
  datatype TargetView = TargetView(
    c: Config, overlap: nat, rel: nat, writePercentage: nat, maxThroughput: nat, shared: nat)

  datatype Options = Options(measure: Measure, startUs: nat, startMs: nat)

  datatype Phase =
    | Starting(t: nat)
    | Building(t: nat, i: nat, curr: int)
    | Working
    | Stopped

  datatype Thread = Thread(
    options: Options,
    targets: seq<TargetView>,
    phase: Phase,
    group: Group<OpId>,
    ops: map<OpId, OpState>,
    bytes: nat,
    results: seq<Results>)

  /** One pass of the work loop in which run_threads stays true. `throttleFlag` and `recordFlag`
      are the two reads of record_results, `garbage` the content of an unset time field. */
  datatype Pass = Pass(
    throttleFlag: bool, nowMs: nat, op: OpId, stampUs: nat, recordFlag: bool,
    garbage: nat, percentage: nat, newOffset: int)

  datatype Step =
    | StartTarget(startOffset: int)
    | Construct(percentage: nat, nextOffset: int)
    | FinishTarget
    | SubmitBatch
    | Loop(p: Pass)
    | Stop
    | StopAfterWait(op: OpId)

  function ChooseKind(percentage: nat, writePercentage: nat): Kind {
    if percentage <= writePercentage then Write else Read
  }

  /** 1 to 100 is what get_percentage yields: -w0 never writes and -w100 never reads. */
  lemma WriteShareExtremes(percentage: nat)
    requires 1 <= percentage <= 100
    ensures ChooseKind(percentage, 0) == Read && ChooseKind(percentage, 100) == Write
  {
  }

  /** The draws from 1 to 100 that make a write. */
  ghost function WriteDraws(writePercentage: nat): (s: set<nat>)
    ensures forall d :: d in s <==> 1 <= d <= 100 && ChooseKind(d, writePercentage) == Write
  {
    set d: nat | 1 <= d <= 100 && ChooseKind(d, writePercentage) == Write
  }

  /** -w n: exactly n of the hundred draws are writes, and a larger n takes none back. */
  lemma {:induction false} WriteShare(n: nat)
    requires n <= 100
    ensures |WriteDraws(n)| == n
    ensures n > 0 ==> WriteDraws(n - 1) < WriteDraws(n)
    decreases n
  {
    if n == 0 {
      assert WriteDraws(0) == {};
    } else {
      WriteShare(n - 1);
      assert WriteDraws(n) == WriteDraws(n - 1) + {n};
    }
  }

  function Block(w: Thread, t: nat): nat
    requires t < |w.targets| && w.targets[t].c.blockSize >= 0
  {
    w.targets[t].c.blockSize
  }

  /** The throttle limit is the first target's only. */
  function Limit(w: Thread): nat {
    if w.targets == [] then 0 else w.targets[0].maxThroughput
  }

  /** The test runs only while recording, with a limit, once a millisecond has passed. */
  predicate Tested(w: Thread, p: Pass) {
    p.throttleFlag && Limit(w) != 0 && SinceStart(p.nowMs, w.options.startMs) != 0
  }

  predicate Throttled(w: Thread, p: Pass) {
    Tested(w, p) && w.bytes / SinceStart(p.nowMs, w.options.startMs) > Limit(w)
  }

  predicate WellFormed(w: Thread) {
    && |w.results| == |w.targets|
    && (forall t :: 0 <= t < |w.targets| ==> w.targets[t].c.blockSize >= 0)
  }

  /** An op's stamps do not go back, and the OS hands back only ops that are in flight. */
  predicate Enabled(w: Thread, e: Step) {
    WellFormed(w) &&
    match e
    case StartTarget(_) => w.phase.Starting? && w.phase.t < |w.targets|
    case Construct(_, _) =>
      w.phase.Building? && w.phase.t < |w.targets| && w.phase.i < w.targets[w.phase.t].overlap
    case FinishTarget =>
      w.phase.Building? && w.phase.t < |w.targets| && w.phase.i >= w.targets[w.phase.t].overlap
    case SubmitBatch => w.phase.Starting? && w.phase.t >= |w.targets|
    case Loop(p) =>
      && w.phase.Working?
      && (!Throttled(w, p) ==>
            && p.op in w.group.inFlight && p.op in w.ops && p.op.t < |w.targets|
            && (w.ops[p.op].time.Some? ==> p.stampUs >= w.ops[p.op].time.value))
    case Stop => w.phase.Working?
    case StopAfterWait(op) => w.phase.Working? && op in w.group.inFlight
  }

  /** Lines 139-190: construct one op of the batch, enqueue it, and move to the next offset. */
  function Construction(w: Thread, percentage: nat, nextOffset: int): Thread
    requires Enabled(w, Construct(percentage, nextOffset))
  {
    var t, i := w.phase.t, w.phase.i;
    var kind := ChooseKind(percentage, w.targets[t].writePercentage);
    w.(ops := w.ops[OpId(t, i) := OpState(kind, w.phase.curr, None, 0)],
       group := w.group.Enqueue(OpId(t, i)),
       phase := Building(t, i + 1, nextOffset))
  }

  function OpTime(st: OpState, p: Pass): nat
    requires st.time.Some? ==> p.stampUs >= st.time.value
  {
    match st.time
    case Some(t) => p.stampUs - t
    case None => p.garbage
  }

  /** Lines 260-306. */
  function Recording(w: Thread, p: Pass): Thread
    requires Enabled(w, Loop(p)) && !Throttled(w, p)
  {
    if !p.recordFlag then w
    else
      var t := p.op.t;
      var st := w.ops[p.op];
      w.(bytes := w.bytes + Block(w, t),
         results := w.results[t := Record(w.results[t], w.options.measure, st.kind, Block(w, t),
                                          SinceStart(p.stampUs, w.options.startUs), OpTime(st, p))])
  }

  /** Lines 308-337: re-stamp, re-offset, choose read or write, enqueue and submit. */
  function Resubmission(w: Thread, p: Pass): Thread
    requires Enabled(w, Loop(p)) && !Throttled(w, p)
  {
    var st := w.ops[p.op];
    var kind := ChooseKind(p.percentage, w.targets[p.op.t].writePercentage);
    w.(ops := w.ops[p.op := OpState(kind, p.newOffset, Some(p.stampUs), st.rounds + 1)],
       group := w.group.Wait(p.op).Enqueue(p.op).Submit())
  }

  function OnePass(w: Thread, p: Pass): Thread
    requires Enabled(w, Loop(p))
  {
    if Throttled(w, p) then w
    else
      var r := Recording(w, p);
      Resubmission(w, p).(bytes := r.bytes, results := r.results)
  }

  function Do(w: Thread, e: Step): Thread
    requires Enabled(w, e)
  {
    match e
    case StartTarget(o) => w.(phase := Building(w.phase.t, 0, o))
    case Construct(percentage, o) => Construction(w, percentage, o)
    case FinishTarget => w.(phase := Starting(w.phase.t + 1))
    case SubmitBatch => w.(phase := Working, group := w.group.Submit())
    case Loop(p) => OnePass(w, p)
    case Stop => w.(phase := Stopped)
    case StopAfterWait(op) => w.(phase := Stopped, group := w.group.Wait(op))
  }

  predicate Run(w: Thread, es: seq<Step>)
    decreases |es|, 0
  {
    es == [] || (Run(w, es[..|es| - 1]) && Enabled(Exec(w, es[..|es| - 1]), es[|es| - 1]))
  }

  function Exec(w: Thread, es: seq<Step>): Thread
    requires Run(w, es)
    decreases |es|, 1
  {
    if es == [] then w else Do(Exec(w, es[..|es| - 1]), es[|es| - 1])
  }

  predicate Init(w: Thread) {
    && WellFormed(w) && w.phase == Starting(0)
    && w.group == Group([], {}) && w.ops == map[] && w.bytes == 0
    && (forall t :: 0 <= t < |w.results| ==> w.results[t] == EMPTY)
  }

  // ---- queue depth -------------------------------------------------------------------

  /** The ops of the thread: `overlap` for each target. */
  ghost predicate IsOp(w: Thread, op: OpId) {
    op.t < |w.targets| && op.i < w.targets[op.t].overlap
  }

  /** The ops already constructed while the first batch is built. */
  ghost predicate IsBuilt(w: Thread, op: OpId) {
    match w.phase
    case Starting(t) => IsOp(w, op) && op.t < t
    case Building(t, i, _) => IsOp(w, op) && (op.t < t || (op.t == t && op.i < i))
    case _ => IsOp(w, op)
  }

  /** All ops of the thread are in flight. */
  ghost predicate AllInFlight(w: Thread) {
    w.group.queue == [] && forall op :: op in w.group.inFlight <==> IsOp(w, op)
  }

  /** No op is queued, and at most one is not in flight: the one waited for when run_threads
      was found false. */
  ghost predicate AtMostOneOut(w: Thread) {
    && w.group.queue == []
    && (forall op :: op in w.group.inFlight ==> IsOp(w, op))
    && (forall a, b :: IsOp(w, a) && a !in w.group.inFlight && IsOp(w, b) && b !in w.group.inFlight ==> a == b)
  }

  /** While the batch is built every constructed op is queued once and none is in flight; at
      the head of the work loop the queue is empty and exactly `overlap` ops of each
      target are in flight. */
  ghost predicate DepthKept(w: Thread) {
    && WellFormed(w)
    && (forall op :: op in w.ops <==> IsBuilt(w, op))
    && (w.phase.Starting? || w.phase.Building? ==>
          && Distinct(w.group.queue) && w.group.inFlight == {}
          && (forall op :: op in w.group.queue <==> IsBuilt(w, op)))
    && (w.phase.Building? ==> w.phase.t < |w.targets| && w.phase.i <= w.targets[w.phase.t].overlap)
    && (w.phase.Working? ==> AllInFlight(w))
    && (w.phase.Stopped? ==> AtMostOneOut(w))
  }

  lemma ConstructKeepsDepth(w: Thread, percentage: nat, o: int)
    requires DepthKept(w) && Enabled(w, Construct(percentage, o))
    ensures DepthKept(Construction(w, percentage, o))
    ensures w.group.Held(OpId(w.phase.t, w.phase.i))
  {
    var r := Construction(w, percentage, o);
    assert OpId(w.phase.t, w.phase.i) !in w.group.queue;
    assert forall op :: op in r.group.queue <==> op in w.group.queue || op == OpId(w.phase.t, w.phase.i);
  }

  lemma PassKeepsDepth(w: Thread, p: Pass)
    requires DepthKept(w) && Enabled(w, Loop(p))
    ensures DepthKept(OnePass(w, p)) && OnePass(w, p).group == w.group
  {
    if !Throttled(w, p) {
      var g := w.group.Wait(p.op).Enqueue(p.op);
      assert g.queue == [p.op];
      assert g.Submit().inFlight == w.group.inFlight;
    }
  }

  lemma StepKeepsDepth(w: Thread, e: Step)
    requires DepthKept(w) && Enabled(w, e)
    ensures DepthKept(Do(w, e))
  {
    match e
    case Construct(percentage, o) => ConstructKeepsDepth(w, percentage, o);
    case Loop(p) => PassKeepsDepth(w, p);
    case SubmitBatch =>
      assert forall op :: op in Do(w, e).group.inFlight <==> op in w.group.queue;
    case _ =>
  }

  lemma {:induction false} RunKeepsDepth(w: Thread, es: seq<Step>)
    requires Init(w) && Run(w, es)
    ensures DepthKept(Exec(w, es))
  {
    if es == [] {
    } else {
      RunKeepsDepth(w, es[..|es| - 1]);
      StepKeepsDepth(Exec(w, es[..|es| - 1]), es[|es| - 1]);
    }
  }

  /** The ops of one target, as a set. */
  ghost function OpsOf(t: nat, n: nat): (s: set<OpId>)
    ensures |s| == n
    ensures forall op :: op in s <==> op.t == t && op.i < n
  {
    if n == 0 then {} else OpsOf(t, n - 1) + {OpId(t, n - 1)}
  }

  /** A thread never changes its targets or its options. */
  lemma {:induction false} RunKeepsConfig(w: Thread, es: seq<Step>)
    requires Run(w, es)
    ensures Exec(w, es).targets == w.targets && Exec(w, es).options == w.options
    ensures |Exec(w, es).results| == |w.results|
    decreases |es|
  {
    if es == [] {
    } else {
      RunKeepsConfig(w, es[..|es| - 1]);
    }
  }

  /** At every head of the work loop, through throttling and any order of completion, the
      number of ops in flight on each target is its overlap. */
  lemma QueueDepth(w: Thread, es: seq<Step>, t: nat)
    requires Init(w) && Run(w, es) && Exec(w, es).phase.Working? && t < |w.targets|
    ensures Exec(w, es).group.queue == []
    ensures |(set op | op in Exec(w, es).group.inFlight && op.t == t)| == w.targets[t].overlap
  {
    RunKeepsConfig(w, es);
    RunKeepsDepth(w, es);
    var r := Exec(w, es);
    assert (set op | op in r.group.inFlight && op.t == t) == OpsOf(t, w.targets[t].overlap);
  }

  // ---- what is recorded --------------------------------------------------------------

  function BytesOf(rs: seq<Results>): nat {
    if rs == [] then 0 else BytesOf(rs[..|rs| - 1]) + rs[|rs| - 1].bytes
  }

  lemma {:induction false} BytesUpdate(rs: seq<Results>, t: nat, r: Results)
    requires t < |rs|
    ensures BytesOf(rs[t := r]) + rs[t].bytes == BytesOf(rs) + r.bytes
  {
    var n := |rs| - 1;
    assert rs[t := r][..n] == if t == n then rs[..n] else rs[..n][t := r];
    if t == n {
    } else {
      BytesUpdate(rs[..n], t, r);
    }
  }

  ghost predicate Recorded(w: Thread) {
    && WellFormed(w)
    && (forall t :: 0 <= t < |w.results| ==> Conserved(w.results[t], w.options.measure, Block(w, t)))
    && w.bytes == BytesOf(w.results)
  }

  lemma StepRecords(w: Thread, e: Step)
    requires Recorded(w) && Enabled(w, e)
    ensures Recorded(Do(w, e))
  {
    if e.Loop? && !Throttled(w, e.p) && e.p.recordFlag {
      var p := e.p;
      var t := p.op.t;
      var st := w.ops[p.op];
      var since := SinceStart(p.stampUs, w.options.startUs);
      RecordConserves(w.results[t], w.options.measure, st.kind, Block(w, t), since, OpTime(st, p));
      hide Conserved, Record, BytesOf, OpTime;
      BytesUpdate(w.results, t, Recording(w, p).results[t]);
    }
  }

  lemma {:induction false} EmptyBytes(rs: seq<Results>)
    requires forall t :: 0 <= t < |rs| ==> rs[t] == EMPTY
    ensures BytesOf(rs) == 0
  {
    if rs == [] {
    } else {
      EmptyBytes(rs[..|rs| - 1]);
    }
  }

  /** In every reachable state and for every target: bytes are blocks, totals are reads plus
      writes, each measurement holds one sample per recorded op, and the thread's own byte
      count, which the throttle reads, is the sum over its targets. */
  lemma {:induction false} RunRecords(w: Thread, es: seq<Step>)
    requires Init(w) && Run(w, es)
    ensures Recorded(Exec(w, es))
    decreases |es|
  {
    if es == [] {
      EmptyBytes(w.results);
    } else {
      RunRecords(w, es[..|es| - 1]);
      StepRecords(Exec(w, es[..|es| - 1]), es[|es| - 1]);
    }
  }

  // ---- throttling --------------------------------------------------------------------

  /** The bytes of a pass that records although the throttle test did not run in it. */
  function UntestedBytes(w: Thread, e: Step): nat
    requires Enabled(w, e)
  {
    if e.Loop? && !Tested(w, e.p) && e.p.recordFlag then Block(w, e.p.op.t) else 0
  }

  predicate TestedRecord(w: Thread, e: Step)
    requires Enabled(w, e)
  {
    e.Loop? && Tested(w, e.p) && !Throttled(w, e.p) && e.p.recordFlag
  }

  function Untested(w: Thread, es: seq<Step>): nat
    requires Run(w, es)
  {
    if es == [] then 0
    else
      var r := Exec(w, es[..|es| - 1]);
      Untested(w, es[..|es| - 1]) + UntestedBytes(r, es[|es| - 1])
  }

  /** Milliseconds since the start at the last recorded pass that was tested; 0 if none. */
  function LastTested(w: Thread, es: seq<Step>): nat
    requires Run(w, es)
  {
    if es == [] then 0
    else
      var r, e := Exec(w, es[..|es| - 1]), es[|es| - 1];
      if TestedRecord(r, e) then SinceStart(e.p.nowMs, r.options.startMs) else LastTested(w, es[..|es| - 1])
  }

  /** The test lets a pass through only below the limit. */
  lemma PassedTest(bytes: nat, elapsed: nat, limit: nat)
    requires elapsed > 0 && bytes / elapsed <= limit
    ensures bytes < (limit + 1) * elapsed
  {
    if (limit + 1) * elapsed <= bytes {
      Arithmetic.DivFits(limit + 1, bytes, elapsed);
    }
  }

  /** Exactly when: a pass is refused, which leaves everything as it was, if and only if it has
      seen the recording on, the thread's first target has a limit, and the bytes so far are at
      least (limit + 1) times the milliseconds since the start, of which there is one at least. */
  lemma ThrottledExactly(w: Thread, p: Pass)
    requires Enabled(w, Loop(p)) && p.nowMs >= w.options.startMs
    ensures Do(w, Loop(p)) == w <==>
      && p.throttleFlag && w.targets != [] && w.targets[0].maxThroughput > 0 && p.nowMs > w.options.startMs
      && w.bytes >= (w.targets[0].maxThroughput + 1) * (p.nowMs - w.options.startMs)
  {
    RefusedChangesNothing(w, p);
    if p.nowMs > w.options.startMs {
      Arithmetic.DivFits(Limit(w) + 1, w.bytes, p.nowMs - w.options.startMs);
    }
  }

  /** A pass that is let through counts one more round of its op. */
  lemma RefusedChangesNothing(w: Thread, p: Pass)
    requires Enabled(w, Loop(p))
    ensures Do(w, Loop(p)) == w <==> Throttled(w, p)
  {
    if !Throttled(w, p) {
      assert Do(w, Loop(p)).ops[p.op].rounds == w.ops[p.op].rounds + 1;
    }
  }

  /** Progress: as long as no bytes are added, a pass is let through as soon as its clock has
      gone on for more than bytes / (limit + 1) milliseconds. */
  lemma ThrottleEnds(w: Thread, p: Pass)
    requires Enabled(w, Loop(p)) && p.nowMs >= w.options.startMs && w.targets != []
    requires p.nowMs - w.options.startMs > w.bytes / (w.targets[0].maxThroughput + 1)
    ensures Do(w, Loop(p)) != w
  {
    ThrottledExactly(w, p);
    var elapsed, limit := p.nowMs - w.options.startMs, w.targets[0].maxThroughput;
    Arithmetic.DivFits(elapsed, w.bytes, limit + 1);
  }

  /** One tested pass: below the limit's line before, at most one block above it after. */
  lemma TestedPassBound(w: Thread, p: Pass)
    requires Enabled(w, Loop(p)) && TestedRecord(w, Loop(p))
    ensures w.bytes < (Limit(w) + 1) * SinceStart(p.nowMs, w.options.startMs)
    ensures Do(w, Loop(p)).bytes == w.bytes + Block(w, p.op.t)
  {
    PassedTest(w.bytes, SinceStart(p.nowMs, w.options.startMs), Limit(w));
  }

  /** No recorded pass skips the test once some recorded pass has been tested. */
  predicate StartUpFirst(w: Thread, es: seq<Step>)
    requires Run(w, es)
  {
    es == [] ||
    var front := es[..|es| - 1];
    && StartUpFirst(w, front)
    && (UntestedBytes(Exec(w, front), es[|es| - 1]) > 0 ==> LastTested(w, front) == 0)
  }

  /** Over a whole run the thread's bytes are the start-up bytes, or stay below the line
      (limit + 1) * elapsed plus one block. */
  lemma {:induction false} ThrottleBound(w: Thread, es: seq<Step>, largest: nat)
    requires Init(w) && Run(w, es) && StartUpFirst(w, es)
    requires forall t :: 0 <= t < |w.targets| ==> w.targets[t].c.blockSize <= largest
    ensures LastTested(w, es) == 0 ==> Exec(w, es).bytes == Untested(w, es)
    ensures LastTested(w, es) > 0 ==> Exec(w, es).bytes < (Limit(w) + 1) * LastTested(w, es) + largest
    decreases |es|
  {
    hide Do, Enabled, Tested, TestedRecord, UntestedBytes;
    if es == [] {
    } else {
      var front, e := es[..|es| - 1], es[|es| - 1];
      ThrottleBound(w, front, largest);
      RunKeepsConfig(w, front);
      ThrottleStep(Exec(w, front), e, LastTested(w, front), Untested(w, front), largest);
    }
  }

  /** One step keeps both halves of the bound. */
  lemma ThrottleStep(w: Thread, e: Step, last: nat, untested: nat, largest: nat)
    requires Enabled(w, e) && (UntestedBytes(w, e) > 0 ==> last == 0)
    requires forall t :: 0 <= t < |w.targets| ==> w.targets[t].c.blockSize <= largest
    requires last == 0 ==> w.bytes == untested
    requires last > 0 ==> w.bytes < (Limit(w) + 1) * last + largest
    ensures var last' := if TestedRecord(w, e) then SinceStart(e.p.nowMs, w.options.startMs) else last;
      && (last' == 0 ==> Do(w, e).bytes == untested + UntestedBytes(w, e))
      && (last' > 0 ==> Do(w, e).bytes < (Limit(w) + 1) * last' + largest)
  {
    if TestedRecord(w, e) {
      TestedPassBound(w, e.p);
    }
  }

  /** What the two clocks and the one-time rise of record_results guarantee: a flag seen on
      earlier and seen on later was on in between, and time does not run backwards. */
  predicate FlagAndClock(es: seq<Step>) {
    forall i, j :: 0 <= i < j < |es| && es[i].Loop? && es[j].Loop? ==>
      && (es[i].p.throttleFlag && es[j].p.recordFlag ==> es[j].p.throttleFlag)
      && es[i].p.nowMs <= es[j].p.nowMs
  }

  /** Where the flag has been seen on, the clock has passed the start. */
  predicate ClockStarted(es: seq<Step>, startMs: nat) {
    forall k :: 0 <= k < |es| && es[k].Loop? && es[k].p.throttleFlag ==> startMs <= es[k].p.nowMs
  }

  lemma {:induction false} TestedBefore(w: Thread, es: seq<Step>) returns (i: nat)
    requires Run(w, es) && LastTested(w, es) > 0
    ensures i < |es| && es[i].Loop? && es[i].p.throttleFlag
    ensures Limit(w) != 0 && es[i].p.nowMs != w.options.startMs
    decreases |es|
  {
    var front, e := es[..|es| - 1], es[|es| - 1];
    RunKeepsConfig(w, front);
    if TestedRecord(Exec(w, front), e) {
      i := |es| - 1;
    } else {
      i := TestedBefore(w, front);
    }
  }

  lemma {:induction false} FlagGivesStartUpFirst(w: Thread, es: seq<Step>)
    requires Run(w, es) && FlagAndClock(es) && ClockStarted(es, w.options.startMs)
    ensures StartUpFirst(w, es)
    decreases |es|
  {
    if es == [] {
    } else {
      var front, e := es[..|es| - 1], es[|es| - 1];
      assert forall k :: 0 <= k < |front| ==> front[k] == es[k];
      FlagGivesStartUpFirst(w, front);
      RunKeepsConfig(w, front);
      if UntestedBytes(Exec(w, front), e) > 0 && LastTested(w, front) > 0 {
        var i := TestedBefore(w, front);
      }
    }
  }

  // ---- latency -----------------------------------------------------------------------

  /** A pass that handles a completion and records it. */
  predicate Records(w: Thread, e: Step) {
    e.Loop? && Enabled(w, e) && !Throttled(w, e.p) && e.p.recordFlag
  }

  /** The latency a step records for `op`, when the op has been stamped before. */
  function LatencyOf(w: Thread, e: Step, op: OpId): nat {
    if Records(w, e) && e.p.op == op && w.ops[op].time.Some? then e.p.stampUs - w.ops[op].time.value else 0
  }

  /** What a step records for target `t` out of a time field that was never set. */
  function GarbageOf(w: Thread, e: Step, t: nat): nat {
    if Records(w, e) && e.p.op.t == t && w.ops[e.p.op].time.None? then e.p.garbage else 0
  }

  function OpLatency(w: Thread, es: seq<Step>, op: OpId): nat
    requires Run(w, es)
  {
    if es == [] then 0
    else OpLatency(w, es[..|es| - 1], op) + LatencyOf(Exec(w, es[..|es| - 1]), es[|es| - 1], op)
  }

  function Garbage(w: Thread, es: seq<Step>, t: nat): nat
    requires Run(w, es)
  {
    if es == [] then 0
    else Garbage(w, es[..|es| - 1], t) + GarbageOf(Exec(w, es[..|es| - 1]), es[|es| - 1], t)
  }

  predicate StampsWithin(es: seq<Step>, from: nat, to: nat) {
    forall k :: 0 <= k < |es| && es[k].Loop? ==> from <= es[k].p.stampUs <= to
  }

  /** `latency` is covered by the time from `from` to the op's last stamp. */
  predicate Covered(w: Thread, op: OpId, latency: nat, from: nat, to: nat) {
    if op in w.ops && w.ops[op].time.Some? then
      from <= w.ops[op].time.value <= to && latency <= w.ops[op].time.value - from
    else latency == 0
  }

  lemma StepCovers(w: Thread, e: Step, op: OpId, latency: nat, from: nat, to: nat)
    requires DepthKept(w) && Enabled(w, e) && Covered(w, op, latency, from, to)
    requires e.Loop? ==> from <= e.p.stampUs <= to
    ensures Covered(Do(w, e), op, latency + LatencyOf(w, e, op), from, to)
  {
  }

  /** One op's recorded latencies telescope: together they are no longer than from the
      beginning to its last stamp, for any on/off pattern of recording. */
  lemma {:induction false} LatencyTelescopes(w: Thread, es: seq<Step>, op: OpId, from: nat, to: nat)
    requires Init(w) && Run(w, es) && from <= to && StampsWithin(es, from, to)
    ensures Covered(Exec(w, es), op, OpLatency(w, es, op), from, to)
    decreases |es|
  {
    if es == [] {
    } else {
      var front, e := es[..|es| - 1], es[|es| - 1];
      assert forall k :: 0 <= k < |front| ==> front[k] == es[k];
      LatencyTelescopes(w, front, op, from, to);
      RunKeepsDepth(w, front);
      StepCovers(Exec(w, front), e, op, OpLatency(w, front, op), from, to);
    }
  }

  function OpsLatency(w: Thread, es: seq<Step>, t: nat, n: nat): nat
    requires Run(w, es)
    decreases n
  {
    if n == 0 then 0 else OpsLatency(w, es, t, n - 1) + OpLatency(w, es, OpId(t, n - 1))
  }

  lemma {:induction false} OpsLatencyBound(w: Thread, es: seq<Step>, t: nat, n: nat, from: nat, to: nat)
    requires Init(w) && Run(w, es) && from <= to && StampsWithin(es, from, to)
    ensures OpsLatency(w, es, t, n) <= n * (to - from)
    decreases n
  {
    hide Do, Enabled, Init, Exec, OpLatency;
    if n == 0 {
    } else {
      OpsLatencyBound(w, es, t, n - 1, from, to);
      LatencyTelescopes(w, es, OpId(t, n - 1), from, to);
      assert n * (to - from) == (n - 1) * (to - from) + (to - from);
    }
  }

  /** A step adds its latency to the sum over the ops of its target. */
  lemma {:induction false} OpsLatencyStep(w: Thread, es: seq<Step>, t: nat, n: nat)
    requires Run(w, es) && es != []
    ensures var front, e := es[..|es| - 1], es[|es| - 1]; var r := Exec(w, front);
      OpsLatency(w, es, t, n) == OpsLatency(w, front, t, n)
        + if e.Loop? && e.p.op.t == t && e.p.op.i < n then LatencyOf(r, e, e.p.op) else 0
    decreases n
  {
    hide Do, Enabled, Throttled;
    if n == 0 {
    } else {
      OpsLatencyStep(w, es, t, n - 1);
    }
  }

  /** All latency samples the thread has recorded for target `t`, reads and writes, added up. */
  function LatencyTotal(w: Thread, t: nat): nat {
    if t < |w.results| then TotalLatency(w.results[t]) else 0
  }

  lemma StepRecordsLatency(w: Thread, e: Step, t: nat)
    requires Enabled(w, e) && t < |w.targets| && w.options.measure.latency
    ensures LatencyTotal(Do(w, e), t) == LatencyTotal(w, t) + GarbageOf(w, e, t)
              + if e.Loop? && e.p.op.t == t then LatencyOf(w, e, e.p.op) else 0
  {
    hide Record, TotalLatency, SinceStart;
    if Records(w, e) {
      var p := e.p;
      var st := w.ops[p.op];
      RecordTotal(w.results[p.op.t], w.options.measure, st.kind, Block(w, p.op.t),
                  SinceStart(p.stampUs, w.options.startUs), OpTime(st, p));
    }
  }

  /** The latency samples of a target are the telescoping parts of its ops plus garbage. */
  lemma {:induction false} LatencyRecorded(w: Thread, es: seq<Step>, t: nat)
    requires Init(w) && Run(w, es) && t < |w.targets| && w.options.measure.latency
    ensures LatencyTotal(Exec(w, es), t) == OpsLatency(w, es, t, w.targets[t].overlap) + Garbage(w, es, t)
    decreases |es|
  {
    hide Do, Enabled, OpsLatency, Exec, Garbage, LatencyTotal, Init;
    if es == [] {
      EmptyRun(w, t);
      LatencyNone(w, t);
      NoLatency(w, t, w.targets[t].overlap);
    } else {
      LatencyRecorded(w, es[..|es| - 1], t);
      LatencyLast(w, es, t);
    }
  }

  lemma LatencyNone(w: Thread, t: nat)
    requires Init(w) && t < |w.targets|
    ensures LatencyTotal(w, t) == 0
  {
    assert w.results[t] == EMPTY;
  }

  lemma EmptyRun(w: Thread, t: nat)
    ensures Run(w, []) && Exec(w, []) == w && Garbage(w, [], t) == 0
  {
    hide Do, Enabled;
  }

  lemma LatencyLast(w: Thread, es: seq<Step>, t: nat)
    requires Init(w) && Run(w, es) && es != [] && t < |w.targets| && w.options.measure.latency
    ensures var front := es[..|es| - 1];
      LatencyTotal(Exec(w, es), t) - LatencyTotal(Exec(w, front), t)
      == OpsLatency(w, es, t, w.targets[t].overlap) - OpsLatency(w, front, t, w.targets[t].overlap)
         + Garbage(w, es, t) - Garbage(w, front, t)
  {
    hide Do, Enabled, LatencyOf, GarbageOf, OpsLatency, LatencyTotal, Init;
    var front, e := es[..|es| - 1], es[|es| - 1];
    RunKeepsConfig(w, front);
    StepRecordsLatency(Exec(w, front), e, t);
    OpsLatencyStep(w, es, t, w.targets[t].overlap);
    CompletedIsOp(w, front, e, t);
  }

  /** A completion belongs to one of the ops of its target. */
  lemma CompletedIsOp(w: Thread, front: seq<Step>, e: Step, t: nat)
    requires Init(w) && Run(w, front) && Enabled(Exec(w, front), e) && t < |w.targets|
    ensures e.Loop? && e.p.op.t == t && e.p.op.i >= w.targets[t].overlap ==>
              LatencyOf(Exec(w, front), e, e.p.op) == 0
  {
    RunKeepsDepth(w, front);
    RunKeepsConfig(w, front);
  }

  lemma {:induction false} NoLatency(w: Thread, t: nat, n: nat)
    ensures OpsLatency(w, [], t, n) == 0
    decreases n
  {
    if n == 0 {
    } else {
      NoLatency(w, t, n - 1);
    }
  }

  /** Little's law as a bound: apart from samples of ops that were never stamped, the
      latencies recorded for a target add up to at most overlap times the elapsed time. */
  lemma LittlesLaw(w: Thread, es: seq<Step>, t: nat, from: nat, to: nat)
    requires Init(w) && Run(w, es) && t < |w.targets| && w.options.measure.latency
    requires from <= to && StampsWithin(es, from, to)
    ensures LatencyTotal(Exec(w, es), t) <= w.targets[t].overlap * (to - from) + Garbage(w, es, t)
  {
    hide *;
    LatencyRecorded(w, es, t);
    OpsLatencyBound(w, es, t, w.targets[t].overlap, from, to);
  }
}
