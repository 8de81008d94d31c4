/** The start, record and stop protocol between a Job and its threads, over the flags they
    share. Each step is one access to a flag, or one section under thread_mutex. */
module Protocol {
  import opened Wrappers

  datatype JobPhase =
    | Initializing
    | WarmingUp
    | Ready
    | Started
    | Recording
    | Stopped(woken: bool)
    | Measured
    | Joining(next: nat)
    | Failed
    | Succeeded

  datatype Pc =
    | Setup
    | Submitted
    | Counted
    | Head
    | Testing
    | Timing
    | InPass
    | Waited
    | Passed
    | Stamped
    | Record
    | Resubmit
    | Aborting
    | AbortMarked
    | Ended

  /** What one pass of the work loop has seen: the flag read for the throttle test, the clock
      in milliseconds, and the flag read before recording. */
  datatype Seen = Seen(throttleFlag: bool, nowMs: nat, recordFlag: bool)

  /** `flag` and `time` belong to the pass under way. `submitted`, `recorded`, `early` and `log`
      only observe: the initial batch has been submitted, how many ops were recorded, how many
      of those were stamped before the start, and what the finished passes have seen. */
  datatype Worker = Worker(
    pc: Pc,
    counted: bool,
    stamp: nat,
    flag: bool,
    time: nat,
    submitted: bool,
    recorded: nat,
    early: nat,
    log: seq<Seen>)

  const FRESH := Worker(Setup, false, 0, false, 0, false, 0, 0, [])

  /** The clock counts microseconds. */
  datatype State = State(
    phase: JobPhase,
    runThreads: bool,
    recordResults: bool,
    threadError: bool,
    threadCounter: nat,
    now: nat,
    startTime: Option<nat>,
    workers: seq<Worker>)

  datatype JobStep =
    | Initialized(warmup: bool)
    | InitFailed
    | WarmupOver(woken: bool)
    | TakeStartTime
    | StartRecording
    | StopRecording(woken: bool)
    | CheckErrors
    | StopThreads
    | Join
    | Finish

  datatype WorkerStep =
    | SubmitBatch
    | Count
    | SetInitialized
    | EnterPass
    | ReadThrottle
    | TakeTime(throttled: bool)
    | WaitForOp
    | CheckRun
    | TakeStamp
    | ReadRecord
    | RecordOp
    | ResubmitOp
    | Abort
    | MarkError
    | EndAbort

  datatype Step = OfJob(j: JobStep) | OfWorker(i: nat, w: WorkerStep) | Tick(d: nat)

  predicate Init(s: State) {
    && s.phase == Initializing && s.runThreads && !s.recordResults && !s.threadError
    && s.threadCounter == 0 && s.startTime == None
    && forall i :: 0 <= i < |s.workers| ==> s.workers[i] == FRESH
  }

  // ---- the Job: job.cc, lines 341 to 443 -------------------------------------------------

  predicate JobEnabled(s: State, e: JobStep) {
    match e
    case Initialized(_) => s.phase == Initializing && s.threadCounter >= |s.workers| && !s.threadError
    case InitFailed => s.phase == Initializing && (s.threadError || s.threadCounter < |s.workers|)
    case WarmupOver(_) => s.phase == WarmingUp
    case TakeStartTime => s.phase == Ready
    case StartRecording => s.phase == Started
    case StopRecording(_) => s.phase == Recording
    case CheckErrors => s.phase.Stopped?
    case StopThreads => s.phase == Measured
    case Join => s.phase.Joining? && s.phase.next < |s.workers| && s.workers[s.phase.next].pc == Ended
    case Finish => s.phase.Joining? && s.phase.next >= |s.workers|
  }

  function JobDo(s: State, e: JobStep): State
    requires JobEnabled(s, e)
  {
    match e
    case Initialized(warmup) => s.(phase := if warmup then WarmingUp else Ready)
    case InitFailed => s.(phase := Failed)
    case WarmupOver(woken) => s.(phase := if woken || s.threadError then Failed else Ready)
    case TakeStartTime => s.(phase := Started, startTime := Some(s.now))
    case StartRecording => s.(phase := Recording, recordResults := true)
    case StopRecording(woken) => s.(phase := Stopped(woken), recordResults := false)
    case CheckErrors => s.(phase := if s.phase.woken || s.threadError then Failed else Measured)
    case StopThreads => s.(phase := Joining(0), runThreads := false)
    case Join => s.(phase := Joining(s.phase.next + 1))
    case Finish => s.(phase := Succeeded)
  }

  // ---- a thread: thread.cc, lines 25 to 31 and 193 to 338 -------------------------------

  predicate WorkerEnabled(s: State, i: nat, e: WorkerStep) {
    i < |s.workers| &&
    var pc := s.workers[i].pc;
    match e
    case SubmitBatch => pc == Setup
    case Count => pc == Submitted
    case SetInitialized => pc == Counted
    case EnterPass => pc == Head
    case ReadThrottle => pc == Testing
    case TakeTime(_) => pc == Timing
    case WaitForOp => pc == InPass
    case CheckRun => pc == Waited
    case TakeStamp => pc == Passed
    case ReadRecord => pc == Stamped
    case RecordOp => pc == Record
    case ResubmitOp => pc == Resubmit
    case Abort => pc == Setup || pc == Passed || pc == Resubmit
    case MarkError => pc == Aborting
    case EndAbort => pc == AbortMarked
  }

  /** An op stamped at `w.stamp` is early when recording had not begun by then. */
  predicate Early(s: State, w: Worker) {
    s.startTime.Some? && w.stamp < s.startTime.value
  }

  function Moved(s: State, w: Worker, e: WorkerStep): Worker {
    match e
    case SubmitBatch => w.(pc := Submitted, submitted := true)
    case Count => w.(pc := Counted, counted := true)
    case SetInitialized => w.(pc := Head)
    case EnterPass => w.(pc := if s.runThreads then Testing else Ended)
    case ReadThrottle => w.(pc := if s.recordResults then Timing else InPass, flag := s.recordResults, time := s.now)
    case TakeTime(throttled) =>
      var log := if throttled then w.log + [Seen(w.flag, s.now / 1000, w.flag)] else w.log;
      w.(pc := if throttled then Head else InPass, time := s.now, log := log)
    case WaitForOp => w.(pc := Waited)
    case CheckRun => w.(pc := if s.runThreads then Passed else Ended)
    case TakeStamp => w.(pc := Stamped, stamp := s.now)
    case ReadRecord =>
      w.(pc := if s.recordResults then Record else Resubmit,
         log := w.log + [Seen(w.flag, w.time / 1000, s.recordResults)])
    case RecordOp => w.(pc := Resubmit, recorded := w.recorded + 1, early := w.early + if Early(s, w) then 1 else 0)
    case ResubmitOp => w.(pc := Head)
    case Abort => w.(pc := Aborting)
    case MarkError => w.(pc := AbortMarked)
    case EndAbort => w.(pc := Ended)
  }

  function WorkerDo(s: State, i: nat, e: WorkerStep): State
    requires WorkerEnabled(s, i, e)
  {
    s.(workers := s.workers[i := Moved(s, s.workers[i], e)],
       threadCounter := s.threadCounter + (if e.Count? then 1 else 0),
       runThreads := s.runThreads && !e.Abort?,
       threadError := s.threadError || e.MarkError?)
  }

  predicate Enabled(s: State, e: Step) {
    match e
    case OfJob(j) => JobEnabled(s, j)
    case OfWorker(i, w) => WorkerEnabled(s, i, w)
    case Tick(_) => true
  }

  function Do(s: State, e: Step): State
    requires Enabled(s, e)
  {
    match e
    case OfJob(j) => JobDo(s, j)
    case OfWorker(i, w) => WorkerDo(s, i, w)
    case Tick(d) => s.(now := s.now + d)
  }

  predicate Run(s: State, es: seq<Step>)
    decreases |es|, 0
  {
    es == [] || (Run(s, es[..|es| - 1]) && Enabled(Exec(s, es[..|es| - 1]), es[|es| - 1]))
  }

  function Exec(s: State, es: seq<Step>): State
    requires Run(s, es)
    decreases |es|, 1
  {
    if es == [] then s else Do(Exec(s, es[..|es| - 1]), es[|es| - 1])
  }

  lemma Extend(s: State, es: seq<Step>, e: Step)
    requires Run(s, es) && Enabled(Exec(s, es), e)
    ensures Run(s, es + [e]) && Exec(s, es + [e]) == Do(Exec(s, es), e)
  {
    assert (es + [e])[..|es|] == es;
  }

  // ---- invariant -----------------------------------------------------------------------

  function CountedWorkers(ws: seq<Worker>): nat {
    if ws == [] then 0
    else CountedWorkers(ws[..|ws| - 1]) + if ws[|ws| - 1].counted then 1 else 0
  }

  lemma {:induction false} CountUpdate(ws: seq<Worker>, i: nat, w: Worker)
    requires i < |ws|
    ensures CountedWorkers(ws[i := w]) + (if ws[i].counted then 1 else 0)
         == CountedWorkers(ws) + if w.counted then 1 else 0
    decreases |ws|
  {
    var n := |ws| - 1;
    if i == n {
      assert ws[i := w][..n] == ws[..n];
    } else {
      assert ws[i := w][..n] == ws[..n][i := w];
      CountUpdate(ws[..n], i, w);
    }
  }

  /** The counter reaches the number of threads only when every one of them has counted. */
  lemma {:induction false} AllCounted(ws: seq<Worker>)
    ensures CountedWorkers(ws) <= |ws|
    ensures CountedWorkers(ws) >= |ws| ==> forall i :: 0 <= i < |ws| ==> ws[i].counted
    decreases |ws|
  {
    if ws == [] {
    } else {
      AllCounted(ws[..|ws| - 1]);
      assert forall i :: 0 <= i < |ws| - 1 ==> ws[i] == ws[..|ws| - 1][i];
    }
  }

  lemma {:induction false} NoneCounted(ws: seq<Worker>)
    requires forall i :: 0 <= i < |ws| ==> !ws[i].counted
    ensures CountedWorkers(ws) == 0
    decreases |ws|
  {
    if ws == [] {
    } else {
      NoneCounted(ws[..|ws| - 1]);
    }
  }

  predicate BeforeRecording(p: JobPhase) {
    p == Initializing || p == WarmingUp || p == Ready || p == Started
  }

  predicate HoldsStamp(w: Worker) {
    w.pc == Stamped || w.pc == Record
  }

  predicate AfterCount(pc: Pc) {
    pc != Setup && pc != Submitted && pc != Aborting && pc != AbortMarked && pc != Ended
  }

  predicate WorkerOk(s: State, w: Worker) {
    && (w.pc == Setup || w.pc == Submitted ==> !w.counted)
    && (AfterCount(w.pc) ==> w.counted)
    && (w.pc == Submitted || w.counted ==> w.submitted)
    && (s.phase != Initializing && s.phase != Failed ==> w.counted)
    && (BeforeRecording(s.phase) ==> w.recorded == 0 && w.pc != Record)
    && (s.startTime == None ==> w.recorded == 0 && w.pc != Record)
    && (HoldsStamp(w) ==> w.stamp <= s.now)
    && w.early + (if HoldsStamp(w) && Early(s, w) then 1 else 0) <= 1
    && (w.recorded == 0 ==> w.early == 0)
  }

  predicate Inv(s: State) {
    && (forall i :: 0 <= i < |s.workers| ==> WorkerOk(s, s.workers[i]))
    && s.threadCounter == CountedWorkers(s.workers)
    && (s.recordResults ==> s.phase == Recording)
    && (s.startTime.Some? ==> s.startTime.value <= s.now)
    && (s.startTime == None ==>
          s.phase == Initializing || s.phase == WarmingUp || s.phase == Ready || s.phase == Failed)
    && (s.phase == Initializing || s.phase == WarmingUp || s.phase == Ready ==> s.startTime == None)
    && (s.phase.Joining? ==> s.phase.next <= |s.workers|)
    && (s.phase.Joining? || s.phase == Succeeded ==> !s.runThreads)
    && (s.phase.Joining? ==> forall i :: 0 <= i < s.phase.next ==> s.workers[i].pc == Ended)
    && (s.phase == Succeeded ==> forall i :: 0 <= i < |s.workers| ==> s.workers[i].pc == Ended)
  }

  lemma JobStepInv(s: State, e: JobStep)
    requires Inv(s) && JobEnabled(s, e)
    ensures Inv(JobDo(s, e))
  {
    hide WorkerOk;
    var r := JobDo(s, e);
    AllCounted(s.workers);
    forall i | 0 <= i < |r.workers| ensures WorkerOk(r, r.workers[i]) {
      JobKeepsWorker(s, e, s.workers[i]);
    }
  }

  lemma JobKeepsWorker(s: State, e: JobStep, w: Worker)
    requires JobEnabled(s, e) && WorkerOk(s, w) && (e.Initialized? ==> w.counted)
    requires e.TakeStartTime? ==> s.startTime == None
    requires s.startTime.Some? ==> s.startTime.value <= s.now
    ensures WorkerOk(JobDo(s, e), w)
  {
  }

  lemma WorkerStepInv(s: State, i: nat, e: WorkerStep)
    requires Inv(s) && WorkerEnabled(s, i, e)
    ensures Inv(WorkerDo(s, i, e))
  {
    var r := WorkerDo(s, i, e);
    assert WorkerOk(s, s.workers[i]);
    CountUpdate(s.workers, i, r.workers[i]);
    MovedOk(s, i, e);
    forall k | 0 <= k < |r.workers| ensures WorkerOk(r, r.workers[k]) {
      assert WorkerOk(s, s.workers[k]);
    }
  }

  lemma MovedOk(s: State, i: nat, e: WorkerStep)
    requires Inv(s) && WorkerEnabled(s, i, e) && WorkerOk(s, s.workers[i])
    ensures WorkerOk(WorkerDo(s, i, e), Moved(s, s.workers[i], e))
  {
  }

  lemma StepInv(s: State, e: Step)
    requires Inv(s) && Enabled(s, e)
    ensures Inv(Do(s, e))
  {
    match e
    case OfJob(j) => JobStepInv(s, j);
    case OfWorker(i, w) => WorkerStepInv(s, i, w);
    case Tick(d) =>
      var r := Do(s, e);
      forall i | 0 <= i < |r.workers| ensures WorkerOk(r, r.workers[i]) {
        assert WorkerOk(s, s.workers[i]);
      }
  }

  lemma InitInv(s: State)
    requires Init(s)
    ensures Inv(s)
  {
    NoneCounted(s.workers);
  }

  lemma {:induction false} RunKeepsInv(s: State, es: seq<Step>)
    requires Inv(s) && Run(s, es)
    ensures Inv(Exec(s, es)) && |Exec(s, es).workers| == |s.workers|
    decreases |es|
  {
    if es == [] {
    } else {
      RunKeepsInv(s, es[..|es| - 1]);
      StepInv(Exec(s, es[..|es| - 1]), es[|es| - 1]);
    }
  }

  lemma RunInv(s: State, es: seq<Step>)
    requires Init(s) && Run(s, es)
    ensures Inv(Exec(s, es)) && |Exec(s, es).workers| == |s.workers|
  {
    InitInv(s);
    RunKeepsInv(s, es);
  }

  // ---- what it gives -------------------------------------------------------------------

  /** Whenever results are recorded, every thread has submitted its initial batch. */
  lemma RecordingMeansSubmitted(s: State, es: seq<Step>)
    requires Init(s) && Run(s, es) && Exec(s, es).recordResults
    ensures forall i :: 0 <= i < |Exec(s, es).workers| ==> Exec(s, es).workers[i].submitted
  {
    RunInv(s, es);
    var r := Exec(s, es);
    forall i | 0 <= i < |r.workers| ensures r.workers[i].submitted {
      assert WorkerOk(r, r.workers[i]);
    }
  }

  /** The recording is over, or will never begin. */
  predicate Cleared(p: JobPhase) {
    !BeforeRecording(p) && p != Recording
  }

  /** After record_results is cleared it stays cleared, and each thread records at most one
      more op: the one for which it had already read the flag. */
  lemma {:induction false} OneMoreRecord(s: State, es: seq<Step>, i: nat)
    requires Inv(s) && Cleared(s.phase) && Run(s, es) && i < |s.workers|
    ensures !Exec(s, es).recordResults && Cleared(Exec(s, es).phase)
    ensures |Exec(s, es).workers| == |s.workers|
    ensures Exec(s, es).workers[i].recorded + (if Exec(s, es).workers[i].pc == Record then 1 else 0)
         <= s.workers[i].recorded + if s.workers[i].pc == Record then 1 else 0
    decreases |es|
  {
    if es == [] {
    } else {
      hide Do, Enabled;
      OneMoreRecord(s, es[..|es| - 1], i);
      NoMoreRecords(Exec(s, es[..|es| - 1]), es[|es| - 1], i);
    }
  }

  lemma NoMoreRecords(s: State, e: Step, i: nat)
    requires !s.recordResults && Cleared(s.phase) && Enabled(s, e) && i < |s.workers|
    ensures !Do(s, e).recordResults && Cleared(Do(s, e).phase) && |Do(s, e).workers| == |s.workers|
    ensures Do(s, e).workers[i].recorded + (if Do(s, e).workers[i].pc == Record then 1 else 0)
         <= s.workers[i].recorded + if s.workers[i].pc == Record then 1 else 0
  {
    hide Moved;
    if e.OfWorker? {
      MoveRecords(s, s.workers[e.i], e.w);
    }
  }

  lemma MoveRecords(s: State, w: Worker, e: WorkerStep)
    requires !s.recordResults && (e.RecordOp? ==> w.pc == Record)
    ensures Moved(s, w, e).recorded + (if Moved(s, w, e).pc == Record then 1 else 0)
         <= w.recorded + if w.pc == Record then 1 else 0
  {
  }

  /** At most one op per thread is recorded with a stamp older than the start time. */
  lemma AtMostOneEarly(s: State, es: seq<Step>, i: nat)
    requires Init(s) && Run(s, es) && i < |s.workers|
    ensures |Exec(s, es).workers| == |s.workers| && Exec(s, es).workers[i].early <= 1
  {
    RunInv(s, es);
    assert WorkerOk(Exec(s, es), Exec(s, es).workers[i]);
  }

  /** The thread has read the clock of its op before the start time, and has not yet looked
      whether to record it. */
  predicate Straggler(s: State, w: Worker) {
    w.pc == Stamped && w.stamp < s.now
  }

  /** A continuation that begins by taking the start time, after which thread `i` has recorded
      an op with an older stamp. */
  ghost predicate EarlyAfter(s: State, es: seq<Step>, i: nat) {
    && es != [] && es[0] == OfJob(TakeStartTime) && Run(s, es)
    && i < |Exec(s, es).workers| && Exec(s, es).workers[i].early > 0
  }

  predicate Clean(s: State, w: Worker) {
    s.startTime.Some? && w.early == 0 && (HoldsStamp(w) ==> w.stamp >= s.startTime.value)
  }

  lemma CleanStart(s: State, i: nat)
    requires Inv(s) && s.phase == Ready && i < |s.workers| && !Straggler(s, s.workers[i])
    ensures Clean(Do(s, OfJob(TakeStartTime)), s.workers[i])
  {
    assert WorkerOk(s, s.workers[i]);
  }

  lemma CleanStep(s: State, e: Step, i: nat)
    requires Inv(s) && Enabled(s, e) && i < |s.workers| && Clean(s, s.workers[i])
    ensures |Do(s, e).workers| == |s.workers| && Clean(Do(s, e), Do(s, e).workers[i])
  {
    assert s.phase != Ready && s.startTime.value <= s.now;
    CleanStepAfterStart(s, e, i);
  }

  lemma CleanStepAfterStart(s: State, e: Step, i: nat)
    requires Enabled(s, e) && i < |s.workers| && Clean(s, s.workers[i])
    requires s.phase != Ready && s.startTime.value <= s.now
    ensures |Do(s, e).workers| == |s.workers| && Clean(Do(s, e), Do(s, e).workers[i])
  {
    hide Moved;
    if e.OfWorker? && e.i == i {
      CleanMove(s, s.workers[i], e.w);
    }
  }

  lemma CleanMove(s: State, w: Worker, e: WorkerStep)
    requires Clean(s, w) && s.startTime.value <= s.now
    requires e.ReadRecord? || e.RecordOp? ==> HoldsStamp(w)
    ensures Clean(s, Moved(s, w, e))
  {
  }

  lemma {:induction false} StaysClean(s: State, es: seq<Step>, i: nat)
    requires Inv(s) && s.phase == Ready && i < |s.workers| && !Straggler(s, s.workers[i])
    requires es != [] && es[0] == OfJob(TakeStartTime) && Run(s, es)
    ensures i < |Exec(s, es).workers| && Clean(Exec(s, es), Exec(s, es).workers[i])
    decreases |es|
  {
    hide Do, Enabled, Inv, Clean, Straggler;
    var front, e := es[..|es| - 1], es[|es| - 1];
    if front == [] {
      CleanStart(s, i);
      assert Do(s, e).workers == s.workers by { StartKeepsWorkers(s); }
    } else {
      StaysClean(s, front, i);
      RunKeepsInv(s, front);
      CleanStep(Exec(s, front), e, i);
    }
  }

  lemma StartKeepsWorkers(s: State)
    requires JobEnabled(s, TakeStartTime)
    ensures Do(s, OfJob(TakeStartTime)).workers == s.workers
  {
  }

  /** A straggler's op is recorded when nothing comes between. */
  lemma StragglerRecords(s: State, i: nat)
    requires Inv(s) && s.phase == Ready && i < |s.workers| && Straggler(s, s.workers[i])
    ensures EarlyAfter(s, [OfJob(TakeStartTime), OfJob(StartRecording),
                           OfWorker(i, ReadRecord), OfWorker(i, RecordOp)], i)
  {
    hide Reaches, WorkerDo;
    var a, b := OfJob(TakeStartTime), OfJob(StartRecording);
    var c, d := OfWorker(i, ReadRecord), OfWorker(i, RecordOp);
    var started := s.(phase := Started, startTime := Some(s.now));
    var recording := started.(phase := Recording, recordResults := true);
    ReachesItself(s);
    ReachesNext(s, [], s, a);
    ReachesNext(s, [] + [a], started, b);
    ReachesNext(s, [] + [a] + [b], recording, c);
    StragglerMoves(recording, i);
    ReachesNext(s, [] + [a] + [b] + [c], Do(recording, c), d);
    assert [] + [a] + [b] + [c] + [d] == [a, b, c, d];
    ReachesRun(s, [a, b, c, d], Do(Do(recording, c), d));
  }

  /** The two steps of a straggler once results are recorded. */
  lemma StragglerMoves(s: State, i: nat)
    requires i < |s.workers| && s.workers[i].pc == Stamped && Early(s, s.workers[i]) && s.recordResults
    ensures var r := Do(s, OfWorker(i, ReadRecord));
      && WorkerEnabled(r, i, RecordOp)
      && i < |Do(r, OfWorker(i, RecordOp)).workers| && Do(r, OfWorker(i, RecordOp)).workers[i].early > 0
  {
  }

  /** The steps `es` lead from `s` to `r`. */
  predicate Reaches(s: State, es: seq<Step>, r: State) {
    Run(s, es) && Exec(s, es) == r
  }

  lemma ReachesItself(s: State)
    ensures Reaches(s, [], s)
  {
  }

  lemma ReachesNext(s: State, es: seq<Step>, r: State, e: Step)
    requires Reaches(s, es, r) && Enabled(r, e)
    ensures Reaches(s, es + [e], Do(r, e))
  {
    hide Do, Enabled;
    Extend(s, es, e);
  }

  lemma ReachesRun(s: State, es: seq<Step>, r: State)
    requires Reaches(s, es, r)
    ensures Run(s, es) && Exec(s, es) == r
  {
    hide Run, Exec;
  }

  lemma EarlyFrom(s: State, i: nat)
    requires Inv(s) && s.phase == Ready && i < |s.workers|
    ensures (exists es :: EarlyAfter(s, es, i)) <==> Straggler(s, s.workers[i])
  {
    if es :| EarlyAfter(s, es, i) {
      if !Straggler(s, s.workers[i]) {
        StaysClean(s, es, i);
      }
    }
    if Straggler(s, s.workers[i]) {
      StragglerRecords(s, i);
    }
  }

  /** Exactly when: in a run that has come to the moment at which the Job takes the start time,
      thread `i` can go on to record an op with an older stamp if and only if it is a straggler
      at that moment. */
  lemma EarlyExactly(s: State, before: seq<Step>, i: nat)
    requires Init(s) && Run(s, before) && Exec(s, before).phase == Ready && i < |Exec(s, before).workers|
    ensures var r := Exec(s, before);
      (exists es :: EarlyAfter(r, es, i)) <==> Straggler(r, r.workers[i])
  {
    RunInv(s, before);
    EarlyFrom(Exec(s, before), i);
  }

  /** Step `k` of the run takes the start time while thread `i` is a straggler. */
  predicate StragglesAt(s: State, es: seq<Step>, k: nat, i: nat)
    requires k <= |es| ==> Run(s, es[..k])
  {
    && k < |es| && es[k] == OfJob(TakeStartTime)
    && i < |Exec(s, es[..k]).workers| && Straggler(Exec(s, es[..k]), Exec(s, es[..k]).workers[i])
  }

  lemma {:induction false} RunPrefix(s: State, es: seq<Step>, k: nat)
    requires Run(s, es) && k <= |es|
    ensures Run(s, es[..k])
    decreases |es|
  {
    if k == |es| {
      assert es[..k] == es;
    } else {
      RunPrefix(s, es[..|es| - 1], k);
      assert es[..|es| - 1][..k] == es[..k];
    }
  }

  ghost predicate HasStraggled(s: State, es: seq<Step>, i: nat) {
    exists k: nat :: k < |es| && Run(s, es[..k]) && StragglesAt(s, es, k, i)
  }

  /** In a whole run every such record goes back to a straggler at the start time. */
  lemma {:induction false} EarlyCause(s: State, es: seq<Step>, i: nat)
    requires Init(s) && Run(s, es) && i < |s.workers|
    ensures i < |Exec(s, es).workers|
    ensures Exec(s, es).workers[i].early > 0 ==> HasStraggled(s, es, i)
    ensures Exec(s, es).startTime.Some? && !HasStraggled(s, es, i) ==> Clean(Exec(s, es), Exec(s, es).workers[i])
    decreases |es|
  {
    RunInv(s, es);
    if es == [] {
    } else {
      var front, e := es[..|es| - 1], es[|es| - 1];
      var r := Exec(s, front);
      RunInv(s, front);
      EarlyCause(s, front, i);
      StragglingMore(s, es, i);
      if r.startTime.None? {
        NotYetEarly(r, e, i);
        if e == OfJob(TakeStartTime) && Straggler(r, r.workers[i]) {
          assert StragglesAt(s, es, |es| - 1, i);
        }
      } else if !HasStraggled(s, es, i) {
        CleanStep(r, e, i);
      }
    }
  }

  lemma StragglingMore(s: State, es: seq<Step>, i: nat)
    requires es != []
    ensures HasStraggled(s, es[..|es| - 1], i) ==> HasStraggled(s, es, i)
  {
    hide Run, Exec;
    var front := es[..|es| - 1];
    if HasStraggled(s, front, i) {
      var k: nat :| k < |front| && Run(s, front[..k]) && StragglesAt(s, front, k, i);
      assert front[..k] == es[..k] && front[k] == es[k];
      assert StragglesAt(s, es, k, i);
    }
  }

  lemma NotYetEarly(s: State, e: Step, i: nat)
    requires Inv(s) && Enabled(s, e) && i < |s.workers| && s.startTime.None?
    ensures i < |Do(s, e).workers| && Do(s, e).workers[i].early == 0
    ensures Do(s, e).startTime.Some? ==> e == OfJob(TakeStartTime) && s.phase == Ready
    ensures Do(s, e).startTime.Some? && !Straggler(s, s.workers[i]) ==> Clean(Do(s, e), Do(s, e).workers[i])
  {
    assert WorkerOk(s, s.workers[i]);
  }

  // ---- what a thread sees of the flag and the clock ---------------------------------------

  /** Time goes forward, and a flag seen on earlier and seen on later was on in between. */
  ghost predicate Ordered(log: seq<Seen>) {
    forall i, j :: 0 <= i < j < |log| ==>
      && log[i].nowMs <= log[j].nowMs
      && (log[i].throttleFlag && log[j].recordFlag ==> log[j].throttleFlag)
  }

  /** A flag seen on is seen after the start time. */
  ghost predicate AfterStart(s: State, log: seq<Seen>) {
    forall k :: 0 <= k < |log| && log[k].throttleFlag ==>
      s.startTime.Some? && s.startTime.value / 1000 <= log[k].nowMs
  }

  /** The pass has read the flag and is not yet in the log. */
  predicate Underway(pc: Pc) {
    pc == Timing || pc == InPass || pc == Waited || pc == Passed || pc == Stamped
  }

  ghost predicate PassFits(s: State, w: Worker) {
    && w.time <= s.now
    && (forall k :: 0 <= k < |w.log| ==> w.log[k].nowMs <= w.time / 1000)
    && (forall k :: 0 <= k < |w.log| && w.log[k].throttleFlag && s.recordResults ==> w.flag)
    && (w.flag ==> s.startTime.Some? && s.startTime.value <= w.time)
    && (BeforeRecording(s.phase) ==> !w.flag)
    && (w.pc == Timing ==> w.flag)
  }

  ghost predicate LogOk(s: State, w: Worker) {
    && Ordered(w.log) && AfterStart(s, w.log)
    && (forall k :: 0 <= k < |w.log| ==> w.log[k].nowMs <= s.now / 1000)
    && (BeforeRecording(s.phase) ==> forall k :: 0 <= k < |w.log| ==> !w.log[k].throttleFlag)
    && (Underway(w.pc) ==> PassFits(s, w))
  }

  lemma JobKeepsLog(s: State, e: JobStep, w: Worker)
    requires Inv(s) && JobEnabled(s, e) && LogOk(s, w)
    ensures LogOk(JobDo(s, e), w)
  {
  }

  lemma TickKeepsLog(s: State, d: nat, w: Worker)
    requires LogOk(s, w)
    ensures LogOk(s.(now := s.now + d), w)
  {
  }

  /** The clock at the last step of the given kinds that thread `i` took: the clock readings of
      a pass, of which the throttle test uses the first kind and the op's stamp is the second. */
  function LastReading(s: State, es: seq<Step>, i: nat, stamp: bool): Option<nat>
    requires Run(s, es)
  {
    if es == [] then None
    else
      var front, e := es[..|es| - 1], es[|es| - 1];
      if e.OfWorker? && e.i == i && (if stamp then e.w.TakeStamp? else e.w.ReadThrottle? || e.w.TakeTime?)
      then Some(Exec(s, front).now) else LastReading(s, front, i, stamp)
  }

  /** The time a pass carries is its last clock reading, and so is the stamp of its op. */
  predicate ReadingsKept(w: Worker, time: Option<nat>, stamp: Option<nat>) {
    (Underway(w.pc) ==> time == Some(w.time)) && (HoldsStamp(w) ==> stamp == Some(w.stamp))
  }

  lemma ReadingStep(s: State, e: Step, i: nat, time: Option<nat>, stamp: Option<nat>)
    requires Enabled(s, e) && i < |s.workers| && ReadingsKept(s.workers[i], time, stamp)
    ensures var mine := e.OfWorker? && e.i == i;
      && i < |Do(s, e).workers|
      && ReadingsKept(Do(s, e).workers[i],
           if mine && (e.w.ReadThrottle? || e.w.TakeTime?) then Some(s.now) else time,
           if mine && e.w.TakeStamp? then Some(s.now) else stamp)
  {
    hide Moved, ReadingsKept;
    if e.OfWorker? && e.i == i {
      ReadingMove(s, i, e.w, time, stamp);
    }
  }

  lemma ReadingMove(s: State, i: nat, e: WorkerStep, time: Option<nat>, stamp: Option<nat>)
    requires WorkerEnabled(s, i, e) && ReadingsKept(s.workers[i], time, stamp)
    ensures ReadingsKept(Moved(s, s.workers[i], e),
              if e.ReadThrottle? || e.TakeTime? then Some(s.now) else time,
              if e.TakeStamp? then Some(s.now) else stamp)
  {
  }

  lemma {:induction false} ReadingsAre(s: State, es: seq<Step>, i: nat)
    requires Init(s) && Run(s, es) && i < |s.workers|
    ensures i < |Exec(s, es).workers|
    ensures ReadingsKept(Exec(s, es).workers[i], LastReading(s, es, i, false), LastReading(s, es, i, true))
    decreases |es|
  {
    hide Do, Enabled;
    if es == [] {
    } else {
      var front, e := es[..|es| - 1], es[|es| - 1];
      ReadingsAre(s, front, i);
      ReadingStep(Exec(s, front), e, i, LastReading(s, front, i, false), LastReading(s, front, i, true));
    }
  }

  /** The steps of other threads touch nothing the log depends on. */
  lemma OthersKeepLog(s: State, i: nat, e: WorkerStep, w: Worker)
    requires WorkerEnabled(s, i, e) && LogOk(s, w)
    ensures LogOk(WorkerDo(s, i, e), w)
  {
  }

  /** What a thread can rely on when it reads the flag and the clock. */
  predicate FlagFacts(s: State) {
    && (s.recordResults ==> !BeforeRecording(s.phase) && s.startTime.Some?)
    && (s.startTime.Some? ==> s.startTime.value <= s.now)
  }

  lemma ThrottleReadKeepsLog(s: State, w: Worker)
    requires FlagFacts(s) && w.pc == Testing && LogOk(s, w)
    ensures LogOk(s, Moved(s, w, ReadThrottle))
  {
  }

  lemma TimeKeepsLog(s: State, w: Worker, throttled: bool)
    requires FlagFacts(s) && w.pc == Timing && LogOk(s, w)
    ensures LogOk(s, Moved(s, w, TakeTime(throttled)))
  {
  }

  lemma RecordReadKeepsLog(s: State, w: Worker)
    requires FlagFacts(s) && w.pc == Stamped && LogOk(s, w)
    ensures LogOk(s, Moved(s, w, ReadRecord))
  {
  }

  /** The other steps neither read the flag nor finish a pass. */
  lemma SilentKeepsLog(s: State, w: Worker, e: WorkerStep)
    requires !e.ReadThrottle? && !e.TakeTime? && !e.ReadRecord? && LogOk(s, w)
    requires e.WaitForOp? || e.CheckRun? || e.TakeStamp? ==> Underway(w.pc) && w.pc != Timing
    ensures LogOk(s, Moved(s, w, e))
  {
    hide Ordered, AfterStart;
  }

  lemma MoveKeepsLog(s: State, i: nat, e: WorkerStep)
    requires FlagFacts(s) && WorkerEnabled(s, i, e) && LogOk(s, s.workers[i])
    ensures LogOk(s, Moved(s, s.workers[i], e))
  {
    hide LogOk, Moved, FlagFacts;
    var w := s.workers[i];
    match e
    case ReadThrottle => ThrottleReadKeepsLog(s, w);
    case TakeTime(throttled) => TimeKeepsLog(s, w, throttled);
    case ReadRecord => RecordReadKeepsLog(s, w);
    case _ => SilentKeepsLog(s, w, e);
  }

  lemma StepKeepsLog(s: State, e: Step, k: nat)
    requires Inv(s) && Enabled(s, e) && k < |s.workers| && LogOk(s, s.workers[k])
    ensures k < |Do(s, e).workers| && LogOk(Do(s, e), Do(s, e).workers[k])
  {
    hide Inv, LogOk, Moved, JobDo, JobEnabled, FlagFacts;
    match e
    case OfJob(j) =>
      JobKeepsLog(s, j, s.workers[k]);
      JobKeepsWorkers(s, j);
    case OfWorker(i, w) =>
      if i == k {
        InvGivesFlagFacts(s);
        MoveKeepsLog(s, i, w);
      }
      OthersKeepLog(s, i, w, Do(s, e).workers[k]);
    case Tick(d) => TickKeepsLog(s, d, s.workers[k]);
  }

  lemma InvGivesFlagFacts(s: State)
    requires Inv(s)
    ensures FlagFacts(s)
  {
  }

  lemma JobKeepsWorkers(s: State, e: JobStep)
    requires JobEnabled(s, e)
    ensures JobDo(s, e).workers == s.workers
  {
  }

  /** Over every run: what a thread has seen is ordered, and no flag is seen on before the
      start time. */
  lemma {:induction false} SeenInOrder(s: State, es: seq<Step>, i: nat)
    requires Init(s) && Run(s, es) && i < |s.workers|
    ensures i < |Exec(s, es).workers| && LogOk(Exec(s, es), Exec(s, es).workers[i])
    decreases |es|
  {
    hide Do, Enabled, Inv, LogOk;
    if es == [] {
      assert LogOk(s, FRESH) by { NothingSeen(s); }
      assert s.workers[i] == FRESH;
    } else {
      SeenInOrder(s, es[..|es| - 1], i);
      RunInv(s, es[..|es| - 1]);
      StepKeepsLog(Exec(s, es[..|es| - 1]), es[|es| - 1], i);
    }
  }

  lemma NothingSeen(s: State)
    ensures LogOk(s, FRESH)
  {
  }

  /** When run_job returns true, no thread is running any more. */
  lemma SuccessMeansEnded(s: State, es: seq<Step>, i: nat)
    requires Init(s) && Run(s, es) && Exec(s, es).phase == Succeeded && i < |Exec(s, es).workers|
    ensures Exec(s, es).workers[i].pc == Ended && !Exec(s, es).runThreads
  {
    RunInv(s, es);
  }

  predicate PastCheck(p: JobPhase) {
    p == Measured || p.Joining? || p == Succeeded
  }

  /** run_job gets past its last check only if no thread had reported an error by then, and
      the wait had not been interrupted. */
  lemma {:induction false} CheckedAtEnd(s: State, es: seq<Step>)
    requires Init(s) && Run(s, es) && PastCheck(Exec(s, es).phase)
    ensures exists k: nat :: CheckAt(s, es, k)
    decreases |es|
  {
    var front, e := es[..|es| - 1], es[|es| - 1];
    if PastCheck(Exec(s, front).phase) {
      hide Do, Enabled, Run, Exec;
      CheckedAtEnd(s, front);
      var k: nat :| CheckAt(s, front, k);
      assert front[..k] == es[..k] && front[k] == es[k];
      assert CheckAt(s, es, k);
    } else {
      OnlyCheckPasses(Exec(s, front), e);
      assert CheckAt(s, es, |es| - 1);
    }
  }

  lemma OnlyCheckPasses(s: State, e: Step)
    requires Enabled(s, e) && !PastCheck(s.phase) && PastCheck(Do(s, e).phase)
    ensures e == OfJob(CheckErrors) && s.phase == Stopped(false) && !s.threadError
  {
  }

  predicate CheckAt(s: State, es: seq<Step>, k: nat) {
    k < |es| && es[k] == OfJob(CheckErrors) && Run(s, es[..k])
    && Exec(s, es[..k]).phase == Stopped(false) && !Exec(s, es[..k]).threadError
  }

  predicate Reports(e: Step) {
    e.OfWorker? && e.w.MarkError?
  }

  predicate ReportedFrom(es: seq<Step>, k: nat) {
    exists m :: k <= m < |es| && Reports(es[m])
  }

  lemma ReportedLast(es: seq<Step>, k: nat)
    requires k < |es|
    ensures ReportedFrom(es, k) <==> ReportedFrom(es[..|es| - 1], k) || Reports(es[|es| - 1])
  {
    var front := es[..|es| - 1];
    assert forall m :: 0 <= m < |front| ==> front[m] == es[m];
  }

  /** From a state without an error, one is reported exactly by a thread's own step. */
  lemma {:induction false} ReportedSince(s: State, es: seq<Step>, k: nat)
    requires Run(s, es) && k <= |es| && Run(s, es[..k]) && !Exec(s, es[..k]).threadError
    ensures Exec(s, es).threadError <==> ReportedFrom(es, k)
    decreases |es|
  {
    if k == |es| {
      assert es[..k] == es;
    } else {
      hide Enabled, Do, Reports, ReportedFrom;
      var front, e := es[..|es| - 1], es[|es| - 1];
      assert front[..k] == es[..k];
      ReportedSince(s, front, k);
      ReportStep(Exec(s, front), e);
      ReportedLast(es, k);
    }
  }

  lemma ReportStep(s: State, e: Step)
    requires Enabled(s, e)
    ensures Do(s, e).threadError <==> s.threadError || Reports(e)
  {
  }

  /** When run_job returns true, a thread has reported an error if and only if it did so after
      the Job's last check; `k` is the place of that check. */
  lemma ErrorMissedExactly(s: State, es: seq<Step>)
    requires Init(s) && Run(s, es) && Exec(s, es).phase == Succeeded
    ensures exists k: nat :: CheckAt(s, es, k)
    ensures forall k: nat :: CheckAt(s, es, k) ==>
              (Exec(s, es).threadError <==> exists m :: k < m < |es| && Reports(es[m]))
  {
    CheckedAtEnd(s, es);
    forall k: nat | CheckAt(s, es, k)
      ensures Exec(s, es).threadError <==> exists m :: k < m < |es| && Reports(es[m])
    {
      ReportedSince(s, es, k);
    }
  }

  /** An error reported at any time before the last check, or a wake-up during the warm-up or
      the main duration, ends the job: it never gets past the check, and if results were not
      recorded by then they never are. */
  predicate Doomed(s: State) {
    !PastCheck(s.phase) && (s.threadError || s.phase == Stopped(true) || s.phase == Failed)
  }

  lemma DoomedStep(s: State, e: Step)
    requires Doomed(s) && Enabled(s, e)
    ensures Doomed(Do(s, e))
    ensures s.phase == Initializing || s.phase == WarmingUp || s.phase == Failed ==>
              Do(s, e).phase == s.phase || Do(s, e).phase == Failed
  {
  }

  lemma {:induction false} ErrorEndsJob(s: State, es: seq<Step>)
    requires Doomed(s) && Run(s, es)
    ensures Exec(s, es).phase != Succeeded && Doomed(Exec(s, es))
    ensures s.phase == Initializing || s.phase == WarmingUp || s.phase == Failed ==>
              Exec(s, es).phase == s.phase || Exec(s, es).phase == Failed
    decreases |es|
  {
    hide Do, Enabled;
    if es == [] {
    } else {
      ErrorEndsJob(s, es[..|es| - 1]);
      DoomedStep(Exec(s, es[..|es| - 1]), es[|es| - 1]);
    }
  }

  /** A wake-up is taken for an error, during the warm-up and during the main duration; without
      one, and without an error, the Job goes on. */
  lemma WakeUpEndsJob(s: State, woken: bool)
    ensures s.phase == WarmingUp ==>
              (Doomed(Do(s, OfJob(WarmupOver(woken)))) <==> woken || s.threadError)
    ensures s.phase == Recording ==>
              (Doomed(Do(s, OfJob(StopRecording(woken)))) <==> woken || s.threadError)
  {
  }

  // ---- stopping ------------------------------------------------------------------------

  /** How many steps a thread can still take once run_threads is false. */
  function Left(pc: Pc): nat {
    match pc
    case Setup => 4
    case Submitted => 3
    case Counted => 2
    case Head => 1
    case Testing => 4
    case Timing => 3
    case InPass => 2
    case Waited => 1
    case Passed => 6
    case Stamped => 5
    case Record => 4
    case Resubmit => 3
    case Aborting => 2
    case AbortMarked => 1
    case Ended => 0
  }

  function AllLeft(ws: seq<Worker>): nat {
    if ws == [] then 0 else AllLeft(ws[..|ws| - 1]) + Left(ws[|ws| - 1].pc)
  }

  lemma {:induction false} LeftUpdate(ws: seq<Worker>, i: nat, w: Worker)
    requires i < |ws|
    ensures AllLeft(ws[i := w]) + Left(ws[i].pc) == AllLeft(ws) + Left(w.pc)
    decreases |ws|
  {
    hide Left;
    var n := |ws| - 1;
    if i == n {
      assert ws[i := w][..n] == ws[..n];
    } else {
      assert ws[i := w][..n] == ws[..n][i := w];
      LeftUpdate(ws[..n], i, w);
    }
  }

  function WorkerSteps(es: seq<Step>): nat {
    if es == [] then 0 else WorkerSteps(es[..|es| - 1]) + if es[|es| - 1].OfWorker? then 1 else 0
  }

  /** Once run_threads is false, all threads together take only a bounded number of steps
      more, however they are scheduled, so the joins are not waited for in vain. */
  lemma {:induction false} Drains(s: State, es: seq<Step>)
    requires !s.runThreads && Run(s, es)
    ensures !Exec(s, es).runThreads
    ensures WorkerSteps(es) + AllLeft(Exec(s, es).workers) <= AllLeft(s.workers)
    decreases |es|
  {
    if es == [] {
    } else {
      hide Do, Enabled, AllLeft;
      Drains(s, es[..|es| - 1]);
      StepDrains(Exec(s, es[..|es| - 1]), es[|es| - 1]);
    }
  }

  lemma StepDrains(s: State, e: Step)
    requires !s.runThreads && Enabled(s, e)
    ensures !Do(s, e).runThreads
    ensures AllLeft(Do(s, e).workers) + (if e.OfWorker? then 1 else 0) <= AllLeft(s.workers)
  {
    hide AllLeft, Moved, Left;
    if e.OfWorker? {
      MoveDrains(s, e.i, e.w);
      LeftUpdate(s.workers, e.i, Do(s, e).workers[e.i]);
    }
  }

  lemma MoveDrains(s: State, i: nat, e: WorkerStep)
    requires !s.runThreads && WorkerEnabled(s, i, e)
    ensures Left(Moved(s, s.workers[i], e).pc) < Left(s.workers[i].pc)
  {
  }

  /** The step a thread takes when nothing fails. */
  function NextStep(pc: Pc): WorkerStep
    requires pc != Ended
  {
    match pc
    case Setup => SubmitBatch
    case Submitted => Count
    case Counted => SetInitialized
    case Head => EnterPass
    case Testing => ReadThrottle
    case Timing => TakeTime(false)
    case InPass => WaitForOp
    case Waited => CheckRun
    case Passed => TakeStamp
    case Stamped => ReadRecord
    case Record => RecordOp
    case Resubmit => ResubmitOp
    case Aborting => MarkError
    case AbortMarked => EndAbort
  }

  /** A thread that has not ended can always take a step. */
  lemma NeverStuck(s: State, i: nat)
    requires i < |s.workers| && s.workers[i].pc != Ended
    ensures exists e :: WorkerEnabled(s, i, e)
  {
    assert WorkerEnabled(s, i, NextStep(s.workers[i].pc));
  }

  // ---- when success without a report is still possible -----------------------------------

  /** Thread `i` has failed and has not reported it. */
  predicate Unreported(s: State, i: nat) {
    i < |s.workers| && s.workers[i].pc == Aborting
  }

  predicate JobStops(p: JobPhase) {
    p.Joining? || p == Succeeded
  }

  /** Until the Job itself stops the threads, run_threads is cleared only by a failing thread,
      which still has to report unless an error has been reported. */
  ghost predicate AbortsSeen(s: State) {
    && (forall i :: Unreported(s, i) ==> !s.runThreads)
    && (forall i :: 0 <= i < |s.workers| && s.workers[i].pc == AbortMarked ==> s.threadError)
    && (!s.runThreads && !s.threadError && !JobStops(s.phase) ==> exists i :: Unreported(s, i))
  }

  lemma StepSeesAborts(s: State, e: Step)
    requires AbortsSeen(s) && Enabled(s, e)
    ensures AbortsSeen(Do(s, e))
  {
    var r := Do(s, e);
    if i :| Unreported(s, i) {
      StepKeepsUnreported(s, e, i);
    }
    match e
    case OfWorker(k, w) =>
      hide Moved;
      MoveSeesAborts(s, k, w);
      assert w.Abort? ==> Unreported(r, k);
      assert forall i :: i != k ==> (Unreported(r, i) <==> Unreported(s, i));
    case OfJob(j) => assert forall i :: Unreported(r, i) <==> Unreported(s, i);
    case Tick(_) => assert forall i :: Unreported(r, i) <==> Unreported(s, i);
  }

  lemma MoveSeesAborts(s: State, i: nat, e: WorkerStep)
    requires WorkerEnabled(s, i, e)
    ensures Moved(s, s.workers[i], e).pc == Aborting <==> e.Abort?
    ensures Moved(s, s.workers[i], e).pc == AbortMarked <==> e.MarkError?
  {
  }

  /** A failure that is not reported stays, or is reported. */
  lemma StepKeepsUnreported(s: State, e: Step, i: nat)
    requires Enabled(s, e) && (s.threadError || Unreported(s, i))
    ensures Do(s, e).threadError || Unreported(Do(s, e), i)
  {
    hide Moved;
  }

  lemma {:induction false} RunKeepsUnreported(s: State, es: seq<Step>, i: nat)
    requires Run(s, es) && (s.threadError || Unreported(s, i))
    ensures Exec(s, es).threadError || Unreported(Exec(s, es), i)
    decreases |es|
  {
    hide Do, Enabled;
    if es == [] {
    } else {
      RunKeepsUnreported(s, es[..|es| - 1], i);
      StepKeepsUnreported(Exec(s, es[..|es| - 1]), es[|es| - 1], i);
    }
  }

  lemma {:induction false} RunSeesAborts(s: State, es: seq<Step>)
    requires Init(s) && Run(s, es)
    ensures AbortsSeen(Exec(s, es))
    decreases |es|
  {
    hide Do, Enabled;
    if es == [] {
    } else {
      RunSeesAborts(s, es[..|es| - 1]);
      StepSeesAborts(Exec(s, es[..|es| - 1]), es[|es| - 1]);
    }
  }

  /** The Job waits for its threads, none of which has failed. */
  predicate Quiet(s: State) {
    && s.phase == Joining(0) && !s.runThreads && !s.threadError
    && forall i :: 0 <= i < |s.workers| ==> s.workers[i].pc != Aborting && s.workers[i].pc != AbortMarked
  }

  lemma QuietStep(s: State, i: nat)
    requires Quiet(s) && i < |s.workers| && s.workers[i].pc != Ended
    ensures var e := OfWorker(i, NextStep(s.workers[i].pc));
      Enabled(s, e) && Quiet(Do(s, e)) && AllLeft(Do(s, e).workers) < AllLeft(s.workers)
  {
    hide AllLeft;
    StepDrains(s, OfWorker(i, NextStep(s.workers[i].pc)));
  }

  /** All threads can end quietly. */
  lemma {:induction false} Drained(s: State, es: seq<Step>) returns (more: seq<Step>)
    requires es != [] && Run(s, es) && Quiet(Exec(s, es))
    ensures more != [] && more[0] == es[0] && Run(s, more) && Quiet(Exec(s, more))
    ensures forall i :: 0 <= i < |Exec(s, more).workers| ==> Exec(s, more).workers[i].pc == Ended
    decreases AllLeft(Exec(s, es).workers)
  {
    hide Do, Enabled, Quiet, AllLeft;
    var r := Exec(s, es);
    if forall i :: 0 <= i < |r.workers| ==> r.workers[i].pc == Ended {
      more := es;
    } else {
      var i :| 0 <= i < |r.workers| && r.workers[i].pc != Ended;
      var e := OfWorker(i, NextStep(r.workers[i].pc));
      QuietStep(r, i);
      Extend(s, es, e);
      more := Drained(s, es + [e]);
    }
  }

  /** Then the Job joins them one by one and succeeds. */
  lemma {:induction false} Joined(s: State, es: seq<Step>, k: nat) returns (more: seq<Step>)
    requires es != [] && Run(s, es) && Exec(s, es).phase == Joining(k) && !Exec(s, es).threadError
    requires forall i :: 0 <= i < |Exec(s, es).workers| ==> Exec(s, es).workers[i].pc == Ended
    ensures more != [] && more[0] == es[0] && Run(s, more)
    ensures Exec(s, more).phase == Succeeded && !Exec(s, more).threadError
    decreases if k < |Exec(s, es).workers| then |Exec(s, es).workers| - k else 0
  {
    hide Run, Exec;
    if k >= |Exec(s, es).workers| {
      Extend(s, es, OfJob(Finish));
      more := es + [OfJob(Finish)];
    } else {
      Extend(s, es, OfJob(Join));
      more := Joined(s, es + [OfJob(Join)], k + 1);
    }
  }

  /** From its last check on the Job succeeds and no thread has reported an error. */
  ghost predicate CleanSuccess(s: State, es: seq<Step>) {
    && es != [] && es[0] == OfJob(CheckErrors) && Run(s, es)
    && Exec(s, es).phase == Succeeded && !Exec(s, es).threadError
  }

  lemma CleanSuccessFrom(s: State)
    requires AbortsSeen(s) && s.phase == Stopped(false) && !s.threadError && s.runThreads
    ensures exists es :: CleanSuccess(s, es)
  {
    var a, b := OfJob(CheckErrors), OfJob(StopThreads);
    assert Run(s, []) && Exec(s, []) == s;
    hide Run, Exec;
    Extend(s, [], a);
    Extend(s, [] + [a], b);
    QuietAfterCheck(s);
    var es := Drained(s, [] + [a] + [b]);
    es := Joined(s, es, 0);
    assert CleanSuccess(s, es);
  }

  lemma QuietAfterCheck(s: State)
    requires AbortsSeen(s) && s.phase == Stopped(false) && !s.threadError && s.runThreads
    ensures Quiet(Do(Do(s, OfJob(CheckErrors)), OfJob(StopThreads)))
  {
    forall i | 0 <= i < |s.workers| ensures s.workers[i].pc != Aborting {
      assert !Unreported(s, i);
    }
  }

  lemma UnreportedBlocks(s: State, es: seq<Step>, i: nat)
    requires Inv(s) && Run(s, es) && Unreported(s, i) && Exec(s, es).phase == Succeeded
    ensures Exec(s, es).threadError
  {
    hide Run, Exec;
    RunKeepsInv(s, es);
    RunKeepsUnreported(s, es, i);
  }

  /** Exactly when: at a check that passes, the Job can still succeed with no error reported if
      and only if run_threads is still set. Otherwise every run from there that succeeds ends
      with an error the Job has missed. */
  lemma SuccessExactly(s: State, before: seq<Step>)
    requires Init(s) && Run(s, before)
    requires Exec(s, before).phase == Stopped(false) && !Exec(s, before).threadError
    ensures var r := Exec(s, before);
      && ((exists es :: CleanSuccess(r, es)) <==> r.runThreads)
      && (!r.runThreads ==> forall es :: Run(r, es) && Exec(r, es).phase == Succeeded ==> Exec(r, es).threadError)
  {
    hide Inv, AbortsSeen;
    var r := Exec(s, before);
    RunInv(s, before);
    RunSeesAborts(s, before);
    if r.runThreads {
      CleanSuccessFrom(r);
    } else {
      var i := SomeUnreported(r);
      forall es | Run(r, es) && Exec(r, es).phase == Succeeded ensures Exec(r, es).threadError {
        UnreportedBlocks(r, es, i);
      }
    }
  }

  lemma SomeUnreported(s: State) returns (i: nat)
    requires AbortsSeen(s) && s.phase == Stopped(false) && !s.threadError && !s.runThreads
    ensures Unreported(s, i)
  {
    i :| Unreported(s, i);
  }

  // ---- what the protocol does not give -------------------------------------------------

  const ONE_WORKER := State(Initializing, true, false, false, 0, 0, None, [FRESH])

  /** A job with a single thread can get to this state. */
  ghost predicate Reached(s: State) {
    exists es :: Run(ONE_WORKER, es) && Exec(ONE_WORKER, es) == s
  }

  lemma ReachStep(s: State, e: Step)
    requires Reached(s) && Enabled(s, e)
    ensures Reached(Do(s, e))
  {
    var es :| Run(ONE_WORKER, es) && Exec(ONE_WORKER, es) == s;
    Extend(ONE_WORKER, es, e);
  }

  /** The thread in a pass with its op completed, before the Job has gone on. */
  const IN_PASS := Worker(Passed, true, 0, false, 0, true, 0, 0, [])
  const WORKING := State(Initializing, true, false, false, 1, 0, None, [IN_PASS])

  lemma ReachHead()
    ensures Reached(WORKING.(workers := [IN_PASS.(pc := Head)]))
  {
    assert Run(ONE_WORKER, []) && Exec(ONE_WORKER, []) == ONE_WORKER;
    hide Run, Exec, Reached;
    var s := ONE_WORKER;
    ReachStep(s, OfWorker(0, SubmitBatch));
    s := s.(workers := [FRESH.(pc := Submitted, submitted := true)]);
    ReachStep(s, OfWorker(0, Count));
    s := s.(threadCounter := 1, workers := [IN_PASS.(pc := Counted)]);
    ReachStep(s, OfWorker(0, SetInitialized));
    assert Do(s, OfWorker(0, SetInitialized)).workers == [IN_PASS.(pc := Head)];
  }

  lemma ReachPass()
    ensures Reached(WORKING)
  {
    hide Run, Exec, Reached;
    ReachHead();
    var s := WORKING.(workers := [IN_PASS.(pc := Head)]);
    ReachStep(s, OfWorker(0, EnterPass));
    s := s.(workers := [IN_PASS.(pc := Testing)]);
    ReachStep(s, OfWorker(0, ReadThrottle));
    s := s.(workers := [IN_PASS.(pc := InPass)]);
    ReachStep(s, OfWorker(0, WaitForOp));
    s := s.(workers := [IN_PASS.(pc := Waited)]);
    ReachStep(s, OfWorker(0, CheckRun));
    assert Do(s, OfWorker(0, CheckRun)).workers == [IN_PASS];
  }

  /** The Job records while the thread stays in its pass. */
  lemma ReachRecording()
    ensures Reached(WORKING.(phase := Recording, recordResults := true, startTime := Some(0)))
  {
    hide Run, Exec, Reached;
    ReachPass();
    var s := WORKING;
    ReachStep(s, OfJob(Initialized(false)));
    s := s.(phase := Ready);
    ReachStep(s, OfJob(TakeStartTime));
    s := s.(phase := Started, startTime := Some(0));
    ReachStep(s, OfJob(StartRecording));
  }

  const UNREPORTED := State(Stopped(false), false, false, false, 1, 0, Some(0), [IN_PASS.(pc := Aborting)])

  /** The Job's last check can pass although a thread has failed already and has stopped the
      others: it has not reported the error yet. */
  lemma UnreportedAtCheck()
    ensures Reached(UNREPORTED) && Do(UNREPORTED, OfJob(CheckErrors)).phase == Measured
  {
    hide Run, Exec, Reached;
    ReachRecording();
    var s := WORKING.(phase := Recording, recordResults := true, startTime := Some(0));
    ReachStep(s, OfWorker(0, Abort));
    s := s.(runThreads := false, workers := [IN_PASS.(pc := Aborting)]);
    ReachStep(s, OfJob(StopRecording(false)));
  }

  const LATE_ERROR := State(Succeeded, false, false, true, 1, 0, Some(0), [IN_PASS.(pc := Ended)])

  lemma ReachLateError()
    ensures Reached(LATE_ERROR)
  {
    hide Run, Exec, Reached;
    UnreportedAtCheck();
    var s := UNREPORTED;
    ReachStep(s, OfJob(CheckErrors));
    s := s.(phase := Measured);
    ReachStep(s, OfWorker(0, MarkError));
    s := s.(threadError := true, workers := [IN_PASS.(pc := AbortMarked)]);
    ReachStep(s, OfWorker(0, EndAbort));
    s := s.(workers := [IN_PASS.(pc := Ended)]);
    ReachStep(s, OfJob(StopThreads));
    s := s.(phase := Joining(0));
    ReachStep(s, OfJob(Join));
    s := s.(phase := Joining(1));
    ReachStep(s, OfJob(Finish));
  }

  /** run_job can return true although a thread has failed and said so. */
  lemma MissedError()
    ensures exists es ::
              Run(ONE_WORKER, es) && Exec(ONE_WORKER, es).phase == Succeeded && Exec(ONE_WORKER, es).threadError
  {
    ReachLateError();
    var es :| Run(ONE_WORKER, es) && Exec(ONE_WORKER, es) == LATE_ERROR;
  }

  const EARLY := State(Recording, true, true, false, 1, 1, Some(1),
    [IN_PASS.(pc := Resubmit, recorded := 1, early := 1, log := [Seen(false, 0, true)])])

  lemma ReachEarly()
    ensures Reached(EARLY)
  {
    hide Run, Exec, Reached;
    ReachPass();
    var s := WORKING;
    ReachStep(s, OfWorker(0, TakeStamp));
    s := s.(workers := [IN_PASS.(pc := Stamped)]);
    ReachStep(s, OfJob(Initialized(false)));
    s := s.(phase := Ready);
    ReachStep(s, Tick(1));
    s := s.(now := 1);
    ReachStep(s, OfJob(TakeStartTime));
    s := s.(phase := Started, startTime := Some(1));
    ReachStep(s, OfJob(StartRecording));
    s := s.(phase := Recording, recordResults := true);
    ReachStep(s, OfWorker(0, ReadRecord));
    assert [] + [Seen(false, 0, true)] == [Seen(false, 0, true)];
    assert Do(s, OfWorker(0, ReadRecord)).workers == [IN_PASS.(pc := Record, log := [Seen(false, 0, true)])];
    s := s.(workers := [IN_PASS.(pc := Record, log := [Seen(false, 0, true)])]);
    ReachStep(s, OfWorker(0, RecordOp));
    assert Do(s, OfWorker(0, RecordOp)).workers == EARLY.workers;
  }

  /** A run in which an op is recorded with a stamp older than the start time. */
  lemma EarlyStamp()
    ensures exists es :: Run(ONE_WORKER, es) && Exec(ONE_WORKER, es) == EARLY
    ensures Early(EARLY, EARLY.workers[0]) && EARLY.workers[0].recorded == 1
  {
    ReachEarly();
  }
}
