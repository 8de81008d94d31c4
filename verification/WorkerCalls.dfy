/** The calls a worker makes to its I/O manager, and the names the manager has for its ops. */
module WorkerCalls {
  import opened AsyncIo
  import W = Worker
  import S = System

  type OpId = W.OpId

  /** The calls a worker makes in one step. */
  function CallsOf(w: W.Thread, e: W.Step): seq<Call<OpId>>
    requires W.Enabled(w, e)
  {
    match e
    case Construct(_, _) => [Enqueue(W.OpId(w.phase.t, w.phase.i))]
    case SubmitBatch => [Submit]
    case Loop(p) => if W.Throttled(w, p) then [] else [Wait(p.op), Enqueue(p.op), Submit]
    case StopAfterWait(op) => [Wait(op)]
    case _ => []
  }

  function CallsMade(w: W.Thread, es: seq<W.Step>): seq<Call<OpId>>
    requires W.Run(w, es)
  {
    if es == [] then []
    else CallsMade(w, es[..|es| - 1]) + CallsOf(W.Exec(w, es[..|es| - 1]), es[|es| - 1])
  }

  /** A worker keeps to the contract in each of its steps. */
  lemma StepIsLegal(w: W.Thread, e: W.Step)
    requires W.DepthKept(w) && W.Enabled(w, e)
    ensures LegalRun(w.group, CallsOf(w, e)) && Run(w.group, CallsOf(w, e)) == W.Do(w, e).group
  {
    match e
    case Construct(percentage, o) =>
      W.ConstructKeepsDepth(w, percentage, o);
      OneCall(w.group, Enqueue(W.OpId(w.phase.t, w.phase.i)));
    case SubmitBatch => OneCall(w.group, Submit);
    case Loop(p) =>
      if !W.Throttled(w, p) {
        PassCalls(w.group, p.op);
      }
    case StopAfterWait(op) => OneCall(w.group, Wait(op));
    case _ =>
  }

  lemma OneCall(g: Group<OpId>, c: Call<OpId>)
    requires Legal(g, c)
    ensures LegalRun(g, [c]) && Run(g, [c]) == Apply(g, c)
  {
    assert LegalRun(Apply(g, c), []);
  }

  lemma PassCalls(g: Group<OpId>, op: OpId)
    requires g.queue == [] && op in g.inFlight
    ensures LegalRun(g, [Wait(op), Enqueue(op), Submit])
    ensures Run(g, [Wait(op), Enqueue(op), Submit]) == g.Wait(op).Enqueue(op).Submit()
  {
    var a, b, c := [Wait(op)], [Call<OpId>.Enqueue(op)], [Call<OpId>.Submit];
    OneCall(g, Wait(op));
    OneCall(g.Wait(op), Enqueue(op));
    OneCall(g.Wait(op).Enqueue(op), Submit);
    RunAppend(g, a, b);
    RunAppend(g, a + b, c);
    assert a + b + c == [Wait(op), Enqueue(op), Submit];
  }

  /** So over a whole run: the worker only enqueues what it holds and waits only for what is
      in flight. */
  lemma {:induction false} WorkerIsLegal(w: W.Thread, es: seq<W.Step>)
    requires W.Init(w) && W.Run(w, es)
    ensures LegalRun(w.group, CallsMade(w, es))
    ensures Run(w.group, CallsMade(w, es)) == W.Exec(w, es).group
    decreases |es|
  {
    hide W.Do, W.Enabled, W.Init, CallsOf;
    if es == [] {
    } else {
      var front, e := es[..|es| - 1], es[|es| - 1];
      WorkerIsLegal(w, front);
      W.RunKeepsDepth(w, front);
      StepIsLegal(W.Exec(w, front), e);
      RunAppend(w.group, CallsMade(w, front), CallsOf(W.Exec(w, front), e));
    }
  }

  // ---- the manager's names for the ops ---------------------------------------------------

  /** All ops of a worker. */
  ghost function OwnOps(w: W.Thread): (ids: set<OpId>)
    ensures |ids| == S.Overlaps(w.targets)
    ensures forall op :: op in ids <==> W.IsOp(w, op)
  {
    assert w.targets[..|w.targets|] == w.targets;
    S.OpsUpTo(w.targets, |w.targets|)
  }

  /** Different ops out of `ids` have different names. */
  ghost predicate Injective<T>(name: OpId -> T, ids: set<OpId>) {
    forall a, b :: a in ids && b in ids && name(a) == name(b) ==> a == b
  }

  /** The group holds only ops out of `ids`. */
  ghost predicate Within<Op>(g: Group<Op>, ids: set<Op>) {
    Members(g.queue) <= ids && g.inFlight <= ids
  }

  ghost predicate EnqueuesIn<Op>(calls: seq<Call<Op>>, ids: set<Op>) {
    forall k :: 0 <= k < |calls| && calls[k].Enqueue? ==> calls[k].op in ids
  }

  function NamedCall<T(==)>(name: OpId -> T, c: Call<OpId>): Call<T> {
    match c
    case Enqueue(op) => Enqueue(name(op))
    case Submit => Submit
    case Wait(op) => Wait(name(op))
  }

  function NamedCalls<T(==)>(name: OpId -> T, calls: seq<Call<OpId>>): (r: seq<Call<T>>)
    ensures |r| == |calls| && forall k :: 0 <= k < |calls| ==> r[k] == NamedCall(name, calls[k])
  {
    seq(|calls|, k requires 0 <= k < |calls| => NamedCall(name, calls[k]))
  }

  function NamedSeq<T(==)>(name: OpId -> T, s: seq<OpId>): (r: seq<T>)
    ensures |r| == |s| && forall i :: 0 <= i < |s| ==> r[i] == name(s[i])
  {
    seq(|s|, i requires 0 <= i < |s| => name(s[i]))
  }

  function NamedSet<T(==)>(name: OpId -> T, s: set<OpId>): set<T> {
    set op | op in s :: name(op)
  }

  function Named<T(==)>(name: OpId -> T, g: Group<OpId>): Group<T> {
    Group(NamedSeq(name, g.queue), NamedSet(name, g.inFlight))
  }

  lemma NamedMembers<T>(name: OpId -> T, s: seq<OpId>)
    ensures Members(NamedSeq(name, s)) == NamedSet(name, Members(s))
  {
    var q := NamedSeq(name, s);
    forall n | n in Members(q) ensures n in NamedSet(name, Members(s)) {
      var i :| 0 <= i < |q| && q[i] == n;
      assert s[i] in Members(s);
    }
    forall n | n in NamedSet(name, Members(s)) ensures n in Members(q) {
      var op :| op in Members(s) && name(op) == n;
      var i :| 0 <= i < |s| && s[i] == op;
      assert q[i] == n;
    }
  }

  lemma NamedIn<T>(name: OpId -> T, ids: set<OpId>, s: set<OpId>, op: OpId)
    requires Injective(name, ids) && s <= ids && op in ids
    ensures name(op) in NamedSet(name, s) <==> op in s
  {
  }

  /** A legal call stays legal under the manager's names, and does the same. */
  lemma ApplyNamed<T>(name: OpId -> T, ids: set<OpId>, g: Group<OpId>, c: Call<OpId>)
    requires Injective(name, ids) && Within(g, ids) && Legal(g, c) && (c.Enqueue? ==> c.op in ids)
    ensures Legal(Named(name, g), NamedCall(name, c)) && Within(Apply(g, c), ids)
    ensures Apply(Named(name, g), NamedCall(name, c)) == Named(name, Apply(g, c))
  {
    NamedMembers(name, g.queue);
    match c
    case Enqueue(op) =>
      NamedIn(name, ids, g.inFlight, op);
      NamedIn(name, ids, Members(g.queue), op);
      assert name(op) !in Members(NamedSeq(name, g.queue));
      assert Members(g.queue + [op]) == Members(g.queue) + {op};
    case Submit =>
      assert NamedSet(name, g.inFlight + Members(g.queue))
          == NamedSet(name, g.inFlight) + NamedSet(name, Members(g.queue));
    case Wait(op) =>
      assert NamedSet(name, g.inFlight - {op}) == NamedSet(name, g.inFlight) - {name(op)};
  }

  /** So does a legal run. */
  lemma {:induction false} RunNamed<T>(name: OpId -> T, ids: set<OpId>, g: Group<OpId>, calls: seq<Call<OpId>>)
    requires Injective(name, ids) && Within(g, ids) && LegalRun(g, calls) && EnqueuesIn(calls, ids)
    ensures LegalRun(Named(name, g), NamedCalls(name, calls))
    ensures Run(Named(name, g), NamedCalls(name, calls)) == Named(name, Run(g, calls))
    decreases |calls|
  {
    hide Injective, Within, Named, NamedCall, Apply;
    if calls == [] {
    } else {
      ApplyNamed(name, ids, g, calls[0]);
      RunNamed(name, ids, Apply(g, calls[0]), calls[1..]);
      assert NamedCalls(name, calls)[1..] == NamedCalls(name, calls[1..]);
    }
  }

  lemma {:induction false} NamedCard<T>(name: OpId -> T, ids: set<OpId>, s: set<OpId>)
    requires Injective(name, ids) && s <= ids
    ensures |NamedSet(name, s)| == |s|
    decreases |s|
  {
    if s == {} {
    } else {
      var op :| op in s;
      NamedCard(name, ids, s - {op});
      NamedIn(name, ids, s - {op}, op);
      assert NamedSet(name, s) == NamedSet(name, s - {op}) + {name(op)};
    }
  }

  /** Every enqueue of a worker is of one of its own ops. */
  lemma {:induction false} WorkerEnqueuesOwn(w: W.Thread, es: seq<W.Step>)
    requires W.Init(w) && W.Run(w, es)
    ensures EnqueuesIn(CallsMade(w, es), OwnOps(w))
    decreases |es|
  {
    hide W.Do, W.Enabled, W.Init, CallsOf;
    if es == [] {
    } else {
      var front, e := es[..|es| - 1], es[|es| - 1];
      WorkerEnqueuesOwn(w, front);
      W.RunKeepsDepth(w, front);
      W.RunKeepsConfig(w, front);
      StepEnqueuesOwn(W.Exec(w, front), e);
      assert OwnOps(W.Exec(w, front)) == OwnOps(w);
    }
  }

  lemma StepEnqueuesOwn(w: W.Thread, e: W.Step)
    requires W.DepthKept(w) && W.Enabled(w, e)
    ensures EnqueuesIn(CallsOf(w, e), OwnOps(w))
  {
    hide W.DepthKept, W.Throttled, EnqueuesIn;
    if e.Loop? && !W.Throttled(w, e.p) {
      InFlightIsOwn(w, e.p.op);
      PassEnqueues(e.p.op, OwnOps(w));
    } else {
      OwnEnqueues(w, e);
    }
  }

  lemma InFlightIsOwn(w: W.Thread, op: OpId)
    requires W.DepthKept(w) && w.phase.Working? && op in w.group.inFlight
    ensures op in OwnOps(w)
  {
  }

  lemma PassEnqueues(op: OpId, ids: set<OpId>)
    requires op in ids
    ensures EnqueuesIn([Wait(op), Enqueue(op), Submit], ids)
  {
  }

  /** The steps other than a pass enqueue at most the op they construct. */
  lemma OwnEnqueues(w: W.Thread, e: W.Step)
    requires W.Enabled(w, e) && (e.Loop? ==> W.Throttled(w, e.p))
    ensures EnqueuesIn(CallsOf(w, e), OwnOps(w))
  {
    hide W.Throttled, EnqueuesIn, OwnOps;
    if e.Construct? {
      OneEnqueue(W.OpId(w.phase.t, w.phase.i), OwnOps(w));
    } else {
      NoEnqueue(CallsOf(w, e), OwnOps(w));
    }
  }

  lemma OneEnqueue(op: OpId, ids: set<OpId>)
    requires op in ids
    ensures EnqueuesIn([Enqueue(op)], ids)
  {
  }

  lemma NoEnqueue(calls: seq<Call<OpId>>, ids: set<OpId>)
    requires |calls| <= 1 && (|calls| == 1 ==> !calls[0].Enqueue?)
    ensures EnqueuesIn(calls, ids)
  {
  }

  /** A worker's calls under the manager's names: a legal run from a fresh group that ends in
      the worker's own group. */
  lemma NamedRun<T>(w: W.Thread, es: seq<W.Step>, name: OpId -> T)
    requires W.Init(w) && W.Run(w, es) && Injective(name, OwnOps(w))
    ensures LegalRun(Group([], {}), NamedCalls(name, CallsMade(w, es)))
    ensures Run(Group([], {}), NamedCalls(name, CallsMade(w, es))) == Named(name, W.Exec(w, es).group)
  {
    hide W.Run, W.Exec, CallsMade, Run, LegalRun, NamedCalls;
    WorkerIsLegal(w, es);
    WorkerEnqueuesOwn(w, es);
    RunNamed(name, OwnOps(w), w.group, CallsMade(w, es));
    assert Named(name, w.group) == Group([], {});
  }

  /** Target number `t` has exactly `overlap` ops in flight. */
  ghost predicate TargetInFlight<T>(w: W.Thread, name: OpId -> T, inFlight: set<T>, t: nat)
    requires t < |w.targets|
  {
    var own := NamedSet(name, W.OpsOf(t, w.targets[t].overlap));
    own <= inFlight && |own| == w.targets[t].overlap
  }

  /** The ops in flight are the worker's own and no others, each under its own name, and for
      every target exactly `overlap` of them. */
  ghost predicate FullDepth<T>(w: W.Thread, name: OpId -> T, inFlight: set<T>) {
    && inFlight == NamedSet(name, OwnOps(w)) && |inFlight| == S.Overlaps(w.targets)
    && forall t :: 0 <= t < |w.targets| ==> TargetInFlight(w, name, inFlight, t)
  }

  lemma FullDepthCard<T>(w: W.Thread, name: OpId -> T, inFlight: set<T>)
    requires FullDepth(w, name, inFlight)
    ensures |inFlight| == S.Overlaps(w.targets)
  {
  }

  /** Whatever the manager, when its view of the group is the worker's: at the head of the work
      loop nothing is queued, and exactly `overlap` ops of each target are in flight. */
  lemma DepthAtHead<T>(w: W.Thread, es: seq<W.Step>, name: OpId -> T, g: Group<T>)
    requires W.Init(w) && W.Run(w, es) && Injective(name, OwnOps(w)) && W.Exec(w, es).phase.Working?
    requires g == Named(name, W.Exec(w, es).group)
    ensures g.queue == [] && FullDepth(w, name, g.inFlight)
  {
    hide W.Run, W.Exec, Injective;
    var r := W.Exec(w, es);
    W.RunKeepsConfig(w, es);
    W.RunKeepsDepth(w, es);
    assert r.group.inFlight == OwnOps(w);
    NamedCard(name, OwnOps(w), OwnOps(w));
    forall t | 0 <= t < |w.targets| ensures TargetInFlight(w, name, g.inFlight, t) {
      var own := W.OpsOf(t, w.targets[t].overlap);
      assert own <= OwnOps(w);
      NamedCard(name, OwnOps(w), own);
    }
  }
}
