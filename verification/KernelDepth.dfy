/** The worker loop on the kernel manager: its calls, made on a group of that manager, with
    every submit taken by the kernel. */
module KernelDepth {
  import opened AsyncIo
  import FlightIds
  import opened KernelAio
  import opened WorkerCalls
  import W = Worker
  import S = System

  /** One call of the group's client. The kernel reports an op by the word in its control
      block; `res` is its result. */
  method MakeCall(k: KernelGroup, c: Call<Iop>, res: int, ghost ops: set<Iop>)
    requires k.Valid() && Within(k.Abs(), ops) && |ops| < ID_SPACE
    requires Legal(k.Abs(), c) && (c.Enqueue? ==> c.op in ops)
    modifies k, ops, k.arrays
    ensures k.Valid() && k.Abs() == Apply(old(k.Abs()), c) && Within(k.Abs(), ops)
    ensures fresh(k.arrays - old(k.arrays))
  {
    match c
    case Enqueue(op) =>
      var _ := k.Enqueue(op);
    case Submit =>
      SubmitRoom(k, ops);
      var _ := k.Submit(|k.opQueue|);
    case Wait(op) =>
      WordOf(k, op);
      var _ := k.Wait(op.data, res);
  }

  lemma SubmitRoom(k: KernelGroup, ops: set<Iop>)
    requires k.Valid() && Within(k.Abs(), ops) && |ops| < ID_SPACE
    ensures |k.inFlight| + |k.opQueue| < ID_SPACE
  {
    FlightIds.InjectiveCard(k.inFlight);
    DistinctCard(k.opQueue);
    var q, f := Members(k.opQueue), k.inFlight.Values;
    assert |q + f| == |q| + |f|;
    FlightIds.CardSubset(q + f, ops);
  }

  lemma WordOf(k: KernelGroup, op: Iop)
    requires k.Valid() && op in k.Abs().inFlight
    ensures op.data in k.ctx && k.inFlight[op.data] == op
  {
    var id :| id in k.inFlight && k.inFlight[id] == op;
    assert op.data == id;
  }

  /** Any legal sequence of calls: the class keeps the contract over whole runs. `res` gives the
      results the kernel reports. */
  method MakeCalls(k: KernelGroup, calls: seq<Call<Iop>>, res: nat -> int, ghost ops: set<Iop>)
    requires k.Valid() && Within(k.Abs(), ops) && |ops| < ID_SPACE
    requires LegalRun(k.Abs(), calls) && EnqueuesIn(calls, ops)
    modifies k, ops, k.arrays
    ensures k.Valid() && k.Abs() == Run(old(k.Abs()), calls)
  {
    hide Within;
    var i := 0;
    while i < |calls|
      invariant 0 <= i <= |calls| && k.Valid() && Within(k.Abs(), ops)
      invariant LegalRun(k.Abs(), calls[i..]) && Run(k.Abs(), calls[i..]) == Run(old(k.Abs()), calls)
      invariant fresh(k.arrays - old(k.arrays))
    {
      assert calls[i..][0] == calls[i] && calls[i..][1..] == calls[i + 1..];
      MakeCall(k, calls[i], res(i), ops);
      i := i + 1;
    }
  }

  /** The worker loop's calls made on a fresh group: whenever the worker stands at the head of
      its loop nothing is queued, and the in-flight map holds each of its ops once, for every
      target exactly `overlap` of them. */
  method WorkOnKernel(k: KernelGroup, w: W.Thread, es: seq<W.Step>, name: OpId -> Iop, res: nat -> int,
                      ghost ops: set<Iop>)
    requires k.Valid() && k.Abs() == Group([], {}) && W.Init(w) && W.Run(w, es)
    requires Injective(name, OwnOps(w)) && NamedSet(name, OwnOps(w)) <= ops && |ops| < ID_SPACE
    modifies k, ops, k.arrays
    ensures k.Valid() && k.Abs() == Named(name, W.Exec(w, es).group)
    ensures W.Exec(w, es).phase.Working? ==>
              && k.opQueue == [] && |k.inFlight| == S.Overlaps(w.targets)
              && FullDepth(w, name, k.inFlight.Values)
  {
    hide W.Run, W.Exec, CallsMade, Run, LegalRun, NamedCalls, FullDepth;
    NamedRun(w, es, name);
    EnqueuesNamed(w, es, name, ops);
    MakeCalls(k, NamedCalls(name, CallsMade(w, es)), res, ops);
    if W.Exec(w, es).phase.Working? {
      DepthAtHead(w, es, name, k.Abs());
      InFlightCard(k);
      FullDepthCard(w, name, k.inFlight.Values);
    }
  }

  lemma EnqueuesNamed(w: W.Thread, es: seq<W.Step>, name: OpId -> Iop, ops: set<Iop>)
    requires W.Init(w) && W.Run(w, es) && NamedSet(name, OwnOps(w)) <= ops
    ensures EnqueuesIn(NamedCalls(name, CallsMade(w, es)), ops)
  {
    hide W.Run, W.Exec, CallsMade;
    WorkerEnqueuesOwn(w, es);
    var made := CallsMade(w, es);
    forall k | 0 <= k < |made| && made[k].Enqueue? ensures name(made[k].op) in ops {
      assert name(made[k].op) in NamedSet(name, OwnOps(w));
    }
  }

  lemma InFlightCard(k: KernelGroup)
    requires k.Valid()
    ensures |k.inFlight| == |k.inFlight.Values|
  {
    FlightIds.InjectiveCard(k.inFlight);
    ValuesCard(k.inFlight);
  }

  lemma {:induction false} ValuesCard(m: map<nat, Iop>)
    ensures |m.Values| <= |m|
    decreases |m|
  {
    if m == map[] {
    } else {
      var id :| id in m;
      var n := m - {id};
      ValuesCard(n);
      forall v | v in m.Values ensures v in n.Values + {m[id]} {
        var a :| a in m && m[a] == v;
        assert a == id || n[a] == v;
      }
      FlightIds.CardSubset(m.Values, n.Values + {m[id]});
    }
  }

  // ---- with the ops a thread constructs --------------------------------------------------

  /** The ops of the first `t` targets and the first `i` of target number `t`. */
  predicate BuiltSoFar(w: W.Thread, t: nat, i: nat, op: W.OpId) {
    op.t < |w.targets| && op.i < w.targets[op.t].overlap && (op.t < t || (op.t == t && op.i < i))
  }

  /** Every op is in the table once, as an object of its own. */
  ghost predicate Table(w: W.Thread, t: nat, i: nat, table: map<W.OpId, Iop>) {
    && (forall op :: op in table <==> BuiltSoFar(w, t, i, op))
    && (forall a, b :: a in table && b in table && table[a] == table[b] ==> a == b)
  }

  method NewOp(w: W.Thread, t: nat, i: nat, table: map<W.OpId, Iop>) returns (more: map<W.OpId, Iop>)
    requires Table(w, t, i, table) && t < |w.targets| && i < w.targets[t].overlap
    ensures Table(w, t, i + 1, more) && fresh(more.Values - table.Values)
  {
    var op := new Iop(IopType.Read, 0, 0);
    assert forall a :: a in table ==> table[a] != op;
    more := table[W.OpId(t, i) := op];
  }

  /** One object for each op of the worker. Which buffers and kind an op starts with does not
      matter here. */
  method NewOps(w: W.Thread) returns (table: map<W.OpId, Iop>)
    ensures Table(w, |w.targets|, 0, table) && fresh(table.Values)
  {
    table := map[];
    var t := 0;
    while t < |w.targets|
      invariant t <= |w.targets| && Table(w, t, 0, table) && fresh(table.Values)
    {
      var i := 0;
      while i < w.targets[t].overlap
        invariant i <= w.targets[t].overlap && Table(w, t, i, table) && fresh(table.Values)
      {
        table := NewOp(w, t, i, table);
        i := i + 1;
      }
      NextTarget(w, t, table);
      t := t + 1;
    }
  }

  lemma NextTarget(w: W.Thread, t: nat, table: map<W.OpId, Iop>)
    requires t < |w.targets| && Table(w, t, w.targets[t].overlap, table)
    ensures Table(w, t + 1, 0, table)
  {
  }

  /** A thread on a kernel group of its own, from the construction of its ops on. Nothing is
      asked of the run but that there are ids for all its ops. */
  method RunOnKernel(w: W.Thread, es: seq<W.Step>, res: nat -> int)
    returns (k: KernelGroup, ghost name: W.OpId -> Iop)
    requires W.Init(w) && W.Run(w, es) && S.Overlaps(w.targets) < ID_SPACE
    ensures Injective(name, OwnOps(w)) && fresh(k) && k.Valid()
    ensures k.Abs() == Named(name, W.Exec(w, es).group)
    ensures W.Exec(w, es).phase.Working? ==>
              && k.opQueue == [] && |k.inFlight| == S.Overlaps(w.targets)
              && FullDepth(w, name, k.inFlight.Values)
  {
    hide W.Run, W.Exec, FullDepth;
    var table := NewOps(w);
    var other := new Iop(IopType.Read, 0, 0);
    var lookUp := (op: W.OpId) => if op in table then table[op] else other;
    name := lookUp;
    k := new KernelGroup();
    TableNames(w, table, lookUp);
    NamedCard(lookUp, OwnOps(w), OwnOps(w));
    WorkOnKernel(k, w, es, lookUp, res, NamedSet(lookUp, OwnOps(w)));
  }

  lemma TableNames(w: W.Thread, table: map<W.OpId, Iop>, name: W.OpId -> Iop)
    requires Table(w, |w.targets|, 0, table) && forall op :: op in table ==> name(op) == table[op]
    ensures Injective(name, OwnOps(w)) && NamedSet(name, OwnOps(w)) <= table.Values
  {
    assert forall op :: op in OwnOps(w) ==> op in table;
  }
}
