/** The POSIX manager keeps the contract of async_io.h for every group, under every
    interleaving: seen from one group, the run of all threads is a run of that contract.
    Submit drains the queue one op at a time; it takes effect, for the client, when it ends. */
module PosixContract {
  import opened AsyncIo
  import opened PosixInterleaving

  /** During a submit the whole batch still counts as queued. */
  ghost function Abs(t: Thread): Group<Op> {
    match t.pc
    case Draining(batch) => Group(batch, Members(t.vec) - Members(batch))
    case Popped(batch, _) => Group(batch, Members(t.vec) - Members(batch))
    case Started(batch, _) => Group(batch, Members(t.vec) - Members(batch))
    case Pushed(batch, _) => Group(batch, Members(t.vec) - Members(batch))
    case Taken(_, cb) => Group(t.queue, Members(t.vec) + {cb})
    case _ => Group(t.queue, Members(t.vec))
  }

  predicate Submitting(t: Thread) {
    t.pc.Draining? || t.pc.Popped? || t.pc.Started? || t.pc.Pushed?
  }

  /** Nothing of the batch is lost: what has left the queue is in hand or in the vector. */
  ghost predicate BatchKept(t: Thread) {
    Submitting(t) ==>
      && (forall op :: op in t.pc.batch ==> op in t.queue || InHand(t, op) || op in t.vec)
      && (forall op :: op in t.queue || InHand(t, op) ==> op in t.pc.batch)
      && (t.pc.Pushed? ==> t.pc.op in t.pc.batch)
  }

  ghost predicate BatchesKept(s: State) {
    forall g :: g in s.threads ==> BatchKept(s.threads[g])
  }

  /** The client call that takes effect for group `g` in a step. */
  ghost function CallOf(s: State, e: Step, g: Gid): seq<Call<Op>> {
    if e.Complete? || e.g != g || g !in s.threads then []
    else match e
      case Enqueue(_, op) => [Call<Op>.Enqueue(op)]
      case EndSubmit(_) => [Call<Op>.Submit]
      case Collect(_) => if s.threads[g].pc.Taken? then [Call<Op>.Wait(s.threads[g].pc.cb)] else []
      case _ => []
  }

  ghost function Calls(s: State, es: seq<Step>, g: Gid): seq<Call<Op>>
    requires PosixInterleaving.Run(s, es)
    decreases |es|
  {
    if es == [] then [] else CallOf(s, es[0], g) + Calls(Do(s, es[0]), es[1..], g)
  }

  lemma BatchStep(s: State, e: Step, g: Gid)
    requires Enabled(s, e) && !e.Complete? && e.g == g && BatchKept(s.threads[g])
    ensures BatchKept(Do(s, e).threads[g])
  {
    var t := s.threads[g];
    if e.Pop? {
      var n := |t.queue| - 1;
      assert t.queue == t.queue[..n] + [t.queue[n]];
      assert forall op :: op in t.queue <==> op in t.queue[..n] || op == t.queue[n];
    } else if e.Push? {
      assert InHand(t, t.pc.op);
      assert forall op :: op in Watched(t).vec <==> op in t.vec || op == t.pc.op;
    }
  }

  lemma BatchesStep(s: State, e: Step)
    requires Enabled(s, e) && BatchesKept(s)
    ensures BatchesKept(Do(s, e))
  {
    if !e.Complete? {
      BatchStep(s, e, e.g);
    }
  }

  /** A step of another thread, or of the OS, changes nothing the client of `g` can see. */
  lemma ForeignStep(s: State, e: Step, g: Gid)
    requires Enabled(s, e) && g in s.threads && (e.Complete? || e.g != g)
    ensures g in Do(s, e).threads && Do(s, e).threads[g] == s.threads[g]
  {
  }

  /** Seen from `g`, the step is the contract's calls `CallOf`, and a wait among them hands
      back a completed op. */
  ghost predicate Refines(s: State, e: Step, g: Gid, a: Group<Op>, b: Group<Op>) {
    var calls := CallOf(s, e, g);
    && LegalRun(a, calls) && AsyncIo.Run(a, calls) == b
    && (forall c :: c in calls && c.Wait? ==> c.op in s.done)
  }

  /** A step of `g` is invisible to its client, or is exactly the contract's call: the
      enqueued op was free, submit moves the whole queue, wait returns an op that was in
      flight and has completed. */
  lemma OwnStep(s: State, e: Step, g: Gid)
    requires Enabled(s, e) && !e.Complete? && e.g == g
    requires ThreadInv(s, g, s.threads[g]) && BatchKept(s.threads[g])
    ensures Refines(s, e, g, Abs(s.threads[g]), Abs(Do(s, e).threads[g]))
  {
    var t := s.threads[g];
    var a, b := Abs(t), Abs(Do(s, e).threads[g]);
    match e
    case Enqueue(_, op) =>
    case BeginSubmit(_) => assert Members(t.vec) - Members(t.queue) == Members(t.vec);
    case Pop(_) =>
    case Start(_) =>
    case Push(_) =>
      assert InHand(t, t.pc.op);
      assert forall op :: op in Watched(t).vec <==> op in t.vec || op == t.pc.op;
      assert b.inFlight == a.inFlight;
    case Register(_, _) =>
    case EndSubmit(_) =>
      assert b.inFlight == Members(t.vec);
      assert a.inFlight + Members(t.pc.batch) == Members(t.vec);
    case BeginWait(_) =>
    case Poll(_) =>
      if t.vec[t.pc.at] !in s.running {
        LocalErase(s.owner, g, t, ToUnsigned(s.flightId[t.vec[t.pc.at]]));
        assert t.vec[t.pc.at] in t.vec;
        assert b.inFlight == a.inFlight;
      }
    case Collect(_) => assert b.inFlight == a.inFlight - {t.pc.cb};
  }

  /** Every interleaving of all threads and the OS, seen from group `g`, is a legal run of
      the contract that ends in the group's view of the final state. */
  lemma {:induction false} EveryRunRefines(s: State, es: seq<Step>, g: Gid)
    requires Inv(s) && BatchesKept(s) && PosixInterleaving.Run(s, es) && g in s.threads
    ensures g in Exec(s, es).threads
    ensures LegalRun(Abs(s.threads[g]), Calls(s, es, g))
    ensures AsyncIo.Run(Abs(s.threads[g]), Calls(s, es, g)) == Abs(Exec(s, es).threads[g])
    decreases |es|
  {
    if es == [] {
    } else {
      var e := es[0];
      if e.Complete? || e.g != g {
        ForeignStep(s, e, g);
      } else {
        assert ThreadInv(s, g, s.threads[g]);
        OwnStep(s, e, g);
      }
      StepInv(s, e);
      BatchesStep(s, e);
      EveryRunRefines(Do(s, e), es[1..], g);
      RunAppend(Abs(s.threads[g]), CallOf(s, e, g), Calls(Do(s, e), es[1..], g));
    }
  }

  /** So, over any interleaving, an op is handed back at most once per enqueue, and the one
      hand-back that is outstanding belongs to an op the manager still holds. */
  lemma OpsConserved(s: State, es: seq<Step>, g: Gid, op: Op)
    requires Init(s) && PosixInterleaving.Run(s, es) && g in s.threads
    ensures g in Exec(s, es).threads
    ensures Enqueues(Calls(s, es, g), op)
         == Returns(Calls(s, es, g), op) + Managed(Abs(Exec(s, es).threads[g]), op)
  {
    InitInv(s);
    EveryRunRefines(s, es, g);
    RunConserves(Abs(s.threads[g]), Calls(s, es, g), op);
  }
}
