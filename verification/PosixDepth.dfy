/** The worker loop on the POSIX manager: what the two models say together when the calls a
    group sees in an interleaving of all threads are the calls of the worker that owns it. */
module PosixDepth {
  import opened AsyncIo
  import opened WorkerCalls
  import W = Worker
  import S = System
  import P = PosixInterleaving
  import C = PosixContract

  /** Whenever the worker stands at the head of its loop, under any interleaving of all threads
      and the OS, its queue is empty and its suspend vector holds each of its ops once: for
      every target exactly `overlap` of them. */
  lemma DepthOnPosix(s: P.State, run: seq<P.Step>, g: P.Gid, w: W.Thread, es: seq<W.Step>, name: OpId -> nat)
    requires P.Init(s) && P.Run(s, run) && g in s.threads
    requires W.Init(w) && W.Run(w, es) && Injective(name, OwnOps(w))
    requires C.Calls(s, run, g) == NamedCalls(name, CallsMade(w, es))
    requires W.Exec(w, es).phase.Working? && g in P.Exec(s, run).threads && P.Exec(s, run).threads[g].pc == P.Idle
    ensures var t := P.Exec(s, run).threads[g];
      && t.queue == [] && Distinct(t.vec) && |t.vec| == S.Overlaps(w.targets)
      && FullDepth(w, name, Members(t.vec))
  {
    hide P.Run, P.Exec, W.Run, W.Exec, CallsMade, C.Calls, Run, FullDepth;
    var t := P.Exec(s, run).threads[g];
    GroupsAgree(s, run, g, w, es, name);
    DepthAtHead(w, es, name, C.Abs(t));
    VectorDistinct(s, run, g);
    DistinctCard(t.vec);
    FullDepthCard(w, name, Members(t.vec));
  }

  /** The manager's view of the group is the worker's, under the manager's names. */
  lemma GroupsAgree(s: P.State, run: seq<P.Step>, g: P.Gid, w: W.Thread, es: seq<W.Step>, name: OpId -> nat)
    requires P.Init(s) && P.Run(s, run) && g in s.threads
    requires W.Init(w) && W.Run(w, es) && Injective(name, OwnOps(w))
    requires C.Calls(s, run, g) == NamedCalls(name, CallsMade(w, es))
    ensures g in P.Exec(s, run).threads
    ensures C.Abs(P.Exec(s, run).threads[g]) == Named(name, W.Exec(w, es).group)
  {
    hide P.Run, P.Exec, W.Run, W.Exec, CallsMade, C.Calls, Run;
    P.InitInv(s);
    C.EveryRunRefines(s, run, g);
    NamedRun(w, es, name);
    assert C.Abs(s.threads[g]) == Group([], {});
  }

  lemma VectorDistinct(s: P.State, run: seq<P.Step>, g: P.Gid)
    requires P.Init(s) && P.Run(s, run) && g in P.Exec(s, run).threads
    ensures Distinct(P.Exec(s, run).threads[g].vec)
  {
    hide P.Run, P.Exec;
    P.ReachableInv(s, run);
    assert P.ThreadInv(P.Exec(s, run), g, P.Exec(s, run).threads[g]);
  }
}
