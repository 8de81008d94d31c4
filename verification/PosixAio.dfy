/** posix_aio.cc: enqueue, submit and wait as code, run by the thread of one group while the
    threads of the other groups and the OS keep running. Between any two sections that touch
    shared data the code yields: anything the others can do may happen. */
module PosixAio {
  import FlightIds
  import PosixContract
  import opened PosixInterleaving

  function Reverse(s: seq<Op>): seq<Op> {
    if s == [] then [] else Reverse(s[1..]) + [s[0]]
  }

  lemma {:induction false} ReverseLast(s: seq<Op>)
    requires s != []
    ensures Reverse(s) == [Last(s)] + Reverse(s[..|s| - 1])
  {
    if |s| == 1 {
    } else {
      ReverseLast(s[1..]);
      assert s[1..][..|s| - 2] == s[..|s| - 1][1..];
    }
  }

  /** What the thread of `g` can rely on across steps it does not take. */
  ghost predicate SameFor(g: Gid, s: State, r: State) {
    && g in s.threads && g in r.threads && r.threads[g] == s.threads[g]
    && r.owner == s.owner
    && (forall op :: op in s.done && op in s.owner && s.owner[op] == g ==> op in r.done)
  }

  predicate StepOf(e: Step, g: Gid) {
    !e.Complete? && e.g == g
  }

  lemma OsKnows(s: State, g: Gid, op: Op)
    requires Inv(s) && g in s.threads && op in s.threads[g].vec
    ensures op in s.running || op in s.done
  {
    assert ThreadInv(s, g, s.threads[g]);
  }

  lemma SameStep(s: State, e: Step, g: Gid)
    requires Inv(s) && Enabled(s, e) && g in s.threads && !StepOf(e, g)
    ensures SameFor(g, s, Do(s, e))
  {
    hide Do, Enabled, Inv;
    PosixContract.ForeignStep(s, e, g);
    DoneKept(s, e);
    if e.Start? {
      StartIsPopped(s, e);
      StartedIsOwn(s, e.g);
    }
  }

  lemma StartIsPopped(s: State, e: Step)
    requires Enabled(s, e) && e.Start?
    ensures e.g in s.threads && s.threads[e.g].pc.Popped?
  {
  }

  /** Only starting an op takes it out of the finished ones. */
  lemma DoneKept(s: State, e: Step)
    requires Enabled(s, e)
    ensures Do(s, e).owner == s.owner
    ensures forall op :: op in s.done && (e.Start? ==> op != s.threads[e.g].pc.op) ==> op in Do(s, e).done
  {
    hide FlightIds.FirstFree;
  }

  /** A thread starts only ops of its own group. */
  lemma StartedIsOwn(s: State, g: Gid)
    requires Inv(s) && g in s.threads && s.threads[g].pc.Popped?
    ensures s.threads[g].pc.op in s.owner && s.owner[s.threads[g].pc.op] == g
  {
    assert ThreadInv(s, g, s.threads[g]);
  }

  /** Any run in which `g` takes no step respects that reliance: yielding is sound. */
  lemma {:induction false} OthersKeepSame(s: State, es: seq<Step>, g: Gid)
    requires Inv(s) && PosixInterleaving.Run(s, es) && g in s.threads
    requires forall e :: e in es ==> !StepOf(e, g)
    ensures Inv(Exec(s, es)) && SameFor(g, s, Exec(s, es))
    decreases |es|
  {
    hide Inv, Enabled;
    if es == [] {
    } else {
      var r := Do(s, es[0]);
      StepInv(s, es[0]);
      SameStep(s, es[0], g);
      assert forall e :: e in es[1..] ==> e in es;
      OthersKeepSame(r, es[1..], g);
    }
  }

  class PosixManager {
    /** group_queues and suspend_vecs, and for the proof where each thread is. */
    var threads: map<Gid, Thread>
    /** suspend_in_flight and next_flight_id. */
    var inFlight: map<nat, Op>
    var nextFlightId: nat
    /** `aio_sigevent.sigev_value.sival_int` of each op's control block. */
    var flightId: map<Op, int>
    /** What aio_error answers: EINPROGRESS for the ops in `running`. */
    var running: set<Op>
    ghost var done: set<Op>
    ghost var owner: map<Op, Gid>

    ghost function S(): State
      reads this
    {
      State(threads, owner, inFlight, nextFlightId, flightId, running, done)
    }

    /** Stands for any number of steps of the other threads and of the OS. It changes nothing
        itself, but callers may rely on its contract only. */
    method Yield(ghost g: Gid)
      requires Inv(S()) && g in threads
      modifies this
      ensures Inv(S()) && SameFor(g, old(S()), S())
    {
    }

    method Enqueue(g: Gid, op: Op) returns (ret: int)
      requires Inv(S()) && Enabled(S(), Step.Enqueue(g, op))
      modifies this`threads
      ensures Inv(S()) && ret == 0
      ensures S() == Do(old(S()), Step.Enqueue(g, op))
    {
      hide Inv;
      EnqueueInv(S(), g, op);
      threads := threads[g := Enqueued(threads[g], op)];
      return 0;
    }

    method PopBack(g: Gid) returns (a: Op)
      requires Inv(S()) && g in threads && threads[g].pc.Draining? && threads[g].queue != []
      modifies this`threads
      ensures Inv(S()) && g in threads && threads[g] == Dequeued(old(threads)[g])
      ensures a == threads[g].pc.op
      ensures S() == Put(old(S()), g, Dequeued(old(threads)[g]))
    {
      hide Inv;
      PopInv(S(), g);
      var queue := threads[g].queue;
      a := queue[|queue| - 1];
      threads := threads[g := Dequeued(threads[g])];
    }

    /** aio_read or aio_write, when it returns 0. */
    method StartOp(g: Gid, a: Op)
      requires Inv(S()) && g in threads && threads[g].pc.Popped? && threads[g].pc.op == a
      modifies this`threads, this`running, this`done
      ensures Inv(S()) && S() == DoStart(old(S()), g)
      ensures g in threads && threads[g] == old(threads)[g].(pc := Started(old(threads)[g].pc.batch, a))
    {
      hide Inv;
      StartInv(S(), g);
      var t := threads[g];
      threads := threads[g := t.(pc := Started(t.pc.batch, a))];
      running, done := running + {a}, done - {a};
    }

    method PushCb(g: Gid, a: Op)
      requires Inv(S()) && g in threads && threads[g].pc.Started? && threads[g].pc.op == a
      modifies this`threads
      ensures Inv(S()) && S() == Put(old(S()), g, Watched(old(threads)[g]))
      ensures g in threads && threads[g] == Watched(old(threads)[g])
    {
      hide Inv;
      PushInv(S(), g);
      var t := threads[g];
      threads := threads[g := t.(vec := t.vec + [a], pc := Pushed(t.pc.batch, a))];
    }

    /** The section under suspend_in_flight_mutex in submit. */
    method RegisterOp(g: Gid, a: Op)
      requires Inv(S()) && g in threads && threads[g].pc.Pushed? && threads[g].pc.op == a
      modifies this`threads, this`inFlight, this`nextFlightId, this`flightId
      ensures Inv(S())
      ensures g in threads && threads[g] == old(threads)[g].(pc := Draining(old(threads)[g].pc.batch))
      ensures exists id :: Enabled(old(S()), Register(g, id)) && S() == Do(old(S()), Register(g, id))
    {
      hide Inv;
      InFlightBound(S());
      StaleOp(S(), g);
      ProperSubsetCard(inFlight.Values, owner.Keys, a);
      nextFlightId := FlightIds.Search(inFlight.Keys, nextFlightId, ID_SPACE);
      assert Enabled(old(S()), Register(g, nextFlightId));
      RegisterInv(old(S()), g, nextFlightId);
      ghost var id := nextFlightId;
      flightId := flightId[a := ToInt(nextFlightId)];
      inFlight := inFlight[nextFlightId := a];
      nextFlightId := FlightIds.Next(nextFlightId, ID_SPACE);
      threads := threads[g := threads[g].(pc := Draining(threads[g].pc.batch))];
      assert S() == Do(old(S()), Register(g, id));
    }

    /** One turn of the loop of submit, when the OS takes the op. */
    method DrainOne(g: Gid)
      requires Inv(S()) && g in threads && threads[g].pc.Draining? && threads[g].queue != []
      modifies this
      ensures Inv(S()) && g in threads && threads[g].pc == old(threads[g].pc)
      ensures threads[g].queue == old(threads[g].queue)[..|old(threads[g].queue)| - 1]
      ensures threads[g].vec == old(threads[g].vec) + [Last(old(threads[g].queue))]
    {
      hide Inv, Do, Enabled, FlightIds.FirstFree;
      var a := PopBack(g);
      Yield(g);
      StartOp(g, a);
      Yield(g);
      PushCb(g, a);
      Yield(g);
      RegisterOp(g, a);
      Yield(g);
    }

    /** `aio` lists what the calls of aio_read and aio_write return. The first that is not 0
        ends the submit, and with it the group: the op it was called for is lost. */
    method Submit(g: Gid, aio: seq<int>) returns (ret: int)
      requires Inv(S()) && g in threads && threads[g].pc == Idle
      requires |aio| >= |threads[g].queue|
      modifies this
      ensures Inv(S()) && g in threads
      ensures ret == 0 <==> forall k :: 0 <= k < |old(threads[g].queue)| ==> aio[k] == 0
      ensures ret != 0 ==> exists k :: 0 <= k < |old(threads[g].queue)| && ret == aio[k]
                                       && forall j :: 0 <= j < k ==> aio[j] == 0
      ensures ret == 0 ==>
        threads[g] == Thread([], old(threads[g].vec) + Reverse(old(threads[g].queue)), Idle)
    {
      hide Inv, Do, Enabled;
      ghost var batch, vec := threads[g].queue, threads[g].vec;
      BeginSubmitInv(S(), g);
      threads := threads[g := threads[g].(pc := Draining(threads[g].queue))];
      Yield(g);
      var i := 0;
      while |threads[g].queue| > 0
        invariant Inv(S()) && g in threads && threads[g].pc == Draining(batch)
        invariant 0 <= i <= |batch| && threads[g].queue == batch[..|batch| - i]
        invariant threads[g].vec + Reverse(threads[g].queue) == vec + Reverse(batch)
        invariant forall k :: 0 <= k < i ==> aio[k] == 0
        decreases |batch| - i
      {
        ReverseLast(threads[g].queue);
        if aio[i] != 0 {
          var a := PopBack(g);
          return aio[i];
        }
        DrainOne(g);
        i := i + 1;
      }
      EndSubmitInv(S(), g);
      threads := threads[g := threads[g].(pc := Idle)];
      return 0;
    }

    /** aio_suspend: it returns when some op of the vector has completed. */
    method Suspend(g: Gid)
      requires Inv(S()) && g in threads && threads[g].pc == Idle && threads[g].vec != []
      modifies this
      ensures Inv(S()) && SameFor(g, old(S()), S())
      ensures exists i :: 0 <= i < |threads[g].vec| && threads[g].vec[i] in done
    {
      hide Inv;
      Yield(g);
      var first := threads[g].vec[0];
      OsKnows(S(), g, first);
      if first in running {
        CompleteInv(S(), first);
        running, done := running - {first}, done + {first};
      }
      assert threads[g].vec[0] in done;
    }

    /** The next control block of the scan is skipped, or erased with its id read. */
    method PollOne(g: Gid) returns (taken: bool)
      requires Inv(S()) && g in threads && Scannable(S(), threads[g])
      modifies this`threads
      ensures Inv(S()) && g in threads
      ensures var t := old(threads[g]); var cb := t.vec[t.pc.at];
        && taken == (cb !in running)
        && threads[g] == (if taken then Erased(t, ToUnsigned(flightId[cb])) else Skipped(t))
    {
      hide Inv;
      PollInv(S(), g);
      var t := threads[g];
      var cb := t.vec[t.pc.at];
      taken := cb !in running;
      threads := threads[g := if taken then Erased(t, ToUnsigned(flightId[cb])) else Skipped(t)];
    }

    /** The section under suspend_in_flight_mutex in wait. The entry is never null. */
    method LookUp(g: Gid) returns (op: Op)
      requires Inv(S()) && g in threads && threads[g].pc.Taken?
      modifies this`threads, this`inFlight
      ensures Inv(S()) && S() == DoCollect(old(S()), g)
      ensures op == old(threads[g].pc.cb) && op in done
      ensures g in threads && threads[g] == old(threads[g]).(pc := Idle)
    {
      hide Inv;
      EntryFound(S(), g);
      CollectInv(S(), g);
      var id := threads[g].pc.id;
      op := inFlight[id];
      inFlight := inFlight - {id};
      threads := threads[g := threads[g].(pc := Idle)];
    }

    /** Wait gives back one op that was in the vector and has completed, and takes exactly
        that op out. The exit after the scan is never reached. */
    method Wait(g: Gid) returns (op: Op)
      requires Inv(S()) && g in threads && threads[g].pc == Idle && threads[g].vec != []
      modifies this
      ensures Inv(S()) && g in threads && op in done
      ensures exists i :: 0 <= i < |old(threads[g].vec)| && op == old(threads[g].vec)[i]
                && threads[g] == old(threads[g]).(vec := Erase(old(threads[g].vec), i))
    {
      hide Inv;
      ghost var t0 := threads[g];
      Suspend(g);
      BeginWaitInv(S(), g);
      threads := threads[g := threads[g].(pc := Scanning(0))];
      ScanNotOver(S(), g);
      var taken := false;
      while !taken
        invariant Inv(S()) && g in threads
        invariant if taken then
            && threads[g].pc.Taken?
            && (exists i :: 0 <= i < |t0.vec| && threads[g].pc.cb == t0.vec[i]
                  && threads[g] == t0.(vec := Erase(t0.vec, i), pc := threads[g].pc))
          else
            Scannable(S(), threads[g]) && threads[g] == t0.(pc := threads[g].pc)
        decreases if taken then 0 else |t0.vec| - threads[g].pc.at + 1
      {
        Yield(g);
        ScanNotOver(S(), g);
        taken := PollOne(g);
        if !taken {
          ScanNotOver(S(), g);
        }
      }
      Yield(g);
      op := LookUp(g);
    }
  }
}
