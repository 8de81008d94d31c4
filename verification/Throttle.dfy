/** The throttle bound, with what it needs of the shared flag and the clock taken from the
    runs of the protocol between the Job and its threads. */
module Throttle {
  import P = Protocol
  import W = Worker

  function Passes(es: seq<W.Step>): nat {
    if es == [] then 0 else Passes(es[..|es| - 1]) + if es[|es| - 1].Loop? then 1 else 0
  }

  /** A pass reads of the flag and the clock what the protocol's thread has seen in the same
      pass. A throttled pass does not read the flag a second time. */
  predicate Matches(p: W.Pass, seen: P.Seen) {
    && p.throttleFlag == seen.throttleFlag && p.nowMs == seen.nowMs
    && (p.recordFlag ==> seen.recordFlag)
  }

  /** The passes of a worker run are those the protocol's thread has logged. */
  ghost predicate Logged(es: seq<W.Step>, log: seq<P.Seen>) {
    forall k :: 0 <= k < |es| && es[k].Loop? ==>
      Passes(es[..k]) < |log| && Matches(es[k].p, log[Passes(es[..k])])
  }

  lemma {:induction false} PassesGrow(es: seq<W.Step>, i: nat, j: nat)
    requires i < j <= |es| && es[i].Loop?
    ensures Passes(es[..i]) < Passes(es[..j])
    decreases j
  {
    assert es[..j][..j - 1] == es[..j - 1];
    if j == i + 1 {
    } else {
      PassesGrow(es, i, j - 1);
    }
  }

  lemma FlagAndClockHold(es: seq<W.Step>, log: seq<P.Seen>)
    requires Logged(es, log) && P.Ordered(log)
    ensures W.FlagAndClock(es)
  {
    forall i, j | 0 <= i < j < |es| && es[i].Loop? && es[j].Loop?
      ensures es[i].p.throttleFlag && es[j].p.recordFlag ==> es[j].p.throttleFlag
      ensures es[i].p.nowMs <= es[j].p.nowMs
    {
      PassesGrow(es, i, j);
      assert Matches(es[i].p, log[Passes(es[..i])]) && Matches(es[j].p, log[Passes(es[..j])]);
    }
  }

  /** The clock the throttle test reads is never before the start time. */
  lemma ClockAfterStart(s: P.State, run: seq<P.Step>, i: nat, es: seq<W.Step>, k: nat)
    requires P.Init(s) && P.Run(s, run) && i < |s.workers| && i < |P.Exec(s, run).workers|
    requires Logged(es, P.Exec(s, run).workers[i].log) && k < |es| && es[k].Loop? && es[k].p.throttleFlag
    ensures P.Exec(s, run).startTime.Some? && P.Exec(s, run).startTime.value / 1000 <= es[k].p.nowMs
  {
    P.SeenInOrder(s, run, i);
    assert Matches(es[k].p, P.Exec(s, run).workers[i].log[Passes(es[..k])]);
  }

  /** The start time the workers use is the one the Job has taken. */
  predicate SameStart(s: P.State, w: W.Thread) {
    s.startTime.Some? ==> w.options.startMs == s.startTime.value / 1000
  }

  lemma ClockStartedHolds(s: P.State, run: seq<P.Step>, i: nat, w: W.Thread, es: seq<W.Step>)
    requires P.Init(s) && P.Run(s, run) && i < |s.workers| && i < |P.Exec(s, run).workers|
    requires Logged(es, P.Exec(s, run).workers[i].log) && SameStart(P.Exec(s, run), w)
    ensures W.ClockStarted(es, w.options.startMs)
  {
    hide P.Init, P.Run, P.Exec, Logged;
    forall k | 0 <= k < |es| && es[k].Loop? && es[k].p.throttleFlag ensures w.options.startMs <= es[k].p.nowMs {
      ClockAfterStart(s, run, i, es, k);
    }
  }

  /** The throttle bound for a thread of any run of the protocol: nothing is assumed of the
      flag, the clock or the start time of the test but that they are the ones the Job and its
      threads share. */
  lemma ThrottleHolds(s: P.State, run: seq<P.Step>, i: nat, w: W.Thread, es: seq<W.Step>, largest: nat)
    requires P.Init(s) && P.Run(s, run) && i < |s.workers| && i < |P.Exec(s, run).workers|
    requires W.Init(w) && W.Run(w, es) && Logged(es, P.Exec(s, run).workers[i].log)
    requires SameStart(P.Exec(s, run), w)
    requires forall t :: 0 <= t < |w.targets| ==> w.targets[t].c.blockSize <= largest
    ensures W.LastTested(w, es) == 0 ==> W.Exec(w, es).bytes == W.Untested(w, es)
    ensures W.LastTested(w, es) > 0 ==>
              W.Exec(w, es).bytes < (W.Limit(w) + 1) * W.LastTested(w, es) + largest
  {
    hide *;
    P.SeenInOrder(s, run, i);
    OrderedLog(P.Exec(s, run), P.Exec(s, run).workers[i]);
    FlagAndClockHold(es, P.Exec(s, run).workers[i].log);
    ClockStartedHolds(s, run, i, w, es);
    W.FlagGivesStartUpFirst(w, es);
    W.ThrottleBound(w, es, largest);
  }

  lemma OrderedLog(s: P.State, w: P.Worker)
    requires P.LogOk(s, w)
    ensures P.Ordered(w.log)
  {
  }
}
