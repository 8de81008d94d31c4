/** The contract that async_io.h states for one group of an I/O manager, as a value:
    ops move from the client to the queue (enqueue), from the queue to the operating
    system (submit), and back to the client (wait). Both managers are proved against
    these three functions, and the worker loop is written on top of them. */
module AsyncIo {

  function Members<Op(==)>(s: seq<Op>): set<Op> {
    set op | op in s
  }

  ghost predicate Distinct<Op>(s: seq<Op>) {
    forall i, j :: 0 <= i < j < |s| ==> s[i] != s[j]
  }

  lemma MembersNext<Op>(s: seq<Op>, i: nat)
    requires i < |s|
    ensures s[..i + 1] == s[..i] + [s[i]]
    ensures Members(s[..i + 1]) == Members(s[..i]) + {s[i]}
    ensures Distinct(s) ==> s[i] !in Members(s[..i])
  {
  }

  lemma {:induction false} DistinctCard<Op>(s: seq<Op>)
    requires Distinct(s)
    ensures |Members(s)| == |s|
    decreases |s|
  {
    if s == [] {
    } else {
      var n := |s| - 1;
      DistinctCard(s[..n]);
      MembersNext(s, n);
      assert s[..n + 1] == s;
    }
  }

  datatype Group<Op(==)> = Group(queue: seq<Op>, inFlight: set<Op>) {

    /** An op is held by the client when it is neither queued nor in flight. */
    predicate Held(op: Op) {
      op !in queue && op !in inFlight
    }

    /** No op is in two places, and no op is queued twice. */
    ghost predicate Exclusive() {
      Distinct(queue) && Members(queue) !! inFlight
    }

    function Enqueue(op: Op): Group<Op> {
      this.(queue := queue + [op])
    }

    function Submit(): Group<Op> {
      Group([], inFlight + Members(queue))
    }

    function Wait(op: Op): Group<Op> {
      this.(inFlight := inFlight - {op})
    }
  }

  /** One call made by the thread that owns the group. */
  datatype Call<Op> = Enqueue(op: Op) | Submit | Wait(op: Op)

  /** The client may enqueue only what it holds; the OS returns only what is in flight. */
  predicate Legal<Op(==)>(g: Group<Op>, c: Call<Op>) {
    match c
    case Enqueue(op) => g.Held(op)
    case Submit => true
    case Wait(op) => op in g.inFlight
  }

  function Apply<Op(==)>(g: Group<Op>, c: Call<Op>): Group<Op> {
    match c
    case Enqueue(op) => g.Enqueue(op)
    case Submit => g.Submit()
    case Wait(op) => g.Wait(op)
  }

  function Run<Op(==)>(g: Group<Op>, calls: seq<Call<Op>>): Group<Op>
    decreases |calls|
  {
    if calls == [] then g else Run(Apply(g, calls[0]), calls[1..])
  }

  ghost predicate LegalRun<Op>(g: Group<Op>, calls: seq<Call<Op>>)
    decreases |calls|
  {
    calls == [] || (Legal(g, calls[0]) && LegalRun(Apply(g, calls[0]), calls[1..]))
  }

  function Enqueues<Op(==)>(calls: seq<Call<Op>>, op: Op): nat {
    if calls == [] then 0
    else (if calls[0] == Call<Op>.Enqueue(op) then 1 else 0) + Enqueues(calls[1..], op)
  }

  function Returns<Op(==)>(calls: seq<Call<Op>>, op: Op): nat {
    if calls == [] then 0
    else (if calls[0] == Call<Op>.Wait(op) then 1 else 0) + Returns(calls[1..], op)
  }

  /** Where an op is, as a number: 0 with the client, 1 with the manager. */
  function Managed<Op(==)>(g: Group<Op>, op: Op): nat {
    if g.Held(op) then 0 else 1
  }

  /** Conservation over every legal run: an op is never duplicated and never lost. Each
      enqueue is answered by at most one return, and the one that is missing is exactly
      the one the manager still holds. */
  lemma {:induction false} RunConserves<Op>(g: Group<Op>, calls: seq<Call<Op>>, op: Op)
    requires g.Exclusive() && LegalRun(g, calls)
    ensures Run(g, calls).Exclusive()
    ensures Managed(g, op) + Enqueues(calls, op)
         == Managed(Run(g, calls), op) + Returns(calls, op)
    decreases |calls|
  {
    if calls == [] {
    } else {
      var h := Apply(g, calls[0]);
      if calls[0].Submit? {
        assert forall x :: x in h.inFlight <==> x in g.inFlight || x in g.queue;
      }
      RunConserves(h, calls[1..], op);
    }
  }

  function EnqueueAll<Op(==)>(ops: seq<Op>): (calls: seq<Call<Op>>)
    ensures |calls| == |ops| && forall i :: 0 <= i < |ops| ==> calls[i] == Enqueue(ops[i])
  {
    seq(|ops|, i requires 0 <= i < |ops| => Enqueue(ops[i]))
  }

  /** What is enqueued stands in the queue in that order, behind what was there before. */
  lemma {:induction false} QueueOrder<Op>(g: Group<Op>, ops: seq<Op>)
    ensures Run(g, EnqueueAll(ops)).queue == g.queue + ops
    ensures Run(g, EnqueueAll(ops)).inFlight == g.inFlight
    decreases |ops|
  {
    if ops == [] {
    } else {
      assert EnqueueAll(ops)[1..] == EnqueueAll(ops[1..]);
      QueueOrder(g.Enqueue(ops[0]), ops[1..]);
      assert g.queue + [ops[0]] + ops[1..] == g.queue + ops;
    }
  }

  /** A run split in two: used to talk about what holds between two calls. */
  lemma {:induction false} RunAppend<Op>(g: Group<Op>, a: seq<Call<Op>>, b: seq<Call<Op>>)
    requires LegalRun(g, a) && LegalRun(Run(g, a), b)
    ensures LegalRun(g, a + b) && Run(g, a + b) == Run(Run(g, a), b)
    decreases |a|
  {
    if a == [] {
      assert a + b == b;
    } else {
      assert (a + b)[0] == a[0] && (a + b)[1..] == a[1..] + b;
      RunAppend(Apply(g, a[0]), a[1..], b);
    }
  }
}
