/** kernel_aio.cc: one group of the libaio manager. */
module KernelAio {
  import opened AsyncIo
  import FlightIds

  /** A `void *` counter. */
  const ID_SPACE: nat := 0x1_0000_0000_0000_0000

  datatype IopType = Read | Write

  datatype SubmitResult = Submitted | Failed(err: int)

  /** The pointer array handed to one io_submit call. `frees` counts calls of free(). */
  class CbArray {
    const size: nat
    var itemsLeft: nat
    var slots: seq<Iop>
    var frees: nat

    constructor (size: nat)
      ensures this.size == size && itemsLeft == size && slots == [] && frees == 0
    {
      this.size := size;
      itemsLeft := size;
      slots := [];
      frees := 0;
    }
  }

  class Iop {
    const readBuf: nat
    const writeBuf: nat
    var kind: IopType
    var opcode: IopType
    var buf: nat
    /** `cb.data`, the in-flight id. */
    var data: nat
    var cbArray: CbArray?
    var result: int

    /** The control block always asks for what `kind` says, with the buffer of that kind. */
    ghost predicate Prepared()
      reads this
    {
      opcode == kind && buf == (if kind.Read? then readBuf else writeBuf)
    }

    constructor (kind: IopType, readBuf: nat, writeBuf: nat)
      ensures Prepared() && this.kind == kind
      ensures this.readBuf == readBuf && this.writeBuf == writeBuf
    {
      this.kind := kind;
      this.readBuf := readBuf;
      this.writeBuf := writeBuf;
      if kind.Read? {
        opcode, buf := Read, readBuf;
      } else {
        opcode, buf := Write, writeBuf;
      }
      cbArray := null;
    }

    method SetType(t: IopType)
      modifies this`kind, this`opcode, this`buf
      ensures Prepared() && kind == t
    {
      kind := t;
      opcode := if t.Read? then Read else Write;
      buf := if t.Read? then readBuf else writeBuf;
    }
  }

  class KernelGroup {
    var opQueue: seq<Iop>
    var inFlight: map<nat, Iop>
    var nextFlight: nat
    /** The io context: `data` words of control blocks the kernel took and has not reported. */
    var ctx: set<nat>
    /** Every array of a successful submit. The source's own set of arrays stays empty:
        nothing is ever inserted into it. */
    ghost var arrays: set<CbArray>

    /** What the client can see: async_io.h's view of the group. */
    ghost function Abs(): Group<Iop>
      reads this
    {
      Group(opQueue, inFlight.Values)
    }

    ghost predicate Valid()
      reads this, inFlight.Values, arrays
    {
      && Abs().Exclusive()
      && nextFlight < ID_SPACE
      && ctx == inFlight.Keys
      && OwnIds(inFlight)
      && Counted(inFlight, arrays)
    }

    constructor ()
      ensures Valid() && Abs() == Group([], {}) && arrays == {}
    {
      opQueue, inFlight, nextFlight, ctx, arrays := [], map[], 0, {}, {};
    }

    method Enqueue(op: Iop) returns (ret: int)
      requires Valid() && Abs().Held(op)
      modifies this`opQueue
      ensures Valid() && ret == 0
      ensures Abs() == old(Abs()).Enqueue(op)
    {
      EnqueueExclusive(Abs(), op);
      opQueue := opQueue + [op];
      return 0;
    }

    /** One turn of the loop that fills the array: a free id, the in-flight entry, the slot. */
    method Launch(op: Iop, cbs: CbArray, ghost added: map<nat, Iop>)
      requires Tracks(added, cbs) && op !in added.Values
      requires nextFlight < ID_SPACE && |inFlight| < ID_SPACE
      modifies this`inFlight, this`nextFlight, op`data, op`cbArray, cbs`slots
      ensures nextFlight < ID_SPACE && op.data < ID_SPACE && op.data !in old(inFlight)
      ensures FlightIds.FirstFree(old(inFlight).Keys, old(nextFlight), ID_SPACE, op.data)
      ensures nextFlight == (op.data + 1) % ID_SPACE
      ensures inFlight == old(inFlight)[op.data := op]
      ensures op.cbArray == cbs && cbs.slots == old(cbs.slots) + [op]
      ensures Tracks(added[op.data := op], cbs)
    {
      op.cbArray := cbs;
      nextFlight := FlightIds.Search(inFlight.Keys, nextFlight, ID_SPACE);
      op.data := nextFlight;
      inFlight := inFlight[nextFlight := op];
      nextFlight := FlightIds.Next(nextFlight, ID_SPACE);
      cbs.slots := cbs.slots + [op];
      TracksStep(added, op, cbs);
    }

    /** Launching an op outside `before` leaves the bookkeeping of `before` alone. */
    method LaunchBeside(op: Iop, cbs: CbArray, ghost before: map<nat, Iop>, ghost added: map<nat, Iop>)
      requires nextFlight < ID_SPACE && |inFlight| < ID_SPACE
      requires Tracks(added, cbs) && op !in added.Values
      requires op !in before.Values && cbs !in arrays
      requires Counted(before, arrays) && OwnIds(before)
      modifies this`inFlight, this`nextFlight, op`data, op`cbArray, cbs`slots
      ensures nextFlight < ID_SPACE && op.data !in old(inFlight)
      ensures inFlight == old(inFlight)[op.data := op] && cbs.slots == old(cbs.slots) + [op]
      ensures Tracks(added[op.data := op], cbs)
      ensures Counted(before, arrays) && OwnIds(before)
    {
      Launch(op, cbs, added);
    }

    /** The state of the loop over the queue after `i` turns: `added` is what it has put
        into the in-flight map `before`. */
    ghost predicate Filled(cbs: CbArray, before: map<nat, Iop>, added: map<nat, Iop>, i: nat)
      reads this, cbs, added.Values
    {
      && i <= |opQueue| && |added| == i && cbs.slots == opQueue[..i]
      && nextFlight < ID_SPACE
      && inFlight == before + added && added.Keys !! before.Keys
      && Tracks(added, cbs) && added.Values == Members(opQueue[..i])
    }

    method FillOne(cbs: CbArray, ghost before: map<nat, Iop>, ghost added: map<nat, Iop>, i: nat)
      returns (ghost added': map<nat, Iop>)
      requires Distinct(opQueue) && i < |opQueue|
      requires |before| + |opQueue| < ID_SPACE
      requires Filled(cbs, before, added, i)
      modifies this`inFlight, this`nextFlight, {opQueue[i]}`data, {opQueue[i]}`cbArray, cbs`slots
      requires opQueue[i] !in before.Values && cbs !in arrays
      requires Counted(before, arrays) && OwnIds(before)
      ensures Filled(cbs, before, added', i + 1)
      ensures Counted(before, arrays) && OwnIds(before)
    {
      hide Counted, OwnIds, Tracks;
      DisjointCard(before, added);
      MembersNext(opQueue, i);
      var op := opQueue[i];
      LaunchBeside(op, cbs, before, added);
      NextAdded(before, added, op.data, opQueue, i);
      added' := added[op.data := op];
    }

    method FillArray(cbs: CbArray, ghost ops: set<Iop>) returns (ghost added: map<nat, Iop>)
      requires Distinct(opQueue) && nextFlight < ID_SPACE
      requires forall k :: 0 <= k < |opQueue| ==> opQueue[k] in ops
      requires |inFlight| + |opQueue| < ID_SPACE && cbs.slots == []
      modifies this`inFlight, this`nextFlight, ops`data, ops`cbArray, cbs`slots
      requires ops !! inFlight.Values && cbs !in arrays
      requires Counted(inFlight, arrays) && OwnIds(inFlight)
      ensures Filled(cbs, old(inFlight), added, |opQueue|)
      ensures Counted(old(inFlight), arrays) && OwnIds(old(inFlight))
    {
      added := map[];
      var i := 0;
      while i < |opQueue|
        invariant Filled(cbs, old(inFlight), added, i)
        invariant Counted(old(inFlight), arrays) && OwnIds(old(inFlight))
      {
        added := FillOne(cbs, old(inFlight), added, i);
        i := i + 1;
      }
    }

    /** `accepted` is what io_submit returns: the size of the array, a smaller count or a
        negative error. Anything but the size ends the group. */
    method Submit(accepted: int) returns (r: SubmitResult)
      requires Valid()
      requires accepted <= |opQueue| && |inFlight| + |opQueue| < ID_SPACE
      modifies this, Members(opQueue)`data, Members(opQueue)`cbArray
      ensures accepted == |old(opQueue)| ==>
                && r == Submitted && Valid() && Abs() == old(Abs()).Submit()
                && (exists cbs :: fresh(cbs) && arrays == old(arrays) + {cbs} && cbs.slots == old(opQueue))
      ensures accepted != |old(opQueue)| ==>
                && r == Failed(accepted) && Abs() == old(Abs())
                && inFlight == old(inFlight) && arrays == old(arrays)
    {
      hide OwnIds, Counted, Tracks, Filled, IdsOf;
      var cbs, added := PrepareArray();
      if accepted != cbs.size {
        Withdraw(cbs);
        return Failed(accepted);
      }
      Commit(cbs, old(inFlight), added);
      return Submitted;
    }

    /** Lines 210-230. */
    method PrepareArray() returns (cbs: CbArray, ghost added: map<nat, Iop>)
      requires Valid() && |inFlight| + |opQueue| < ID_SPACE
      modifies this`inFlight, this`nextFlight, Members(opQueue)`data, Members(opQueue)`cbArray
      ensures fresh(cbs) && cbs.slots == opQueue && Filled(cbs, old(inFlight), added, |opQueue|)
      ensures Counted(old(inFlight), arrays) && OwnIds(old(inFlight))
      ensures inFlight - Members(IdsOf(cbs)) == old(inFlight)
      ensures cbs.size == cbs.itemsLeft == |opQueue| && cbs.frees == 0
    {
      cbs := new CbArray(|opQueue|);
      added := FillArray(cbs, Members(opQueue));
      FilledIds(cbs, old(inFlight), added);
    }

    lemma FilledIds(cbs: CbArray, before: map<nat, Iop>, added: map<nat, Iop>)
      requires Filled(cbs, before, added, |opQueue|)
      ensures cbs.slots == opQueue && inFlight - Members(IdsOf(cbs)) == before
    {
      assert opQueue[..|opQueue|] == opQueue;
      SlotIds(cbs, added, IdsOf(cbs));
    }

    /** The kernel has taken every slot of `cbs`; the queue is cleared. */
    method Commit(cbs: CbArray, ghost before: map<nat, Iop>, ghost added: map<nat, Iop>)
      requires Filled(cbs, before, added, |opQueue|) && cbs !in arrays
      requires OwnIds(before) && Counted(before, arrays)
      requires cbs.size == cbs.itemsLeft == |opQueue| && cbs.frees == 0
      modifies this`ctx, this`opQueue, this`arrays
      ensures Valid() && Abs() == Group([], before.Values + Members(old(opQueue)))
      ensures arrays == old(arrays) + {cbs}
    {
      assert opQueue[..|opQueue|] == opQueue;
      SubmitIds(before, added, cbs);
      SubmitCounts(before, added, cbs, arrays);
      ClearQueue(cbs);
    }

    method ClearQueue(cbs: CbArray)
      requires nextFlight < ID_SPACE
      requires OwnIds(inFlight) && Counted(inFlight, arrays + {cbs})
      modifies this`ctx, this`opQueue, this`arrays
      ensures Valid() && opQueue == [] && arrays == old(arrays) + {cbs}
    {
      ctx := inFlight.Keys;
      opQueue := [];
      arrays := arrays + {cbs};
    }

    /** Lines 237-245: the ids of the array are withdrawn and the array is freed, although its
        ops still point at it. */
    method Withdraw(cbs: CbArray)
      requires |cbs.slots| == cbs.size
      modifies this`inFlight, cbs`frees
      ensures inFlight == old(inFlight) - Members(old(IdsOf(cbs))) && cbs.frees == old(cbs.frees) + 1
    {
      EraseIds(cbs, IdsOf(cbs));
      cbs.frees := cbs.frees + 1;
    }

    /** The clean-up loop of a failed submit: it erases the ids it finds in the slots. */
    method EraseIds(cbs: CbArray, ghost ids: seq<nat>)
      requires |ids| == |cbs.slots| == cbs.size
      requires forall k :: 0 <= k < |ids| ==> cbs.slots[k].data == ids[k]
      modifies this`inFlight
      ensures inFlight == old(inFlight) - Members(ids)
    {
      var j := 0;
      while j < cbs.size
        invariant 0 <= j <= cbs.size
        invariant inFlight == old(inFlight) - Members(ids[..j])
      {
        MembersNext(ids, j);
        inFlight := inFlight - {cbs.slots[j].data};
        j := j + 1;
      }
      assert ids[..j] == ids;
    }

    /** `event` is the user data io_getevents reports: a control block the kernel holds. */
    method Wait(event: nat, res: int) returns (op: Iop)
      requires Valid() && event in ctx
      modifies this`inFlight, this`ctx, {inFlight[event]}`result, arrays`itemsLeft, arrays`frees
      ensures Valid() && arrays == old(arrays)
      ensures op == old(inFlight)[event] && op.result == res
      ensures op in old(Abs()).inFlight && Abs() == old(Abs()).Wait(op)
    {
      op := TakeOut(event);
      Release(op.cbArray, event, op);
      op.result := res;
    }

    /** Lines 274-276. */
    method TakeOut(event: nat) returns (op: Iop)
      requires Valid() && event in ctx
      modifies this`inFlight, this`ctx
      ensures op == old(inFlight)[event] && op.cbArray in arrays
      ensures op in old(Abs()).inFlight && Abs() == old(Abs()).Wait(op)
      ensures Abs().Exclusive() && ctx == inFlight.Keys && OwnIds(inFlight)
      ensures event !in inFlight && op !in inFlight.Values
      ensures Counted(inFlight[event := op], arrays)
    {
      op := inFlight[event];
      RemoveValue(inFlight, event);
      WaitExclusive(Abs(), op);
      ctx := ctx - {event};
      inFlight := inFlight - {event};
    }

    /** Lines 278-286: one reference less, and the last one frees the array. */
    method Release(cbs: CbArray, event: nat, op: Iop)
      requires event !in inFlight && op !in inFlight.Values
      requires Counted(inFlight[event := op], arrays) && op.cbArray == cbs
      modifies cbs`itemsLeft, cbs`frees
      ensures Counted(inFlight, arrays)
    {
      hide Exact, Pending;
      OneLess(inFlight, event, op, arrays);
      cbs.itemsLeft := cbs.itemsLeft - 1;
      if cbs.itemsLeft == 0 {
        cbs.frees := cbs.frees + 1;
      }
      StillExact(inFlight, cbs);
    }
  }

  /** With one op gone every other array's count is still right, and its own is one too high. */
  lemma OneLess(m: map<nat, Iop>, event: nat, op: Iop, arrays: set<CbArray>)
    requires event !in m && Counted(m[event := op], arrays)
    ensures op.cbArray != null && op.cbArray in arrays && Linked(m, arrays)
    ensures forall a :: a in arrays && a != op.cbArray ==> Exact(m, a)
    ensures op.cbArray.itemsLeft == |Pending(m, op.cbArray)| + 1 <= op.cbArray.size && op.cbArray.frees == 0
  {
    var all := m[event := op];
    assert all[event] == op && forall id :: id in m ==> all[id] == m[id];
    WaitCounts(m, event, op, arrays);
    assert Exact(all, op.cbArray);
  }

  lemma StillExact(m: map<nat, Iop>, a: CbArray)
    requires a.itemsLeft == |Pending(m, a)| < a.size && a.frees == if a.itemsLeft == 0 then 1 else 0
    ensures Exact(m, a)
  {
  }

  /** Ids are unique because they are map keys; each op in flight carries its own id. */
  ghost predicate OwnIds(m: map<nat, Iop>)
    reads m.Values
  {
    forall id :: id in m ==> id < ID_SPACE && m[id].data == id
  }

  /** The ids in flight that still point at `a`. */
  ghost function Pending(m: map<nat, Iop>, a: CbArray): set<nat>
    reads m.Values
  {
    set id | id in m && m[id].cbArray == a
  }

  /** Every op in flight belongs to one of the arrays. */
  ghost predicate Linked(m: map<nat, Iop>, arrays: set<CbArray>)
    reads m.Values
  {
    forall id :: id in m ==> m[id].cbArray != null && m[id].cbArray in arrays
  }

  /** The reference count of `a` is exact, and a non-empty array has been freed exactly once
      when its last op has completed and not before; an empty one is never freed. */
  ghost predicate Exact(m: map<nat, Iop>, a: CbArray)
    reads m.Values, a
  {
    && a.itemsLeft == |Pending(m, a)| <= a.size
    && a.frees == (if a.size > 0 && a.itemsLeft == 0 then 1 else 0)
  }

  ghost predicate Counted(m: map<nat, Iop>, arrays: set<CbArray>)
    reads m.Values, arrays
  {
    Linked(m, arrays) && forall a :: a in arrays ==> Exact(m, a)
  }

  /** Every op of `m` is in it under its own id and points at `cbs`. */
  ghost predicate Tracks(m: map<nat, Iop>, cbs: CbArray)
    reads m.Values
  {
    forall id :: id in m ==> id < ID_SPACE && m[id].data == id && m[id].cbArray == cbs
  }

  lemma TracksStep(m: map<nat, Iop>, op: Iop, cbs: CbArray)
    requires Tracks(m, cbs) && op.data < ID_SPACE && op.cbArray == cbs
    ensures Tracks(m[op.data := op], cbs)
  {
  }

  /** The in-flight ids found in the slots of an array. */
  ghost function IdsOf(cbs: CbArray): seq<nat>
    reads cbs, cbs.slots
  {
    seq(|cbs.slots|, k requires 0 <= k < |cbs.slots| reads cbs, cbs.slots => cbs.slots[k].data)
  }

  lemma SlotIds(cbs: CbArray, added: map<nat, Iop>, ids: seq<nat>)
    requires Tracks(added, cbs) && added.Values == Members(cbs.slots)
    requires |ids| == |cbs.slots| && forall k :: 0 <= k < |ids| ==> ids[k] == cbs.slots[k].data
    ensures Members(ids) == added.Keys
  {
    forall id | id in added ensures id in ids {
      assert added[id] in Members(cbs.slots);
      var k :| 0 <= k < |cbs.slots| && cbs.slots[k] == added[id];
      assert ids[k] == id;
    }
    forall k | 0 <= k < |ids| ensures ids[k] in added {
      assert cbs.slots[k] in added.Values;
    }
  }

  lemma DisjointCard(a: map<nat, Iop>, b: map<nat, Iop>)
    requires a.Keys !! b.Keys
    ensures |a + b| == |a| + |b|
  {
    assert (a + b).Keys == a.Keys + b.Keys;
  }

  /** The in-flight map and what the loop has added to it, one turn later. */
  lemma NextAdded(before: map<nat, Iop>, added: map<nat, Iop>, id: nat, queue: seq<Iop>, i: nat)
    requires i < |queue| && |added| == i && added.Values == Members(queue[..i])
    requires added.Keys !! before.Keys && id !in before && id !in added
    ensures var next := added[id := queue[i]];
      && |next| == i + 1 && next.Values == Members(queue[..i + 1])
      && next.Keys !! before.Keys && (before + added)[id := queue[i]] == before + next
  {
    MembersNext(queue, i);
    UpdateUnion(before, added, id, queue[i]);
    NewValue(added, id, queue[i]);
  }

  lemma UpdateUnion(a: map<nat, Iop>, b: map<nat, Iop>, id: nat, op: Iop)
    ensures (a + b)[id := op] == a + b[id := op]
  {
  }

  lemma NewValue(m: map<nat, Iop>, id: nat, op: Iop)
    requires id !in m
    ensures m[id := op].Values == m.Values + {op}
  {
    var n := m[id := op];
    assert n[id] == op;
    forall v | v in m.Values ensures v in n.Values {
      var k :| k in m && m[k] == v;
      assert n[k] == v;
    }
  }

  lemma WaitExclusive(g: Group<Iop>, op: Iop)
    requires g.Exclusive()
    ensures g.Wait(op).Exclusive()
  {
  }

  lemma EnqueueExclusive(g: Group<Iop>, op: Iop)
    requires g.Exclusive() && g.Held(op)
    ensures g.Enqueue(op).Exclusive()
  {
  }

  lemma SubmitCounts(before: map<nat, Iop>, added: map<nat, Iop>, cbs: CbArray, arrays: set<CbArray>)
    requires Counted(before, arrays) && Tracks(added, cbs) && cbs !in arrays
    requires before.Keys !! added.Keys
    requires cbs.size == cbs.itemsLeft == |added| && cbs.frees == 0
    ensures Counted(before + added, arrays + {cbs})
  {
    hide Exact, Pending;
    var m := before + added;
    assert forall id :: id in m ==> m[id] == if id in added then added[id] else before[id];
    forall a | a in arrays + {cbs} ensures Exact(m, a) {
      if a == cbs {
        NewArrayExact(before, added, cbs);
      } else {
        OldArrayExact(before, added, cbs, a);
      }
    }
  }

  lemma NewArrayExact(before: map<nat, Iop>, added: map<nat, Iop>, cbs: CbArray)
    requires Tracks(added, cbs) && forall id :: id in before ==> before[id].cbArray != cbs
    requires cbs.size == cbs.itemsLeft == |added| && cbs.frees == 0
    ensures Exact(before + added, cbs)
  {
    assert Pending(before + added, cbs) == added.Keys;
    assert |added.Keys| == |added|;
  }

  lemma OldArrayExact(before: map<nat, Iop>, added: map<nat, Iop>, cbs: CbArray, a: CbArray)
    requires Tracks(added, cbs) && a != cbs && before.Keys !! added.Keys && Exact(before, a)
    ensures Exact(before + added, a)
  {
    assert Pending(before + added, a) == Pending(before, a);
  }

  lemma SubmitIds(before: map<nat, Iop>, added: map<nat, Iop>, cbs: CbArray)
    requires OwnIds(before) && Tracks(added, cbs) && before.Keys !! added.Keys
    ensures OwnIds(before + added)
    ensures (before + added).Values == before.Values + added.Values
  {
    var m := before + added;
    assert forall id :: id in m ==> m[id] == if id in added then added[id] else before[id];
    forall v | v in before.Values + added.Values ensures v in m.Values {
      if v in added.Values {
        var k :| k in added && added[k] == v;
        assert m[k] == v;
      } else {
        var k :| k in before && before[k] == v;
        assert m[k] == v;
      }
    }
  }

  lemma WaitCounts(m: map<nat, Iop>, id: nat, op: Iop, arrays: set<CbArray>)
    requires id !in m && op.cbArray in arrays
    ensures Pending(m[id := op], op.cbArray) == Pending(m, op.cbArray) + {id}
    ensures forall a :: a in arrays && a != op.cbArray ==> Pending(m[id := op], a) == Pending(m, a)
  {
  }

  lemma RemoveValue(m: map<nat, Iop>, id: nat)
    requires id in m && OwnIds(m)
    ensures (m - {id}).Values == m.Values - {m[id]}
    ensures (m - {id})[id := m[id]] == m
    ensures OwnIds(m - {id})
  {
    var n := m - {id};
    forall v | v in m.Values && v != m[id] ensures v in n.Values {
      var k :| k in m && m[k] == v;
      assert n[k] == v;
    }
    forall v | v in n.Values ensures v in m.Values && v != m[id] {
      var k :| k in n && n[k] == v;
      assert m[k].data == k;
    }
  }
}
