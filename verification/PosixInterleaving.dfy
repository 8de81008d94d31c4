/** posix_aio.cc as a step machine. Every group is used by one thread; the in-flight map and
    the id counter are shared by all. A step is one mutex section, one call into the OS, or a
    stretch of code that touches only the thread's own queue and vector. The OS completes
    any started op at any moment. */
module PosixInterleaving {
  import opened AsyncIo
  import FlightIds

  /** `unsigned int next_flight_id`. */
  const ID_SPACE: nat := 0x1_0000_0000

  type Op = nat
  type Gid = nat

  /** `(int)id` and `(unsigned int)value` for a 32-bit int. */
  function ToInt(id: nat): int
    requires id < ID_SPACE
  {
    if id < 0x8000_0000 then id else id - ID_SPACE
  }

  function ToUnsigned(value: int): nat
  {
    value % ID_SPACE
  }

  /** Where a thread is inside enqueue, submit or wait. The submit states remember the queue
      the call began with; `cb` in Taken is the control block erased from the vector. */
  datatype Pc =
    | Idle
    | Draining(batch: seq<Op>)
    | Popped(batch: seq<Op>, op: Op)
    | Started(batch: seq<Op>, op: Op)
    | Pushed(batch: seq<Op>, op: Op)
    | Scanning(at: nat)
    | Taken(id: nat, cb: Op)

  datatype Thread = Thread(queue: seq<Op>, vec: seq<Op>, pc: Pc)

  datatype State = State(
    threads: map<Gid, Thread>,
    owner: map<Op, Gid>,
    inFlight: map<nat, Op>,
    next: nat,
    flightId: map<Op, int>,
    running: set<Op>,
    done: set<Op>)

  datatype Step =
    | Enqueue(g: Gid, op: Op)
    | BeginSubmit(g: Gid)
    | Pop(g: Gid)
    | Start(g: Gid)
    | Push(g: Gid)
    | Register(g: Gid, id: nat)
    | EndSubmit(g: Gid)
    | Complete(op: Op)
    | BeginWait(g: Gid)
    | Poll(g: Gid)
    | Collect(g: Gid)

  function Last(s: seq<Op>): Op
    requires s != []
  {
    s[|s| - 1]
  }

  function Erase(s: seq<Op>, i: nat): seq<Op>
    requires i < |s|
  {
    s[..i] + s[i + 1..]
  }

  /** The op a thread holds between its queue and its vector. */
  predicate InHand(t: Thread, op: Op) {
    (t.pc.Popped? || t.pc.Started?) && t.pc.op == op
  }

  /** The client has the op: the manager keeps it nowhere. */
  predicate Free(t: Thread, op: Op) {
    op !in t.queue && op !in t.vec && !InHand(t, op) && !(t.pc.Taken? && t.pc.cb == op)
  }

  ghost predicate Enabled(s: State, e: Step) {
    if e.Complete? then e.op in s.running
    else if e.g !in s.threads then false
    else
      var t := s.threads[e.g];
      match e
      case Enqueue(g, op) => t.pc == Idle && op in s.owner && s.owner[op] == g && Free(t, op)
      case BeginSubmit(_) => t.pc == Idle
      case Pop(_) => t.pc.Draining? && t.queue != []
      case Start(_) => t.pc.Popped?
      case Push(_) => t.pc.Started?
      case Register(_, id) =>
        t.pc.Pushed? && s.next < ID_SPACE && FlightIds.FirstFree(s.inFlight.Keys, s.next, ID_SPACE, id)
      case EndSubmit(_) => t.pc.Draining? && t.queue == []
      case BeginWait(_) => t.pc == Idle && exists i :: 0 <= i < |t.vec| && t.vec[i] in s.done
      case Poll(_) => Scannable(s, t)
      case Collect(_) => t.pc.Taken? && t.pc.id in s.inFlight
  }

  function Put(s: State, g: Gid, t: Thread): State {
    s.(threads := s.threads[g := t])
  }

  function DoStart(s: State, g: Gid): State
    requires g in s.threads && s.threads[g].pc.Popped?
  {
    var t := s.threads[g];
    Put(s, g, t.(pc := Started(t.pc.batch, t.pc.op)))
      .(running := s.running + {t.pc.op}, done := s.done - {t.pc.op})
  }

  /** The locked section of submit, lines 213-219. */
  function DoRegister(s: State, g: Gid, id: nat): State
    requires g in s.threads && s.threads[g].pc.Pushed? && id < ID_SPACE
  {
    var t := s.threads[g];
    Put(s, g, t.(pc := Draining(t.pc.batch)))
      .(flightId := s.flightId[t.pc.op := ToInt(id)],
        inFlight := s.inFlight[id := t.pc.op],
        next := FlightIds.Next(id, ID_SPACE))
  }

  /** One turn of the scan: skip a running op, or erase a finished one and read its id. */
  function DoPoll(s: State, g: Gid): State
    requires g in s.threads && Scannable(s, s.threads[g])
  {
    var t := s.threads[g];
    var cb := t.vec[t.pc.at];
    Put(s, g, if cb in s.running then Skipped(t) else Erased(t, ToUnsigned(s.flightId[cb])))
  }

  predicate Scannable(s: State, t: Thread) {
    t.pc.Scanning? && t.pc.at < |t.vec| && t.vec[t.pc.at] in s.flightId
  }

  /** The locked section of wait, lines 253-257. */
  function DoCollect(s: State, g: Gid): State
    requires g in s.threads && s.threads[g].pc.Taken?
  {
    var t := s.threads[g];
    Put(s, g, t.(pc := Idle)).(inFlight := s.inFlight - {t.pc.id})
  }

  ghost function Do(s: State, e: Step): State
    requires Enabled(s, e)
  {
    if e.Complete? then s.(running := s.running - {e.op}, done := s.done + {e.op})
    else
      var t := s.threads[e.g];
      match e
      case Enqueue(g, op) => Put(s, g, Enqueued(t, op))
      case BeginSubmit(g) => Put(s, g, t.(pc := Draining(t.queue)))
      case Pop(g) => Put(s, g, Dequeued(t))
      case Start(g) => DoStart(s, g)
      case Push(g) => Put(s, g, Watched(t))
      case Register(g, id) => DoRegister(s, g, id)
      case EndSubmit(g) => Put(s, g, t.(pc := Idle))
      case BeginWait(g) => Put(s, g, t.(pc := Scanning(0)))
      case Poll(g) => DoPoll(s, g)
      case Collect(g) => DoCollect(s, g)
  }

  ghost function Exec(s: State, es: seq<Step>): State
    requires Run(s, es)
    decreases |es|
  {
    if es == [] then s else Exec(Do(s, es[0]), es[1..])
  }

  /** `es` is a possible interleaving from `s`. */
  ghost predicate Run(s: State, es: seq<Step>)
    decreases |es|
  {
    es == [] || (Enabled(s, es[0]) && Run(Do(s, es[0]), es[1..]))
  }

  /** The manager after create_group, with every op that will ever be used and its group. */
  predicate Init(s: State) {
    && (forall g :: g in s.threads ==> s.threads[g] == Thread([], [], Idle))
    && (forall op :: op in s.owner ==> s.owner[op] in s.threads)
    && s.inFlight == map[] && s.next == 0 && s.running == {} && s.done == {}
    && |s.owner| <= ID_SPACE
  }

  // ---- the invariant -----------------------------------------------------------------

  /** An op of the vector whose id is valid: all of them, except the one whose locked
      section has not run yet, plus the one taken out but not yet looked up. */
  predicate Tracked(t: Thread, op: Op) {
    || (op in t.vec && !(t.pc.Pushed? && t.pc.op == op))
    || (t.pc.Taken? && t.pc.cb == op)
  }

  /** The ops a thread holds are distinct and its own. */
  ghost predicate Local(owner: map<Op, Gid>, g: Gid, t: Thread) {
    && Distinct(t.queue) && Distinct(t.vec)
    && (forall op :: op in t.queue ==> op !in t.vec && !InHand(t, op) && op in owner && owner[op] == g)
    && (forall op :: op in t.vec ==> !InHand(t, op) && op in owner && owner[op] == g)
    && (t.pc.Popped? || t.pc.Started? ==> t.pc.op in owner && owner[t.pc.op] == g)
    && (t.pc.Pushed? ==> t.pc.op in t.vec)
    && (t.pc.Taken? ==> t.pc.cb !in t.vec && t.pc.cb !in t.queue && t.pc.cb in owner && owner[t.pc.cb] == g)
  }

  /** `op` carries the id under which the shared map holds it. */
  predicate Registered(flightId: map<Op, int>, inFlight: map<nat, Op>, op: Op) {
    && op in flightId
    && ToUnsigned(flightId[op]) in inFlight
    && inFlight[ToUnsigned(flightId[op])] == op
  }

  ghost predicate IdsRight(flightId: map<Op, int>, inFlight: map<nat, Op>, t: Thread) {
    && (forall op :: Tracked(t, op) ==> Registered(flightId, inFlight, op))
    && (t.pc.Taken? ==> t.pc.cb in flightId && t.pc.id == ToUnsigned(flightId[t.pc.cb]))
  }

  /** The OS knows every op of the vector; a scan has a completed op at or after its place;
      what a scan takes out has completed. */
  ghost predicate OsAgrees(running: set<Op>, done: set<Op>, t: Thread) {
    && (forall op :: op in t.vec ==> op in running || op in done)
    && (t.pc.Started? ==> t.pc.op in running || t.pc.op in done)
    && (t.pc.Scanning? ==> exists i :: t.pc.at <= i < |t.vec| && t.vec[i] in done)
    && (t.pc.Taken? ==> t.pc.cb in done)
  }

  ghost predicate ThreadInv(s: State, g: Gid, t: Thread) {
    && Local(s.owner, g, t)
    && IdsRight(s.flightId, s.inFlight, t)
    && OsAgrees(s.running, s.done, t)
  }

  /** An entry of the shared map belongs to the thread that owns its op, and the op says so. */
  ghost predicate Entry(s: State, id: nat, op: Op) {
    && id < ID_SPACE && op in s.owner && s.owner[op] in s.threads
    && Tracked(s.threads[s.owner[op]], op)
    && op in s.flightId && ToUnsigned(s.flightId[op]) == id
  }

  ghost predicate Inv(s: State) {
    && s.next < ID_SPACE && |s.owner| <= ID_SPACE
    && s.running !! s.done
    && (forall op :: op in s.owner ==> s.owner[op] in s.threads)
    && (forall g :: g in s.threads ==> ThreadInv(s, g, s.threads[g]))
    && (forall id :: id in s.inFlight ==> Entry(s, id, s.inFlight[id]))
  }

  lemma CastRoundTrip(id: nat)
    requires id < ID_SPACE
    ensures -0x8000_0000 <= ToInt(id) < 0x8000_0000
    ensures ToUnsigned(ToInt(id)) == id
  {
  }

  lemma InitInv(s: State)
    requires Init(s)
    ensures Inv(s)
  {
  }

  // ---- every step keeps it -----------------------------------------------------------

  /** A step inside one thread that drops no tracked op. */
  lemma PutInv(s: State, g: Gid, t: Thread)
    requires Inv(s) && g in s.threads && ThreadInv(s, g, t)
    requires forall op :: Tracked(s.threads[g], op) ==> Tracked(t, op)
    ensures Inv(Put(s, g, t))
  {
    var r := Put(s, g, t);
    forall h | h in r.threads ensures ThreadInv(r, h, r.threads[h]) {
      assert ThreadInv(s, h, if h == g then t else s.threads[h]);
    }
    forall id | id in r.inFlight ensures Entry(r, id, r.inFlight[id]) {
      assert Entry(s, id, s.inFlight[id]);
    }
  }

  function Enqueued(t: Thread, op: Op): Thread {
    t.(queue := t.queue + [op])
  }

  function Dequeued(t: Thread): Thread
    requires t.pc.Draining? && t.queue != []
  {
    t.(queue := t.queue[..|t.queue| - 1], pc := Popped(t.pc.batch, Last(t.queue)))
  }

  function Watched(t: Thread): Thread
    requires t.pc.Started?
  {
    t.(vec := t.vec + [t.pc.op], pc := Pushed(t.pc.batch, t.pc.op))
  }

  function Skipped(t: Thread): Thread
    requires t.pc.Scanning?
  {
    t.(pc := Scanning(t.pc.at + 1))
  }

  function Erased(t: Thread, id: nat): Thread
    requires t.pc.Scanning? && t.pc.at < |t.vec|
  {
    t.(vec := Erase(t.vec, t.pc.at), pc := Taken(id, t.vec[t.pc.at]))
  }

  lemma LocalEnqueue(owner: map<Op, Gid>, g: Gid, t: Thread, op: Op)
    requires Local(owner, g, t) && t.pc == Idle && Free(t, op) && op in owner && owner[op] == g
    ensures Local(owner, g, Enqueued(t, op))
  {
  }

  lemma LocalPop(owner: map<Op, Gid>, g: Gid, t: Thread)
    requires Local(owner, g, t) && t.pc.Draining? && t.queue != []
    ensures Local(owner, g, Dequeued(t))
  {
    var n := |t.queue| - 1;
    assert t.queue[n] in t.queue;
    assert forall i :: 0 <= i < n ==> t.queue[..n][i] == t.queue[i] && t.queue[i] in t.queue;
  }

  lemma LocalPush(owner: map<Op, Gid>, g: Gid, t: Thread)
    requires Local(owner, g, t) && t.pc.Started?
    ensures Local(owner, g, Watched(t))
  {
    assert InHand(t, t.pc.op);
    assert forall op :: op in Watched(t).vec <==> op in t.vec || op == t.pc.op;
  }

  lemma LocalErase(owner: map<Op, Gid>, g: Gid, t: Thread, id: nat)
    requires Local(owner, g, t) && t.pc.Scanning? && t.pc.at < |t.vec|
    ensures Local(owner, g, Erased(t, id))
    ensures forall op :: op in Erased(t, id).vec <==> op in t.vec && op != t.vec[t.pc.at]
  {
    var v := Erase(t.vec, t.pc.at);
    assert forall i :: 0 <= i < |v| ==> v[i] == t.vec[if i < t.pc.at then i else i + 1];
    forall op | op in t.vec && op != t.vec[t.pc.at] ensures op in v {
      var i :| 0 <= i < |t.vec| && t.vec[i] == op;
      assert v[if i < t.pc.at then i else i - 1] == op;
    }
  }

  lemma OwnInv(s: State, g: Gid)
    requires Inv(s) && g in s.threads
    ensures ThreadInv(s, g, s.threads[g])
  {
  }

  lemma EnqueueInv(s: State, g: Gid, op: Op)
    requires Inv(s) && g in s.threads && s.threads[g].pc == Idle && Free(s.threads[g], op)
    requires op in s.owner && s.owner[op] == g
    ensures Inv(Put(s, g, Enqueued(s.threads[g], op)))
  {
    var t := s.threads[g];
    assert ThreadInv(s, g, t);
    LocalEnqueue(s.owner, g, t, op);
    PutInv(s, g, Enqueued(t, op));
  }

  lemma BeginSubmitInv(s: State, g: Gid)
    requires Inv(s) && g in s.threads && s.threads[g].pc == Idle
    ensures Inv(Put(s, g, s.threads[g].(pc := Draining(s.threads[g].queue))))
  {
    hide Inv;
    OwnInv(s, g);
    PutInv(s, g, s.threads[g].(pc := Draining(s.threads[g].queue)));
  }

  lemma EndSubmitInv(s: State, g: Gid)
    requires Inv(s) && g in s.threads && s.threads[g].pc.Draining?
    ensures Inv(Put(s, g, s.threads[g].(pc := Idle)))
  {
    hide Inv;
    OwnInv(s, g);
    PutInv(s, g, s.threads[g].(pc := Idle));
  }

  lemma PopInv(s: State, g: Gid)
    requires Inv(s) && g in s.threads && s.threads[g].pc.Draining? && s.threads[g].queue != []
    ensures Inv(Put(s, g, Dequeued(s.threads[g])))
  {
    var t := s.threads[g];
    assert ThreadInv(s, g, t);
    LocalPop(s.owner, g, t);
    PutInv(s, g, Dequeued(t));
  }

  lemma PushInv(s: State, g: Gid)
    requires Inv(s) && g in s.threads && s.threads[g].pc.Started?
    ensures Inv(Put(s, g, Watched(s.threads[g])))
  {
    var t := s.threads[g];
    assert ThreadInv(s, g, t);
    PushOwn(s, g, t);
    PutInv(s, g, Watched(t));
  }

  lemma PushOwn(s: State, g: Gid, t: Thread)
    requires ThreadInv(s, g, t) && t.pc.Started?
    ensures ThreadInv(s, g, Watched(t))
    ensures forall op :: Tracked(t, op) <==> Tracked(Watched(t), op)
  {
    LocalPush(s.owner, g, t);
    assert InHand(t, t.pc.op);
    assert forall op :: op in Watched(t).vec <==> op in t.vec || op == t.pc.op;
  }

  /** A step of thread `g` on its own op `op`: the shared parts change for `op` only. */
  ghost predicate Touches(s: State, r: State, g: Gid, op: Op) {
    && r.owner == s.owner && op in s.owner && s.owner[op] == g && g in s.threads
    && r.threads.Keys == s.threads.Keys
    && (forall h :: h in s.threads && h != g ==> r.threads[h] == s.threads[h])
    && (forall o :: o != op ==> (o in s.running <==> o in r.running) && (o in s.done <==> o in r.done))
    && (forall o :: o != op && o in s.flightId ==> o in r.flightId && r.flightId[o] == s.flightId[o])
    && (forall id :: id in s.inFlight && s.inFlight[id] != op ==> id in r.inFlight && r.inFlight[id] == s.inFlight[id])
  }

  /** Ops of different threads are different ops, so such a step disturbs no other thread. */
  lemma OtherKept(s: State, r: State, g: Gid, op: Op, h: Gid, t: Thread)
    requires Touches(s, r, g, op) && h != g && ThreadInv(s, h, t)
    ensures ThreadInv(r, h, t)
  {
    assert !Tracked(t, op) && op !in t.vec && !InHand(t, op);
    if t.pc.Scanning? {
      var i :| t.pc.at <= i < |t.vec| && t.vec[i] in s.done;
      assert t.vec[i] in t.vec;
    }
  }

  lemma OthersKept(s: State, r: State, g: Gid, op: Op)
    requires Inv(s) && Touches(s, r, g, op)
    ensures forall h :: h in r.threads && h != g ==> ThreadInv(r, h, r.threads[h])
  {
    forall h | h in r.threads && h != g ensures ThreadInv(r, h, r.threads[h]) {
      OtherKept(s, r, g, op, h, s.threads[h]);
    }
  }

  /** Entries of the other ops stay right when thread `g` keeps tracking its other ops. */
  lemma EntriesKept(s: State, r: State, g: Gid, op: Op)
    requires Inv(s) && Touches(s, r, g, op)
    requires forall o :: o != op && Tracked(s.threads[g], o) ==> Tracked(r.threads[g], o)
    ensures forall id :: id in s.inFlight && s.inFlight[id] != op ==> Entry(r, id, s.inFlight[id])
  {
    hide Entry, Touches, ThreadInv;
    forall id | id in s.inFlight && s.inFlight[id] != op ensures Entry(r, id, s.inFlight[id]) {
      EntryKept(s, r, g, op, id, s.inFlight[id]);
    }
  }

  lemma EntryKept(s: State, r: State, g: Gid, op: Op, id: nat, other: Op)
    requires Touches(s, r, g, op) && other != op && Entry(s, id, other)
    requires forall o :: o != op && Tracked(s.threads[g], o) ==> Tracked(r.threads[g], o)
    ensures Entry(r, id, other)
  {
  }

  /** The op just popped is in no entry, and starting it touches nothing else. */
  lemma StartTouches(s: State, g: Gid)
    requires Inv(s) && g in s.threads && s.threads[g].pc.Popped?
    ensures Touches(s, DoStart(s, g), g, s.threads[g].pc.op)
    ensures s.threads[g].pc.op !in s.inFlight.Values
  {
    hide Inv;
    OwnInv(s, g);
    PoppedInNoEntry(s, g);
  }

  lemma PoppedInNoEntry(s: State, g: Gid)
    requires Inv(s) && g in s.threads && s.threads[g].pc.Popped?
    ensures s.threads[g].pc.op !in s.inFlight.Values
  {
    var t := s.threads[g];
    assert ThreadInv(s, g, t);
    assert InHand(t, t.pc.op) && !Tracked(t, t.pc.op);
    forall i | i in s.inFlight ensures s.inFlight[i] != t.pc.op {
      assert Entry(s, i, s.inFlight[i]);
    }
  }

  lemma StartInv(s: State, g: Gid)
    requires Inv(s) && g in s.threads && s.threads[g].pc.Popped?
    ensures Inv(DoStart(s, g))
  {
    hide ThreadInv, Entry, Touches;
    StartTouches(s, g);
    OthersKept(s, DoStart(s, g), g, s.threads[g].pc.op);
    StartOwnStep(s, g);
    StartEntries(s, g);
  }

  lemma StartOwnStep(s: State, g: Gid)
    requires Inv(s) && g in s.threads && s.threads[g].pc.Popped?
    ensures ThreadInv(DoStart(s, g), g, DoStart(s, g).threads[g])
  {
    hide Inv, ThreadInv;
    OwnInv(s, g);
    StartOwn(s, DoStart(s, g), g, s.threads[g]);
  }

  lemma StartEntries(s: State, g: Gid)
    requires Inv(s) && g in s.threads && s.threads[g].pc.Popped?
    ensures forall i :: i in s.inFlight ==> Entry(DoStart(s, g), i, s.inFlight[i])
  {
    hide Inv, ThreadInv, Touches, Entry;
    StartTouches(s, g);
    EntriesKept(s, DoStart(s, g), g, s.threads[g].pc.op);
  }

  lemma StartOwn(s: State, r: State, g: Gid, t: Thread)
    requires ThreadInv(s, g, t) && t.pc.Popped?
    requires r.owner == s.owner && r.flightId == s.flightId && r.inFlight == s.inFlight
    requires r.running == s.running + {t.pc.op} && r.done == s.done - {t.pc.op}
    ensures ThreadInv(r, g, t.(pc := Started(t.pc.batch, t.pc.op)))
  {
    assert InHand(t, t.pc.op);
  }

  /** `s.inFlight` never holds an op twice, so it is no larger than the set of ops. */
  lemma InFlightBound(s: State)
    requires Inv(s)
    ensures s.inFlight.Values <= s.owner.Keys
    ensures |s.inFlight| <= |s.inFlight.Values|
    ensures s.next < ID_SPACE && |s.owner| <= ID_SPACE
  {
    forall op | op in s.inFlight.Values ensures op in s.owner {
      var id :| id in s.inFlight && s.inFlight[id] == op;
      assert Entry(s, id, op);
    }
    forall a, b | a in s.inFlight && b in s.inFlight && s.inFlight[a] == s.inFlight[b] ensures a == b {
      assert Entry(s, a, s.inFlight[a]) && Entry(s, b, s.inFlight[b]);
    }
    FlightIds.InjectiveCard(s.inFlight);
  }

  lemma RegisterInv(s: State, g: Gid, id: nat)
    requires Inv(s) && g in s.threads && s.threads[g].pc.Pushed?
    requires id < ID_SPACE && id !in s.inFlight
    ensures Inv(DoRegister(s, g, id))
  {
    hide ThreadInv, Touches, Entry, ToInt;
    RegisterTouches(s, g, id);
    OthersKept(s, DoRegister(s, g, id), g, s.threads[g].pc.op);
    RegisterOwnStep(s, g, id);
    RegisterEntries(s, g, id);
  }

  lemma RegisterOwnStep(s: State, g: Gid, id: nat)
    requires Inv(s) && g in s.threads && s.threads[g].pc.Pushed?
    requires id < ID_SPACE && id !in s.inFlight
    ensures ThreadInv(DoRegister(s, g, id), g, DoRegister(s, g, id).threads[g])
  {
    hide Inv, ThreadInv;
    OwnInv(s, g);
    RegisterOwn(s, DoRegister(s, g, id), g, s.threads[g], id);
  }

  lemma RegisterEntries(s: State, g: Gid, id: nat)
    requires Inv(s) && g in s.threads && s.threads[g].pc.Pushed?
    requires id < ID_SPACE && id !in s.inFlight
    ensures var r := DoRegister(s, g, id); forall i :: i in r.inFlight ==> Entry(r, i, r.inFlight[i])
  {
    hide Inv, ThreadInv, Touches, Entry;
    RegisterTouches(s, g, id);
    EntriesKept(s, DoRegister(s, g, id), g, s.threads[g].pc.op);
    NewEntry(s, g, id);
  }

  lemma NewEntry(s: State, g: Gid, id: nat)
    requires Inv(s) && g in s.threads && s.threads[g].pc.Pushed? && id < ID_SPACE
    ensures Entry(DoRegister(s, g, id), id, s.threads[g].pc.op)
  {
    OwnInv(s, g);
    CastRoundTrip(id);
  }

  /** The op whose locked section has not run is in no entry: its old id is stale. */
  lemma StaleOp(s: State, g: Gid)
    requires Inv(s) && g in s.threads && s.threads[g].pc.Pushed?
    ensures s.threads[g].pc.op in s.owner && s.owner[s.threads[g].pc.op] == g
    ensures s.threads[g].pc.op !in s.inFlight.Values
  {
    var t := s.threads[g];
    assert ThreadInv(s, g, t);
    assert t.pc.op in t.vec && !Tracked(t, t.pc.op);
    forall i | i in s.inFlight ensures s.inFlight[i] != t.pc.op {
      assert Entry(s, i, s.inFlight[i]);
    }
  }

  lemma RegisterTouches(s: State, g: Gid, id: nat)
    requires Inv(s) && g in s.threads && s.threads[g].pc.Pushed?
    requires id < ID_SPACE && id !in s.inFlight
    ensures Touches(s, DoRegister(s, g, id), g, s.threads[g].pc.op)
    ensures s.threads[g].pc.op !in s.inFlight.Values
  {
    hide Inv;
    StaleOp(s, g);
  }

  lemma RegisterOwn(s: State, r: State, g: Gid, t: Thread, id: nat)
    requires ThreadInv(s, g, t) && t.pc.Pushed? && id < ID_SPACE && id !in s.inFlight
    requires r.owner == s.owner && r.running == s.running && r.done == s.done
    requires r.flightId == s.flightId[t.pc.op := ToInt(id)] && r.inFlight == s.inFlight[id := t.pc.op]
    ensures ThreadInv(r, g, t.(pc := Draining(t.pc.batch)))
  {
    CastRoundTrip(id);
    var t' := t.(pc := Draining(t.pc.batch));
    forall op | Tracked(t', op) ensures Registered(r.flightId, r.inFlight, op) {
      if op != t.pc.op {
        assert Tracked(t, op);
        assert Registered(s.flightId, s.inFlight, op);
      }
    }
  }

  lemma CompleteInv(s: State, op: Op)
    requires Inv(s) && Enabled(s, Complete(op))
    ensures Inv(Do(s, Complete(op)))
  {
    var r := Do(s, Complete(op));
    forall h | h in r.threads ensures ThreadInv(r, h, r.threads[h]) {
      CompleteOne(s, op, h, s.threads[h]);
    }
    forall id | id in r.inFlight ensures Entry(r, id, r.inFlight[id]) {
      assert Entry(s, id, s.inFlight[id]);
    }
  }

  lemma CompleteOne(s: State, op: Op, h: Gid, t: Thread)
    requires ThreadInv(s, h, t) && op in s.running
    ensures ThreadInv(Do(s, Complete(op)), h, t)
  {
    if t.pc.Scanning? {
      var i :| t.pc.at <= i < |t.vec| && t.vec[i] in s.done;
      assert t.vec[i] in s.done + {op};
    }
  }

  lemma BeginWaitInv(s: State, g: Gid)
    requires Inv(s) && g in s.threads && s.threads[g].pc == Idle
    requires exists i :: 0 <= i < |s.threads[g].vec| && s.threads[g].vec[i] in s.done
    ensures Inv(Put(s, g, s.threads[g].(pc := Scanning(0))))
  {
    hide Inv;
    var t := s.threads[g];
    OwnInv(s, g);
    PutInv(s, g, t.(pc := Scanning(0)));
  }

  lemma PollInv(s: State, g: Gid)
    requires Inv(s) && g in s.threads && Scannable(s, s.threads[g])
    ensures Inv(DoPoll(s, g))
  {
    var t := s.threads[g];
    assert ThreadInv(s, g, t);
    var cb := t.vec[t.pc.at];
    if cb in s.running {
      PollSkips(s, g, t);
      PutInv(s, g, Skipped(t));
    } else {
      var id := ToUnsigned(s.flightId[cb]);
      PollTakes(s, g, t, id);
      PutInv(s, g, Erased(t, id));
    }
  }

  lemma PollSkips(s: State, g: Gid, t: Thread)
    requires ThreadInv(s, g, t) && t.pc.Scanning? && t.pc.at < |t.vec| && s.running !! s.done
    requires t.vec[t.pc.at] in s.running
    ensures ThreadInv(s, g, Skipped(t))
  {
    assert forall op :: Tracked(Skipped(t), op) ==> Tracked(t, op);
  }

  lemma PollTakes(s: State, g: Gid, t: Thread, id: nat)
    requires ThreadInv(s, g, t) && t.pc.Scanning? && t.pc.at < |t.vec|
    requires t.vec[t.pc.at] !in s.running
    requires t.vec[t.pc.at] in s.flightId && id == ToUnsigned(s.flightId[t.vec[t.pc.at]])
    ensures ThreadInv(s, g, Erased(t, id))
    ensures forall op :: Tracked(Erased(t, id), op) <==> Tracked(t, op)
  {
    LocalErase(s.owner, g, t, id);
    assert t.vec[t.pc.at] in t.vec;
    assert forall op :: Tracked(Erased(t, id), op) <==> Tracked(t, op);
  }

  lemma CollectInv(s: State, g: Gid)
    requires Inv(s) && g in s.threads && s.threads[g].pc.Taken?
    ensures Inv(DoCollect(s, g))
  {
    hide ThreadInv, Touches, Entry;
    CollectTouches(s, g);
    OthersKept(s, DoCollect(s, g), g, s.threads[g].pc.cb);
    CollectOwnStep(s, g);
    CollectEntries(s, g);
  }

  lemma CollectOwnStep(s: State, g: Gid)
    requires Inv(s) && g in s.threads && s.threads[g].pc.Taken?
    ensures ThreadInv(DoCollect(s, g), g, DoCollect(s, g).threads[g])
  {
    hide Inv, ThreadInv;
    OwnInv(s, g);
    CollectOwn(s, DoCollect(s, g), g, s.threads[g]);
  }

  lemma CollectEntries(s: State, g: Gid)
    requires Inv(s) && g in s.threads && s.threads[g].pc.Taken?
    ensures forall i :: i in DoCollect(s, g).inFlight ==> Entry(DoCollect(s, g), i, s.inFlight[i])
  {
    hide Inv, ThreadInv, Touches, Entry;
    CollectTouches(s, g);
    EntriesKept(s, DoCollect(s, g), g, s.threads[g].pc.cb);
  }

  /** Taking out an entry touches only the op it holds, which is in no other entry. */
  lemma CollectTouches(s: State, g: Gid)
    requires Inv(s) && g in s.threads && s.threads[g].pc.Taken?
    ensures Touches(s, DoCollect(s, g), g, s.threads[g].pc.cb)
    ensures forall i :: i in s.inFlight && i != s.threads[g].pc.id ==> s.inFlight[i] != s.threads[g].pc.cb
  {
    var t := s.threads[g];
    OwnInv(s, g);
    assert Tracked(t, t.pc.cb) && Registered(s.flightId, s.inFlight, t.pc.cb);
    forall i | i in s.inFlight && i != t.pc.id ensures s.inFlight[i] != t.pc.cb {
      assert Entry(s, i, s.inFlight[i]);
    }
  }

  lemma CollectOwn(s: State, r: State, g: Gid, t: Thread)
    requires ThreadInv(s, g, t) && t.pc.Taken?
    requires r.owner == s.owner && r.running == s.running && r.done == s.done
    requires r.flightId == s.flightId && r.inFlight == s.inFlight - {t.pc.id}
    ensures ThreadInv(r, g, t.(pc := Idle))
  {
    assert Tracked(t, t.pc.cb);
    assert Registered(s.flightId, s.inFlight, t.pc.cb);
    forall op | Tracked(t.(pc := Idle), op) ensures Registered(r.flightId, r.inFlight, op) {
      assert Tracked(t, op);
      assert Registered(s.flightId, s.inFlight, op);
    }
  }

  /** Every step of every thread and of the OS keeps the invariant. */
  lemma StepInv(s: State, e: Step)
    requires Inv(s) && Enabled(s, e)
    ensures Inv(Do(s, e))
  {
    match e
    case Enqueue(g, op) => EnqueueInv(s, g, op);
    case BeginSubmit(g) => BeginSubmitInv(s, g);
    case EndSubmit(g) => EndSubmitInv(s, g);
    case Pop(g) => PopInv(s, g);
    case Start(g) => StartInv(s, g);
    case Push(g) => PushInv(s, g);
    case Register(g, id) => RegisterInv(s, g, id);
    case Complete(op) => CompleteInv(s, op);
    case BeginWait(g) => BeginWaitInv(s, g);
    case Poll(g) => PollInv(s, g);
    case Collect(g) => CollectInv(s, g);
  }

  lemma {:induction false} RunInv(s: State, es: seq<Step>)
    requires Inv(s) && Run(s, es)
    ensures Inv(Exec(s, es))
    decreases |es|
  {
    if es == [] {
    } else {
      StepInv(s, es[0]);
      RunInv(Do(s, es[0]), es[1..]);
    }
  }

  // ---- what it gives -----------------------------------------------------------------

  lemma ReachableInv(s: State, es: seq<Step>)
    requires Init(s) && Run(s, es)
    ensures Inv(Exec(s, es))
  {
    InitInv(s);
    RunInv(s, es);
  }

  /** No thread ever reads a null entry, runs off the end of its vector, fails to find a free
      id, or gets back another op than the one whose control block it erased. */
  lemma NeverStuck(s: State, es: seq<Step>, g: Gid)
    requires Init(s) && Run(s, es) && g in Exec(s, es).threads
    ensures var r := Exec(s, es); var t := r.threads[g];
      && (t.pc.Taken? ==> Enabled(r, Collect(g)) && r.inFlight[t.pc.id] == t.pc.cb)
      && (t.pc.Scanning? ==> Enabled(r, Poll(g)))
      && (t.pc.Pushed? ==> exists id :: Enabled(r, Register(g, id)))
  {
    ReachableInv(s, es);
    var r := Exec(s, es);
    var t := r.threads[g];
    if t.pc.Taken? {
      EntryFound(r, g);
    } else if t.pc.Scanning? {
      ScanNotOver(r, g);
    } else if t.pc.Pushed? {
      FreeIdForRegister(r, g);
    }
  }

  lemma FreeIdForRegister(s: State, g: Gid)
    requires Inv(s) && g in s.threads && s.threads[g].pc.Pushed?
    ensures exists id :: Enabled(s, Register(g, id))
  {
    InFlightBound(s);
    StaleOp(s, g);
    var op := s.threads[g].pc.op;
    ProperSubsetCard(s.inFlight.Values, s.owner.Keys, op);
    FlightIds.FirstFreeExists(s.inFlight.Keys, s.next, ID_SPACE);
    var id: nat :| FlightIds.FirstFree(s.inFlight.Keys, s.next, ID_SPACE, id);
    assert Enabled(s, Register(g, id));
  }

  lemma ProperSubsetCard(a: set<Op>, b: set<Op>, x: Op)
    requires a <= b && x in b && x !in a
    ensures |a| < |b|
  {
    assert b == a + (b - a);
    assert x in b - a;
  }

  lemma ScanNotOver(s: State, g: Gid)
    requires Inv(s) && g in s.threads && s.threads[g].pc.Scanning?
    ensures Scannable(s, s.threads[g])
  {
    var t := s.threads[g];
    assert ThreadInv(s, g, t);
    assert t.vec[t.pc.at] in t.vec;
    assert Tracked(t, t.vec[t.pc.at]) && Registered(s.flightId, s.inFlight, t.vec[t.pc.at]);
  }

  lemma EntryFound(s: State, g: Gid)
    requires Inv(s) && g in s.threads && s.threads[g].pc.Taken?
    ensures s.threads[g].pc.id in s.inFlight && s.inFlight[s.threads[g].pc.id] == s.threads[g].pc.cb
    ensures s.threads[g].pc.cb in s.done
  {
    var t := s.threads[g];
    assert ThreadInv(s, g, t);
    assert Tracked(t, t.pc.cb) && Registered(s.flightId, s.inFlight, t.pc.cb);
  }

  /** Ids of ops the threads can still look up are unique across all groups. */
  lemma UniqueIds(s: State, es: seq<Step>, g: Gid, h: Gid, a: Op, b: Op)
    requires Init(s) && Run(s, es)
    requires g in Exec(s, es).threads && Tracked(Exec(s, es).threads[g], a)
    requires h in Exec(s, es).threads && Tracked(Exec(s, es).threads[h], b)
    ensures a in Exec(s, es).flightId && b in Exec(s, es).flightId
    ensures Exec(s, es).flightId[a] == Exec(s, es).flightId[b] ==> a == b && g == h
  {
    ReachableInv(s, es);
    var r := Exec(s, es);
    assert ThreadInv(r, g, r.threads[g]) && ThreadInv(r, h, r.threads[h]);
    assert Registered(r.flightId, r.inFlight, a) && Registered(r.flightId, r.inFlight, b);
  }

  function Registrations(es: seq<Step>): nat {
    if es == [] then 0 else (if es[0].Register? then 1 else 0) + Registrations(es[1..])
  }

  /** The counter stands at `n` and all ids below are used up. */
  predicate UsedBelow(s: State, n: nat) {
    s.next == n && forall id :: id in s.inFlight ==> id < n
  }

  /** Ids are handed out in turn: as long as fewer than 2^32 have been, over all groups, the
      counter is their number, and a registration takes just that id. */
  lemma {:induction false} IdsInTurn(s: State, es: seq<Step>, n: nat)
    requires UsedBelow(s, n) && Run(s, es) && n + Registrations(es) < ID_SPACE
    ensures UsedBelow(Exec(s, es), n + Registrations(es))
    decreases |es|
  {
    hide Do, Enabled;
    if es == [] {
    } else {
      IdInTurn(s, es[0], n);
      IdsInTurn(Do(s, es[0]), es[1..], n + if es[0].Register? then 1 else 0);
    }
  }

  lemma IdInTurn(s: State, e: Step, n: nat)
    requires UsedBelow(s, n) && Enabled(s, e) && (e.Register? ==> n + 1 < ID_SPACE)
    ensures e.Register? ==> e.id == n && UsedBelow(Do(s, e), n + 1)
    ensures !e.Register? ==> UsedBelow(Do(s, e), n)
  {
    if e.Register? {
      FlightIds.OwnIdFirst(s.inFlight.Keys, s.next, ID_SPACE, e.id);
    }
  }

  // ---- bounded overtaking ------------------------------------------------------------

  /** The op a step takes out of the vector of `g`, if it does. */
  predicate TakesOp(s: State, e: Step, g: Gid, op: Op) {
    && e == Poll(g) && g in s.threads && Scannable(s, s.threads[g])
    && s.threads[g].vec[s.threads[g].pc.at] == op && op !in s.running
  }

  predicate TakesSome(s: State, e: Step, g: Gid) {
    && e == Poll(g) && g in s.threads && Scannable(s, s.threads[g])
    && s.threads[g].vec[s.threads[g].pc.at] !in s.running
  }

  /** How many calls of wait on `g` took an op out during the run. */
  ghost function Takes(s: State, es: seq<Step>, g: Gid): nat
    requires Run(s, es)
    decreases |es|
  {
    if es == [] then 0
    else (if TakesSome(s, es[0], g) then 1 else 0) + Takes(Do(s, es[0]), es[1..], g)
  }

  ghost predicate Took(s: State, es: seq<Step>, g: Gid, op: Op)
    requires Run(s, es)
    decreases |es|
  {
    es != [] && (TakesOp(s, es[0], g, op) || Took(Do(s, es[0]), es[1..], g, op))
  }

  /** `op` has completed and stands at index `p`, and no scan is already past it. */
  predicate Waits(s: State, g: Gid, op: Op, p: nat) {
    && g in s.threads && p < |s.threads[g].vec| && s.threads[g].vec[p] == op
    && op in s.done
    && (s.threads[g].pc.Scanning? ==> s.threads[g].pc.at <= p)
  }

  lemma WaitsOwnStep(s: State, e: Step, g: Gid, op: Op, p: nat)
    requires Enabled(s, e) && Waits(s, g, op, p) && !e.Complete? && e.g == g
    requires ThreadInv(s, g, s.threads[g]) && s.running !! s.done
    ensures TakesOp(s, e, g, op)
         || (TakesSome(s, e, g) && p > 0 && Waits(Do(s, e), g, op, p - 1))
         || (!TakesSome(s, e, g) && Waits(Do(s, e), g, op, p))
  {
    var t := s.threads[g];
    assert op in t.vec;
    if e.Start? {
      assert InHand(t, t.pc.op);
    }
  }

  lemma WaitsOtherStep(s: State, e: Step, g: Gid, op: Op, p: nat)
    requires Enabled(s, e) && Waits(s, g, op, p) && (e.Complete? || e.g != g)
    requires ThreadInv(s, g, s.threads[g])
    requires e.Start? && e.g in s.threads ==> ThreadInv(s, e.g, s.threads[e.g])
    ensures !TakesSome(s, e, g) && Waits(Do(s, e), g, op, p)
  {
    assert op in s.threads[g].vec;
    if e.Start? {
      assert InHand(s.threads[e.g], s.threads[e.g].pc.op);
    }
  }

  /** A completed op at index `p` of its vector is returned within p + 1 waits, whatever is
      enqueued, submitted or completed in between by any thread. */
  lemma {:induction false} BoundedOvertaking(s: State, es: seq<Step>, g: Gid, op: Op, p: nat)
    requires Inv(s) && Run(s, es) && Waits(s, g, op, p)
    requires Takes(s, es, g) > p
    ensures Took(s, es, g, op)
    decreases |es|
  {
    if es[0].Complete? || es[0].g != g {
      assert ThreadInv(s, g, s.threads[g]);
      WaitsOtherStep(s, es[0], g, op, p);
    } else {
      assert ThreadInv(s, g, s.threads[g]);
      WaitsOwnStep(s, es[0], g, op, p);
    }
    if !TakesOp(s, es[0], g, op) {
      StepInv(s, es[0]);
      BoundedOvertaking(Do(s, es[0]), es[1..], g, op, if TakesSome(s, es[0], g) then p - 1 else p);
    }
  }
}
