/** Service, ActiveRpcs and the event queues of src/async_grpc: many Rpcs, several event queues shared by
    them, one thread per queue.  Every step of the whole is one step of one Rpc's automaton, which carries
    the per-Rpc invariants over; on top come the facts about the set of active Rpcs. */
module RpcService {
  import opened Rpc
  import opened RpcSend

  type Queued = (nat, Event)

  /** What the thread of an event queue is doing. */
  datatype Work = Resting | Working(id: nat, e: Event, made: seq<Item>, due: bool)

  /** `rpcs` is ActiveRpcs, keyed by identity; `current` is the work of each queue's thread; `transport` are the tags
      gRPC holds; `entered` and `midway` count the other threads that locked an Rpc to write and have not queued
      their item, and those that have and did not push yet.  `crashed`: an Rpc was used that ActiveRpcs had let
      go of. */
  datatype System = System(
    rpcs: map<nat, RpcState>, queues: seq<seq<Queued>>, current: seq<Work>, transport: map<nat, set<Tag>>,
    entered: map<nat, nat>, midway: map<nat, nat>, next: nat, shutting: bool, crashed: bool)

  function TagsOf(s: System, id: nat): set<Tag> { if id in s.transport then s.transport[id] else {} }
  function EnteredOf(s: System, id: nat): nat { if id in s.entered then s.entered[id] else 0 }
  function MidwayOf(s: System, id: nat): nat { if id in s.midway then s.midway[id] else 0 }

  /** The threads that hold Rpc id locked. */
  function Inside(s: System, id: nat): nat { EnteredOf(s, id) + MidwayOf(s, id) }

  datatype SysStep =
    | Returns(id: nat, tag: Tag, ok: bool)     // RunCompletionQueue
    | Begins(k: nat)                           // RunEventQueue, up to the handler
    | HandlerEnqueues(k: nat, item: Item)      // the handler inside Write or Finish
    | HandlerPushes(k: nat)
    | Ends(k: nat, eq: nat)                    // the rest of the event; eq is the selector's next choice
    | Enters(id: nat)                          // another thread inside Write or Finish
    | Enqueues(id: nat, item: Item)
    | Pushes(id: nat)
    | Stops                                    // StopServing

  predicate Busies(s: System, k: nat) { k < |s.current| && s.current[k].Working? }

  predicate Possible(s: System, st: SysStep) {
    match st
    case Returns(id, tag, ok) => tag in TagsOf(s, id)
    case Begins(k) => k < |s.queues| && s.queues[k] != [] && k < |s.current| && s.current[k] == Resting
    case HandlerEnqueues(k, item) =>
      && Busies(s, k) && !s.current[k].due
      && s.current[k].id in s.rpcs && RunsHandler(s.rpcs[s.current[k].id].kind, s.current[k].e)
    case HandlerPushes(k) => Busies(s, k) && s.current[k].due
    case Ends(k, eq) => Busies(s, k) && !s.current[k].due && eq < |s.queues|
    // the weak pointer locks while the Rpc is active and as long as some thread keeps it
    case Enters(id) => (id in s.rpcs && NewConnection !in s.rpcs[id].pending) || Inside(s, id) > 0
    case Enqueues(id, item) => EnteredOf(s, id) > 0
    case Pushes(id) => MidwayOf(s, id) > 0
    case Stops => true
  }

  /** Accepts succeed while serving and fail once shutting down, and a thread inside Write or Finish gets to its
      push while the Rpc is still there. */
  predicate AsExpected(s: System, st: SysStep)
    requires Possible(s, st)
  {
    && (st.Begins? && IsAccept(s.queues[st.k][0].1) ==> s.queues[st.k][0].1.ok == !s.shutting)
    && (st.Pushes? ==> st.id in s.rpcs)
  }

  function Push(s: System, k: nat, x: Queued): System
    requires k < |s.queues|
  {
    s.(queues := s.queues[k := s.queues[k] + [x]])
  }

  function Pop(s: System, k: nat): System
    requires k < |s.queues| && s.queues[k] != []
  {
    s.(queues := s.queues[k := s.queues[k][1..]])
  }

  /** HandleNewConnection's last act: a clone takes the slot. */
  function AddClone(s: System, r: RpcState, eq: nat): System {
    s.(rpcs := s.rpcs[s.next := Clone(r, eq)], transport := s.transport[s.next := {NewConnection}], next := s.next + 1)
  }

  /** RunCompletionQueue: the tag's own Rpc says which queue it goes to. */
  function ReturnTag(s: System, id: nat, tag: Tag, ok: bool): System
    requires id in s.rpcs && s.rpcs[id].eq < |s.queues|
  {
    var more := if tag == NewConnection && ok then {Done} else {};
    Push(s, s.rpcs[id].eq, (id, Completed(tag, ok))).(transport := s.transport[id := TagsOf(s, id) - {tag} + more])
  }

  /** The thread of queue k begins with event e of the active Rpc id, already popped. */
  function BeginEvent(s: System, k: nat, id: nat, e: Event): System
    requires id in s.rpcs && k < |s.current|
  {
    var r := s.rpcs[id];
    if IsAccept(e) && s.shutting then s.(rpcs := s.rpcs - {id})
    // the failed Rpc is let go of and then cloned
    else if IsAccept(e) && !e.ok then s.(rpcs := s.rpcs - {id}, crashed := true)
    else
      s.(rpcs := s.rpcs[id := Begun(r, e)], transport := s.transport[id := TagsOf(s, id) + StartedAtBegin(r, e)],
         current := s.current[k := Working(id, e, [], false)])
  }

  /** And ends with it, but for the clone. */
  function Finished(s: System, k: nat): System
    requires Busies(s, k) && s.current[k].id in s.rpcs
  {
    var id, e, r := s.current[k].id, s.current[k].e, s.rpcs[s.current[k].id];
    s.(rpcs := if LetsGo(r, e) then s.rpcs - {id} else s.rpcs[id := Ended(r, e)],
       transport := s.transport[id := TagsOf(s, id) + StartedAtEnd(r, e)],
       current := s.current[k := Resting])
  }

  function EndEvent(s: System, k: nat, eq: nat): System
    requires Busies(s, k) && s.current[k].id in s.rpcs
  {
    var r := s.rpcs[s.current[k].id];
    if IsAccept(s.current[k].e) then AddClone(Finished(s, k), r, eq) else Finished(s, k)
  }

  /** The first half of a call the handler makes of Write or Finish, and the second. */
  function HandlerEnqueue(s: System, k: nat, item: Item): System
    requires Busies(s, k) && s.current[k].id in s.rpcs
  {
    var w := s.current[k];
    s.(rpcs := s.rpcs[w.id := Enqueue(s.rpcs[w.id], [item])],
       current := s.current[k := Working(w.id, w.e, w.made + [item], true)])
  }

  function HandlerPush(s: System, k: nat): System
    requires Busies(s, k) && s.current[k].id in s.rpcs && s.rpcs[s.current[k].id].eq < |s.queues|
  {
    var w := s.current[k];
    Push(s, s.rpcs[w.id].eq, (w.id, WriteNeeded)).(current := s.current[k := w.(due := false)])
  }

  /** Another thread's: the pointer is locked, the item is queued, the wake-up pushed.  Locked, the Rpc can be
      written to even after ActiveRpcs let go of it. */
  function Enter(s: System, id: nat): System { s.(entered := s.entered[id := EnteredOf(s, id) + 1]) }

  function EnqueueItem(s: System, id: nat, item: Item): System
    requires EnteredOf(s, id) > 0
  {
    s.(rpcs := if id in s.rpcs then s.rpcs[id := Enqueue(s.rpcs[id], [item])] else s.rpcs,
       entered := s.entered[id := EnteredOf(s, id) - 1], midway := s.midway[id := MidwayOf(s, id) + 1])
  }

  function PushNeeded(s: System, id: nat): System
    requires id in s.rpcs && s.rpcs[id].eq < |s.queues| && MidwayOf(s, id) > 0
  {
    Push(s, s.rpcs[id].eq, (id, WriteNeeded)).(midway := s.midway[id := MidwayOf(s, id) - 1])
  }

  predicate InRange(s: System) {
    && |s.current| == |s.queues|
    && forall id :: id in s.rpcs ==> id < s.next && s.rpcs[id].eq < |s.queues|
  }

  function Next(s: System, st: SysStep): System
    requires InRange(s) && Possible(s, st)
  {
    match st
    case Returns(id, tag, ok) =>
      if id in s.rpcs then ReturnTag(s, id, tag, ok) else s.(crashed := true)
    case Begins(k) =>
      var head := s.queues[k][0];
      if head.0 in s.rpcs then BeginEvent(Pop(s, k), k, head.0, head.1)
      else if head.1.WriteNeeded? then Pop(s, k)    // "Ignoring stale event."
      else s.(crashed := true)
    case HandlerEnqueues(k, item) => HandlerEnqueue(s, k, item)
    case HandlerPushes(k) =>
      if s.current[k].id in s.rpcs then HandlerPush(s, k) else s.(crashed := true)
    case Ends(k, eq) =>
      if s.current[k].id in s.rpcs then EndEvent(s, k, eq) else s.(crashed := true)
    case Enters(id) => Enter(s, id)
    case Enqueues(id, item) => EnqueueItem(s, id, item)
    case Pushes(id) =>
      if id in s.rpcs then PushNeeded(s, id) else s.(crashed := true)    // GetWeakPtr's CHECK
    case Stops => s.(shutting := true)
  }

  // ---------- one Rpc's share ----------

  function Project(q: seq<Queued>, id: nat): seq<Event> {
    if q == [] then [] else (if q[0].0 == id then [q[0].1] else []) + Project(q[1..], id)
  }

  function PhaseOf(w: Work, id: nat): Phase {
    if w.Working? && w.id == id then Handling(w.e, w.made, w.due) else Idle
  }

  function ConnOf(s: System, id: nat): Conn
    requires id in s.rpcs && InRange(s)
  {
    var k := s.rpcs[id].eq;
    Conn(s.rpcs[id], Project(s.queues[k], id), TagsOf(s, id), EnteredOf(s, id), MidwayOf(s, id),
         PhaseOf(s.current[k], id))
  }

  lemma {:induction false} ProjectConcat(a: seq<Queued>, b: seq<Queued>, id: nat)
    ensures Project(a + b, id) == Project(a, id) + Project(b, id)
  {
    if a == [] {
      assert a + b == b;
    } else {
      assert (a + b)[1..] == a[1..] + b;
      ProjectConcat(a[1..], b, id);
      var head := if a[0].0 == id then [a[0].1] else [];
      assert Project(a + b, id) == head + Project(a[1..] + b, id);
      assert head + (Project(a[1..], id) + Project(b, id)) == head + Project(a[1..], id) + Project(b, id);
    }
  }

  lemma ProjectOne(q: seq<Queued>, x: Queued, id: nat)
    ensures Project(q + [x], id) == if x.0 == id then Project(q, id) + [x.1] else Project(q, id)
  {
    ProjectConcat(q, [x], id);
    assert [x][1..] == [];
    assert Project([x][1..], id) == [];
  }

  lemma {:induction false} ProjectIn(q: seq<Queued>, i: nat)
    requires i < |q|
    ensures q[i].1 in Project(q, q[i].0)
  {
    if i > 0 {
      ProjectIn(q[1..], i - 1);
      assert q[1..][i - 1] == q[i];
    }
  }

  lemma {:induction false} ProjectNone(q: seq<Queued>, id: nat)
    requires forall i :: 0 <= i < |q| ==> q[i].0 != id
    ensures Project(q, id) == []
  {
    if q != [] { ProjectNone(q[1..], id); }
  }

  lemma {:induction false} ProjectedFrom(q: seq<Queued>, id: nat, e: Event) returns (i: nat)
    requires e in Project(q, id)
    ensures i < |q| && q[i] == (id, e)
  {
    if q[0] == (id, e) {
      i := 0;
    } else {
      var j := ProjectedFrom(q[1..], id, e);
      i := j + 1;
    }
  }

  // ---------- the invariant of the whole ----------

  predicate QueuedOk(s: System, k: nat, x: Queued) {
    && x.0 < s.next
    && (if x.0 in s.rpcs then s.rpcs[x.0].eq == k else x.1.WriteNeeded?)
  }

  predicate QueueOk(s: System, k: nat)
    requires k < |s.queues|
  {
    forall i :: 0 <= i < |s.queues[k]| ==> QueuedOk(s, k, s.queues[k][i])
  }

  /** A thread works only on active Rpcs of its own queue. */
  predicate WorkOk(s: System, k: nat)
    requires k < |s.current|
  {
    s.current[k].Working? ==> s.current[k].id in s.rpcs && s.rpcs[s.current[k].id].eq == k
  }

  predicate RpcOk(s: System, id: nat)
    requires id in s.rpcs
  {
    InRange(s) && SendInv(ConnOf(s, id))
  }

  predicate TagsOwned(s: System) {
    && (forall id :: id in s.transport ==> id < s.next && (s.transport[id] != {} ==> id in s.rpcs))
    && (forall id :: id in s.entered ==> id < s.next) && (forall id :: id in s.midway ==> id < s.next)
  }

  /** Every tag held by gRPC or queued belongs to an active Rpc, queued where that Rpc's thread will find
      it; and every active Rpc satisfies its own invariants. */
  predicate Inv(s: System) {
    && !s.crashed
    && (forall id {:trigger RpcOk(s, id)} :: id in s.rpcs ==> RpcOk(s, id))
    && InRange(s)
    && (forall k :: 0 <= k < |s.queues| ==> QueueOk(s, k))
    && (forall k :: 0 <= k < |s.current| ==> WorkOk(s, k))
    && TagsOwned(s)
  }
}
