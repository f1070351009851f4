/** The objects of src/async_grpc/rpc.cc, service.cc and server.cc.  Their methods update fields in place; each
    is proved to do what the value-level function it refines says.

    gRPC is outside: a method returns the tags it hands over.  What handler code does with its Writer is the
    argument `calls`. */
module RpcObjects {
  import opened Arithmetic
  import opened Options
  import Spec = Rpc
  import opened RpcEvents
  import opened RpcService
  import opened RpcTheorems

  type Tag = Spec.Tag
  type Item = Spec.Item
  type Event = Spec.Event

  class Rpc {
    const address: nat
    const kind: Spec.RpcType
    const method_: nat
    const cq: nat
    var eventQueue: nat
    var pending: set<Tag>          // the pending flags of the five event objects
    var sendQueue: seq<Item>
    var response: Option<Spec.Msg>
    ghost var enqueued: seq<Item>
    ghost var sent: seq<Spec.Sent>

    ghost function View(): Spec.RpcState
      reads this
    {
      Spec.RpcState(kind, method_, cq, eventQueue, pending, sendQueue, response, enqueued, sent)
    }

    constructor (address: nat, kind: Spec.RpcType, method_: nat, cq: nat, eventQueue: nat)
      ensures this.address == address
      ensures View() == Spec.NewRpc(kind, method_, cq, eventQueue).(pending := {})
    {
      this.address, this.kind, this.method_, this.cq, this.eventQueue := address, kind, method_, cq, eventQueue;
      pending, sendQueue, response, enqueued, sent := {}, [], None, [], [];
    }

    method Clone(address: nat) returns (rpc: Rpc)
      ensures fresh(rpc) && rpc.address == address && rpc.View() == Spec.Clone(View(), eventQueue).(pending := {})
    {
      rpc := new Rpc(address, kind, method_, cq, eventQueue);
    }

    method SetEventQueue(eq: nat)
      modifies this`eventQueue
      ensures View() == old(View()).(eq := eq)
    {
      eventQueue := eq;
    }

    /** DONE is only announced; gRPC returns it for an accepted connection. */
    method RequestNextMethodInvocation() returns (started: set<Tag>)
      modifies this`pending
      ensures started == {Spec.NewConnection}
      ensures View() == old(View()).(pending := old(pending) + {Spec.NewConnection, Spec.Done})
    {
      pending := pending + {Spec.Done};
      pending := pending + {Spec.NewConnection};
      started := {Spec.NewConnection};
      assert old(pending) + {Spec.Done} + {Spec.NewConnection} == old(pending) + {Spec.NewConnection, Spec.Done};
    }

    /** The streaming half of RequestStreamingReadIfNeeded; the other half runs the handler. */
    method RequestStreamingRead() returns (started: set<Tag>)
      modifies this`pending
      ensures started == {Spec.Read} && View() == Spec.StartRead(old(View()))
    {
      pending := pending + {Spec.Read};
      started := {Spec.Read};
    }

    method EnqueueMessage(item: Item)
      modifies this`sendQueue, this`enqueued
      ensures View() == Spec.Enqueue(old(View()), [item])
    {
      sendQueue := sendQueue + [item];
      enqueued := enqueued + [item];
    }

    method HandleSendQueue() returns (started: set<Tag>)
      modifies this`pending, this`sendQueue, this`response, this`sent
      ensures View() == Spec.HandleSendQueue(old(View()))
      ensures started == View().pending - old(pending)
    {
      if sendQueue == [] || Spec.Write in pending || Spec.Finish in pending {
        started := {};
        return;
      }
      var item := sendQueue[0];
      sendQueue := sendQueue[1..];
      if item.Status? || kind == Spec.NormalRpc || kind == Spec.ClientStreaming {
        started := PerformFinish(item);
      } else {
        started := PerformWrite(item.msg);
      }
    }

    method PerformFinish(item: Item) returns (started: set<Tag>)
      requires Spec.Finish !in pending
      modifies this`pending, this`response, this`sent
      ensures View() == Spec.PerformFinish(old(View()), item)
      ensures started == View().pending - old(pending)
    {
      pending := pending + {Spec.Finish};
      if kind == Spec.ClientStreaming || kind == Spec.NormalRpc {
        response := if item.Message? then Some(item.msg) else None;
      }
      sent := sent + [Spec.Started(item, true)];
      started := {Spec.Finish};
    }

    method PerformWrite(msg: Spec.Msg) returns (started: set<Tag>)
      requires Spec.Write !in pending && Spec.StreamsResponses(kind)
      modifies this`pending, this`response, this`sent
      ensures View() == Spec.PerformWrite(old(View()), msg)
      ensures started == View().pending - old(pending)
    {
      pending := pending + {Spec.Write};
      response := Some(msg);
      sent := sent + [Spec.Started(Spec.Message(msg), false)];
      started := {Spec.Write};
    }

    /** CompletionQueueRpcEvent::Handle, first line. */
    method ClearPending(tag: Tag)
      modifies this`pending, this`sent
      ensures View() == Spec.Clear(old(View()), tag)
    {
      pending := pending - {tag};
      if tag == Spec.Write || tag == Spec.Finish { sent := sent + [Spec.Handled]; }
    }

    method IsAnyEventPending() returns (b: bool)
      ensures b == Spec.AnyEventPending(View())
    {
      b := Spec.Done in pending || Spec.Read in pending || Spec.Write in pending || Spec.Finish in pending;
    }
  }

  // ---------- StartServing, on values ----------

  /** The event queue of the id-th Rpc when the round robin stood at `first`. */
  function RoundRobin(first: nat, id: nat, queues: nat): nat
    requires queues > 0
  {
    (first + id + 1) % queues
  }

  /** The queue whose turn is next. */
  function Turn(current: nat, queues: nat): nat { if current + 1 < queues then current + 1 else 0 }

  function TurnIf(taken: bool, current: nat, queues: nat): nat { if taken then Turn(current, queues) else current }

  lemma TurnIs(current: nat, queues: nat)
    requires current < queues
    ensures Turn(current, queues) == (current + 1) % queues
  {
  }

  lemma RoundRobinStep(first: nat, n: nat, queues: nat)
    requires queues > 0
    ensures Turn((first + n) % queues, queues) == RoundRobin(first, n, queues)
  {
    TurnIs((first + n) % queues, queues);
    NextRemainder(first + n, (first + n) / queues, (first + n) % queues, queues);
  }

  /** No event is being handled. */
  function AllResting(queues: nat): seq<Work> { seq(queues, _ => Resting) }

  /** The first n accept slots are filled. */
  ghost predicate ServingUpTo(s: System, kinds: seq<Spec.RpcType>, cqs: nat, n: nat, first: nat) {
    && !s.shutting && !s.crashed && s.entered == map[] && s.midway == map[]
    && |s.queues| > 0 && s.current == AllResting(|s.queues|)
    && (forall k :: 0 <= k < |s.queues| ==> s.queues[k] == [])
    && s.next == n
    && (forall id :: id in s.rpcs <==> 0 <= id < n)
    && s.transport.Keys == s.rpcs.Keys
    && (forall id :: id in s.rpcs ==> s.transport[id] == {Spec.NewConnection})
    && (forall id :: id in s.rpcs ==>
          InitialRpc(s, kinds, cqs, id) && s.rpcs[id].eq == RoundRobin(first, id, |s.queues|))
  }

  lemma OneMore(s: System, t: System, kinds: seq<Spec.RpcType>, cqs: nat, n: nat, first: nat)
    requires ServingUpTo(s, kinds, cqs, n, first) && cqs > 0 && n / cqs < |kinds|
    requires t.rpcs == s.rpcs[n := Spec.NewRpc(kinds[n / cqs], n / cqs, n % cqs, RoundRobin(first, n, |s.queues|))]
    requires t.transport == s.transport[n := {Spec.NewConnection}] && t.next == n + 1
    requires t.queues == s.queues && t.current == s.current && t.entered == s.entered && t.midway == s.midway
    requires t.shutting == s.shutting && t.crashed == s.crashed
    ensures ServingUpTo(t, kinds, cqs, n + 1, first)
  {
    forall id | id in t.rpcs
      ensures InitialRpc(t, kinds, cqs, id) && t.rpcs[id].eq == RoundRobin(first, id, |t.queues|)
    {
      if id != n { assert InitialRpc(s, kinds, cqs, id); }
    }
  }

  lemma NothingCalled(r: Spec.RpcState, queues: seq<seq<Queued>>, eq: nat, id: nat)
    requires eq < |queues|
    ensures Spec.Enqueue(r, []) == r && Pushed(queues, eq, id, 0) == queues
  {
    assert queues[eq] + WakeupsOf(id, 0) == queues[eq];
    assert r.sendQueue + [] == r.sendQueue && r.enqueued + [] == r.enqueued;
  }

  lemma OneMoreCall(r: Spec.RpcState, calls: seq<Item>, i: nat, queues: seq<seq<Queued>>, eq: nat, id: nat)
    requires i < |calls| && eq < |queues|
    ensures var q := Pushed(queues, eq, id, i);
            Pushed(queues, eq, id, i + 1) == q[eq := q[eq] + [(id, Spec.WriteNeeded)]]
    ensures Spec.Enqueue(Spec.Enqueue(r, calls[..i]), [calls[i]]) == Spec.Enqueue(r, calls[..i + 1])
  {
    assert queues[eq] + WakeupsOf(id, i + 1) == queues[eq] + WakeupsOf(id, i) + [(id, Spec.WriteNeeded)];
    assert calls[..i] + [calls[i]] == calls[..i + 1];
    assert r.sendQueue + calls[..i] + [calls[i]] == r.sendQueue + calls[..i + 1];
    assert r.enqueued + calls[..i] + [calls[i]] == r.enqueued + calls[..i + 1];
  }

  lemma UpdateTwice<V>(m: map<nat, V>, id: nat, a: V, b: V)
    ensures m[id := a][id := b] == m[id := b]
  {
  }

  lemma UpdateRemove(m: map<nat, Spec.RpcState>, id: nat, r: Spec.RpcState)
    ensures m[id := r] - {id} == m - {id}
  {
  }

  lemma FreshRead(r: Spec.RpcState, calls: seq<Item>)
    requires Spec.Read !in r.pending
    ensures Spec.StartRead(Spec.Enqueue(r, calls)).pending - r.pending == {Spec.Read}
    ensures Spec.StartRead(r).pending - r.pending == {Spec.Read}
    ensures r.pending - r.pending == {}
  {
  }

  // ---------- handling an event, its flag cleared first ----------

  /** HandleNewConnection, once the accept's own flag is cleared. */
  function AfterAccept(s: System, id: nat, ok: bool, calls: seq<Item>, eq: nat): System
    requires id in s.rpcs && s.rpcs[id].eq < |s.queues|
  {
    if s.shutting then s.(rpcs := s.rpcs - {id})
    else if !ok then s.(rpcs := s.rpcs - {id}, crashed := true)
    else Connect(s, id, calls, eq)
  }

  function Accepted(s: System, id: nat, calls: seq<Item>): System
    requires id in s.rpcs && s.rpcs[id].eq < |s.queues|
  {
    var after := AfterCleared(s.rpcs[id], Spec.NewConnection, true, calls);
    Settle(s, id, after, after.pending - s.rpcs[id].pending, |calls|, false)
  }

  /** A clone takes over the slot of Rpc id. */
  function CloneOf(s: System, id: nat, eq: nat): System
    requires id in s.rpcs
  {
    RpcService.AddClone(s, s.rpcs[id], eq)
  }

  function Connect(s: System, id: nat, calls: seq<Item>, eq: nat): System
    requires id in s.rpcs && s.rpcs[id].eq < |s.queues|
  {
    CloneOf(Accepted(s, id, calls), id, eq)
  }

  lemma SettleCleared(s: System, t: System, id: nat, after: Spec.RpcState, started: set<Tag>, calls: nat, removed: bool)
    requires id in s.rpcs && s.rpcs[id].eq < |s.queues|
    requires id in t.rpcs && t.rpcs[id].eq == s.rpcs[id].eq && t == s.(rpcs := s.rpcs[id := t.rpcs[id]])
    ensures Settle(t, id, after, started, calls, removed) == Settle(s, id, after, started, calls, removed)
  {
    UpdateRemove(s.rpcs, id, t.rpcs[id]);
    assert s.rpcs[id := t.rpcs[id]][id := after] == s.rpcs[id := after];
  }

  function Cleared(s: System, id: nat, tag: Tag): System
    requires id in s.rpcs
  {
    s.(rpcs := s.rpcs[id := Spec.Clear(s.rpcs[id], tag)])
  }

  /** Any other completion, its flag cleared. */
  function AfterCompletion(s: System, id: nat, tag: Tag, ok: bool, calls: seq<Item>): System
    requires id in s.rpcs && s.rpcs[id].eq < |s.queues|
  {
    var r, after := s.rpcs[id], AfterCleared(s.rpcs[id], tag, ok, calls);
    Settle(s, id, after, after.pending - r.pending, |calls|, Spec.LetsGo(after, Spec.Completed(tag, ok)))
  }

  function AfterWakeup(s: System, id: nat): System
    requires id in s.rpcs && s.rpcs[id].eq < |s.queues|
  {
    var r, after := s.rpcs[id], Spec.HandleSendQueue(s.rpcs[id]);
    Settle(s, id, after, after.pending - r.pending, 0, !Spec.AnyEventPending(after))
  }

  lemma AcceptCleared(s: System, id: nat, ok: bool, calls: seq<Item>, eq: nat)
    requires id in s.rpcs && s.rpcs[id].eq < |s.queues|
    ensures AfterAccept(Cleared(s, id, Spec.NewConnection), id, ok, calls, eq)
            == RpcEvents.HandleEvent(s, id, Spec.Completed(Spec.NewConnection, ok), calls, eq)
  {
    var t := Cleared(s, id, Spec.NewConnection);
    UpdateRemove(s.rpcs, id, t.rpcs[id]);
    var after := AfterCleared(t.rpcs[id], Spec.NewConnection, true, calls);
    SettleCleared(s, t, id, after, after.pending - t.rpcs[id].pending, |calls|, false);
  }

  lemma CompletedCleared(s: System, id: nat, tag: Tag, ok: bool, calls: seq<Item>, eq: nat)
    requires id in s.rpcs && s.rpcs[id].eq < |s.queues| && tag != Spec.NewConnection
    ensures AfterCompletion(Cleared(s, id, tag), id, tag, ok, calls)
            == RpcEvents.HandleEvent(s, id, Spec.Completed(tag, ok), calls, eq)
  {
    var t := Cleared(s, id, tag);
    var r, after := t.rpcs[id], AfterCleared(t.rpcs[id], tag, ok, calls);
    SettleCleared(s, t, id, after, after.pending - r.pending, |calls|, Spec.LetsGo(after, Spec.Completed(tag, ok)));
  }

  function ClearedAndHandled(s: System, id: nat, tag: Tag, ok: bool, calls: seq<Item>, eq: nat): System
    requires id in s.rpcs && s.rpcs[id].eq < |s.queues|
  {
    if tag == Spec.NewConnection then AfterAccept(Cleared(s, id, tag), id, ok, calls, eq)
    else AfterCompletion(Cleared(s, id, tag), id, tag, ok, calls)
  }

  /** Clearing the flag first and then handling the event is what HandleEvent says in one go. */
  lemma EventCleared(s: System, id: nat, e: Event, calls: seq<Item>, eq: nat)
    requires id in s.rpcs && s.rpcs[id].eq < |s.queues| && (calls != [] ==> Spec.RunsHandler(s.rpcs[id].kind, e))
    ensures RpcEvents.HandleEvent(s, id, e, calls, eq)
            == match e
               case WriteNeeded => AfterWakeup(s, id)
               case Completed(tag, ok) => ClearedAndHandled(s, id, tag, ok, calls, eq)
  {
    match e {
      case WriteNeeded =>
      case Completed(tag, ok) =>
        if tag == Spec.NewConnection {
          AcceptCleared(s, id, ok, calls, eq);
        } else {
          CompletedCleared(s, id, tag, ok, calls, eq);
        }
    }
  }

  /** A server that was not started. */
  function Empty(queues: nat): System {
    System(map[], seq(queues, _ => []), AllResting(queues), map[], map[], map[], 0, false, false)
  }

  /** One service with its ActiveRpcs and the server's event queues.  Objects are keyed by a running number, their
      `address`. */
  class Service {
    const kinds: seq<Spec.RpcType>       // rpc_handler_infos_, in map order
    const completionQueues: nat
    var rpcs: map<nat, Rpc>
    var queues: seq<seq<Queued>>
    var currentEventQueue: nat
    var next: nat
    var shuttingDown: bool
    ghost var active: map<nat, Spec.RpcState>    // the fields of the objects in rpcs
    ghost var transport: map<nat, set<Tag>>
    ghost var entered: map<nat, nat>
    ghost var midway: map<nat, nat>
    ghost var crashed: bool

    ghost predicate Valid()
      reads this, rpcs.Values
    {
      && (currentEventQueue < |queues| || |queues| == 0)
      && active.Keys == rpcs.Keys
      && (forall i :: i in rpcs ==> RpcValid(i))
    }

    /** Rpc i is where its address says, and `active` has its fields. */
    ghost predicate RpcValid(i: nat)
      requires i in rpcs && i in active
      reads this, rpcs[i]
    {
      i < next && rpcs[i].address == i && rpcs[i].eventQueue < |queues| && active[i] == rpcs[i].View()
    }

    ghost function View(): System
      reads this
    {
      System(active, queues, AllResting(|queues|), transport, entered, midway, next, shuttingDown, crashed)
    }

    /** When one Rpc object was touched and `active` kept up with it, the rest is as it was. */
    twostate lemma StillValid(id: nat)
      requires old(Valid()) && rpcs == old(rpcs) && id in rpcs && next == old(next)
      requires |queues| == old(|queues|) && currentEventQueue == old(currentEventQueue)
      requires active == old(active)[id := rpcs[id].View()] && rpcs[id].eventQueue == old(rpcs[id].eventQueue)
      requires forall j :: j in rpcs && rpcs[j] != rpcs[id] ==> unchanged(rpcs[j])
      ensures Valid()
    {
      forall i | i in rpcs ensures RpcValid(i) {
        if i != id { assert old(RpcValid(i)); }
      }
    }

    constructor (kinds: seq<Spec.RpcType>, completionQueues: nat, eventThreads: nat)
      ensures Valid() && this.kinds == kinds && this.completionQueues == completionQueues && currentEventQueue == 0
      ensures View() == Empty(eventThreads)
    {
      this.kinds, this.completionQueues := kinds, completionQueues;
      rpcs, queues, currentEventQueue, next, shuttingDown := map[], seq(eventThreads, _ => []), 0, 0, false;
      active, transport, entered, midway, crashed := map[], map[], map[], map[], false;
    }

    method SelectNextEventQueueRoundRobin() returns (eq: nat)
      requires Valid() && |queues| > 0
      modifies this`currentEventQueue
      ensures Valid() && eq == currentEventQueue == Turn(old(currentEventQueue), |queues|) && eq < |queues|
      ensures View() == old(View())
    {
      TurnIs(currentEventQueue, |queues|);
      currentEventQueue := (currentEventQueue + 1) % |queues|;
      eq := currentEventQueue;
    }

    /** ActiveRpcs::Add.  `next` is a new address, so that "RPC already active." cannot happen. */
    method Add(rpc: Rpc)
      requires Valid() && rpc.eventQueue < |queues| && rpc.address == next
      modifies this`active, this`rpcs, this`next
      ensures Valid() && old(next) !in old(rpcs) && rpcs == old(rpcs)[old(next) := rpc] && next == old(next) + 1
      ensures active == old(active)[old(next) := rpc.View()]
    {
      rpcs := rpcs[next := rpc];
      active := active[next := rpc.View()];
      next := next + 1;
    }

    /** The accept is handed to gRPC. */
    method Request(id: nat)
      requires Valid() && id in rpcs && rpcs[id].pending == {}
      modifies this`active, this`transport, rpcs[id]
      ensures Valid() && transport == old(transport)[id := {Spec.NewConnection}]
      ensures active == old(active)[id := old(rpcs[id].View()).(pending := {Spec.NewConnection, Spec.Done})]
    {
      var started := rpcs[id].RequestNextMethodInvocation();
      transport := transport[id := started];
      assert {} + {Spec.NewConnection, Spec.Done} == {Spec.NewConnection, Spec.Done};
      active := active[id := rpcs[id].View()];
      StillValid(id);
    }

    method AddAndRequest(rpc: Rpc)
      requires Valid() && rpc.eventQueue < |queues| && rpc.pending == {} && rpc.address == next
      modifies this`active, this`rpcs, this`next, this`transport, rpc
      ensures Valid() && rpcs == old(rpcs)[old(next) := rpc] && next == old(next) + 1
      ensures active == old(active)[old(next) := old(rpc.View()).(pending := {Spec.NewConnection, Spec.Done})]
      ensures transport == old(transport)[old(next) := {Spec.NewConnection}]
    {
      var id := next;
      UpdateTwice(active, id, rpc.View(), rpc.View().(pending := {Spec.NewConnection, Spec.Done}));
      Add(rpc);
      Request(id);
    }

    method StopServing()
      requires Valid()
      modifies this`shuttingDown
      ensures Valid() && View() == old(View()).(shutting := true)
    {
      shuttingDown := true;
    }

    // ---------- StartServing ----------

    method StartServing()
      requires Valid() && |queues| > 0 && View() == Empty(|queues|)
      modifies this
      ensures Valid() && NowServing(View(), kinds, completionQueues)
      ensures |queues| > 0
      ensures forall id :: id in active ==> active[id].eq == RoundRobin(old(currentEventQueue), id, |queues|)
    {
      ghost var first := currentEventQueue;
      var i := 0;
      while i < |kinds|
        invariant 0 <= i <= |kinds| && Valid() && |queues| > 0
        invariant ServingUpTo(View(), kinds, completionQueues, i * completionQueues, first)
        invariant currentEventQueue == (first + i * completionQueues) % |queues|
        invariant forall id :: id in rpcs ==> fresh(rpcs[id])
      {
        StartMethod(i, i * completionQueues, first);
        NextRow(i, completionQueues);
        i := i + 1;
      }
    }

    /** The inner loop: one Rpc of method i per completion queue; n are there already. */
    method StartMethod(i: nat, ghost n: nat, ghost first: nat)
      requires Valid() && |queues| > 0 && i < |kinds| && n == i * completionQueues
      requires ServingUpTo(View(), kinds, completionQueues, n, first) && currentEventQueue == (first + n) % |queues|
      modifies this`active, this`currentEventQueue, this`rpcs, this`next, this`transport
      ensures Valid() && ServingUpTo(View(), kinds, completionQueues, n + completionQueues, first)
      ensures currentEventQueue == (first + (n + completionQueues)) % |queues|
      ensures forall id :: id in rpcs ==> (id in old(rpcs) && rpcs[id] == old(rpcs[id])) || fresh(rpcs[id])
    {
      var j := 0;
      while j < completionQueues
        invariant 0 <= j <= completionQueues && Valid() && |queues| > 0
        invariant ServingUpTo(View(), kinds, completionQueues, n + j, first)
        invariant currentEventQueue == (first + (n + j)) % |queues|
        invariant forall id :: id in rpcs ==> (id in old(rpcs) && rpcs[id] == old(rpcs[id])) || fresh(rpcs[id])
      {
        QuotientIs(i, j, completionQueues, n + j);
        StartOne(i, j, n + j, first);
        j := j + 1;
      }
    }

    method StartOne(i: nat, j: nat, ghost n: nat, ghost first: nat)
      requires Valid() && |queues| > 0 && i < |kinds|
      requires completionQueues > 0 && n / completionQueues == i && n % completionQueues == j
      requires ServingUpTo(View(), kinds, completionQueues, n, first) && currentEventQueue == (first + n) % |queues|
      modifies this`active, this`currentEventQueue, this`rpcs, this`next, this`transport
      ensures Valid() && ServingUpTo(View(), kinds, completionQueues, n + 1, first)
      ensures currentEventQueue == (first + (n + 1)) % |queues|
      ensures forall id :: id in rpcs ==> (id in old(rpcs) && rpcs[id] == old(rpcs[id])) || fresh(rpcs[id])
    {
      ghost var s := View();
      var rpc := AddNew(kinds[i], i, j);
      RoundRobinStep(first, n, |queues|);
      OneMore(s, View(), kinds, completionQueues, n, first);
    }

    method AddNew(kind: Spec.RpcType, i: nat, j: nat) returns (rpc: Rpc)
      requires Valid() && |queues| > 0
      modifies this`active, this`currentEventQueue, this`rpcs, this`next, this`transport
      ensures Valid() && fresh(rpc) && rpcs == old(rpcs)[old(next) := rpc] && next == old(next) + 1
      ensures currentEventQueue == Turn(old(currentEventQueue), |queues|)
      ensures active == old(active)[old(next) := Spec.NewRpc(kind, i, j, currentEventQueue)]
      ensures transport == old(transport)[old(next) := {Spec.NewConnection}]
    {
      var eq := SelectNextEventQueueRoundRobin();
      rpc := new Rpc(next, kind, i, j, eq);
      AddAndRequest(rpc);
    }

    // ---------- steps of other threads ----------

    /** The body of RunCompletionQueue's loop. */
    method ReturnTag(id: nat, tag: Tag, ok: bool)
      requires Valid() && id in rpcs && tag in TagsOf(View(), id)
      modifies this`queues, this`transport
      ensures Valid() && View() == RpcService.ReturnTag(old(View()), id, tag, ok)
    {
      var eq := rpcs[id].eventQueue;
      queues := queues[eq := queues[eq] + [(id, Spec.Completed(tag, ok))]];
      transport := transport[id := transport[id] - {tag} + if tag == Spec.NewConnection && ok then {Spec.Done} else {}];
    }

    method QueueItem(id: nat, item: Item)
      requires Valid() && id in rpcs
      modifies this`active, rpcs[id]
      ensures Valid() && active == old(active)[id := Spec.Enqueue(old(active)[id], [item])]
    {
      rpcs[id].EnqueueMessage(item);
      active := active[id := rpcs[id].View()];
      StillValid(id);
    }

    ghost function Entered(id: nat): nat
      reads this`entered
    {
      if id in entered then entered[id] else 0
    }

    ghost function Midway(id: nat): nat
      reads this`midway
    {
      if id in midway then midway[id] else 0
    }

    ghost method MoveOn(id: nat)
      requires Valid() && Entered(id) > 0
      modifies this`entered, this`midway
      ensures Valid() && entered == old(entered)[id := old(Entered(id)) - 1]
      ensures midway == old(midway)[id := old(Midway(id)) + 1]
    {
      entered, midway := entered[id := Entered(id) - 1], midway[id := Midway(id) + 1];
    }

    /** Write and Finish in two steps, as another thread takes them once it has locked the pointer. */
    method EnqueueMessage(id: nat, item: Item)
      requires Valid() && id in rpcs && Entered(id) > 0
      modifies this`active, this`entered, this`midway, rpcs[id]
      ensures Valid() && View() == EnqueueItem(old(View()), id, item)
    {
      EnqueueMoved(id, item);
    }

    method EnqueueMoved(id: nat, item: Item)
      requires Valid() && id in rpcs && Entered(id) > 0
      modifies this`active, this`entered, this`midway, rpcs[id]
      ensures Valid() && active == old(active)[id := Spec.Enqueue(old(active)[id], [item])]
      ensures entered == old(entered)[id := old(Entered(id)) - 1] && midway == old(midway)[id := old(Midway(id)) + 1]
    {
      MoveOn(id);
      QueueItem(id, item);
    }

    method PushWriteNeeded(id: nat)
      requires Valid() && id in rpcs && MidwayOf(View(), id) > 0
      modifies this`queues, this`midway
      ensures Valid() && View() == PushNeeded(old(View()), id)
    {
      var eq := rpcs[id].eventQueue;
      queues := queues[eq := queues[eq] + [(id, Spec.WriteNeeded)]];
      midway := midway[id := midway[id] - 1];
    }

    // ---------- what an event handler does to one Rpc ----------

    ghost function Tags(id: nat): set<Tag>
      reads this`transport
    {
      if id in transport then transport[id] else {}
    }

    /** Handler code runs and makes these calls of Write and Finish. */
    method RunHandler(id: nat, calls: seq<Item>)
      requires Valid() && id in rpcs
      modifies this`active, this`queues, rpcs[id]
      ensures Valid() && active == old(active)[id := Spec.Enqueue(old(active)[id], calls)]
      ensures queues == Pushed(old(queues), old(rpcs[id].eventQueue), id, |calls|)
    {
      var rpc, eq := rpcs[id], rpcs[id].eventQueue;
      ghost var r := rpc.View();
      NothingCalled(r, queues, eq, id);
      var i := 0;
      while i < |calls|
        invariant 0 <= i <= |calls| && |queues| == old(|queues|) && active == old(active)
        invariant rpc.View() == Spec.Enqueue(r, calls[..i])
        invariant queues == Pushed(old(queues), eq, id, i)
      {
        rpc.EnqueueMessage(calls[i]);
        queues := queues[eq := queues[eq] + [(id, Spec.WriteNeeded)]];
        OneMoreCall(r, calls, i, old(queues), eq, id);
        i := i + 1;
      }
      assert calls[..|calls|] == calls;
      active := active[id := rpcs[id].View()];
      StillValid(id);
    }

    method ReadMore(id: nat)
      requires Valid() && id in rpcs
      modifies this`active, this`transport, rpcs[id]
      ensures Valid() && active == old(active)[id := Spec.StartRead(old(active)[id])]
      ensures transport == old(transport)[id := old(Tags(id)) + {Spec.Read}]
    {
      var started := rpcs[id].RequestStreamingRead();
      transport := transport[id := Tags(id) + started];
      active := active[id := rpcs[id].View()];
      StillValid(id);
    }

    method SendNext(id: nat)
      requires Valid() && id in rpcs
      modifies this`active, this`transport, rpcs[id]
      ensures Valid() && active == old(active)[id := Spec.HandleSendQueue(old(active)[id])]
      ensures transport == old(transport)[id := old(Tags(id)) + (active[id].pending - old(active)[id].pending)]
    {
      var started := rpcs[id].HandleSendQueue();
      transport := transport[id := Tags(id) + started];
      active := active[id := rpcs[id].View()];
      StillValid(id);
    }

    method ClearPending(id: nat, tag: Tag)
      requires Valid() && id in rpcs
      modifies this`active, rpcs[id]
      ensures Valid() && active == old(active)[id := Spec.Clear(old(active)[id], tag)]
    {
      rpcs[id].ClearPending(tag);
      active := active[id := rpcs[id].View()];
      StillValid(id);
    }

    /** ActiveRpcs::Remove. */
    method Remove(id: nat) returns (found: bool)
      requires Valid()
      modifies this`active, this`rpcs
      ensures Valid() && found == (id in old(rpcs))
      ensures rpcs == old(rpcs) - {id} && active == old(active) - {id}
    {
      found := id in rpcs;
      rpcs := rpcs - {id};
      active := active - {id};
    }

    method RemoveIfNotPending(id: nat)
      requires Valid() && id in rpcs
      modifies this`active, this`rpcs
      ensures Valid()
      ensures active == if Spec.AnyEventPending(old(active)[id]) then old(active) else old(active) - {id}
    {
      var busy := rpcs[id].IsAnyEventPending();
      if !busy { var _ := Remove(id); }
    }

    // ---------- the handlers; the event's own pending flag is already cleared ----------

    /** One Rpc was dealt with: its new fields, or its end; its wake-ups; the tags it gave to gRPC. */
    twostate predicate Settled(id: nat, after: Spec.RpcState, started: set<Tag>, calls: nat, removed: bool)
      reads this
    {
      && id in old(rpcs) && old(rpcs[id].eventQueue < |queues|)
      && active == (if removed then old(active) - {id} else old(active)[id := after])
      && queues == Pushed(old(queues), old(rpcs[id].eventQueue), id, calls)
      && transport == old(transport)[id := old(Tags(id)) + started]
    }

    /** The handler runs and nothing else happens. */
    method RunOnly(id: nat, calls: seq<Item>)
      requires Valid() && id in rpcs
      modifies this`active, this`queues, this`transport, rpcs[id]
      ensures Valid() && Settled(id, Spec.Enqueue(old(active)[id], calls), {}, |calls|, false)
    {
      RunHandler(id, calls);
      transport := transport[id := Tags(id) + {}];
    }

    /** OnReadsDone and OnFinish: the handler runs, then the Rpc may have come to its end. */
    method RunLastHandler(id: nat, calls: seq<Item>)
      requires Valid() && id in rpcs
      modifies this`active, this`queues, this`transport, this`rpcs, rpcs[id]
      ensures Valid()
      ensures var after := Spec.Enqueue(old(active)[id], calls);
              Settled(id, after, {}, |calls|, !Spec.AnyEventPending(after))
    {
      UpdateRemove(active, id, Spec.Enqueue(active[id], calls));
      RunOnly(id, calls);
      RemoveIfNotPending(id);
    }

    /** OnRequest of a stream: the handler runs, then the next read is requested. */
    method RunAndRead(id: nat, calls: seq<Item>)
      requires Valid() && id in rpcs
      modifies this`active, this`queues, this`transport, rpcs[id]
      ensures Valid()
      ensures Settled(id, Spec.StartRead(Spec.Enqueue(old(active)[id], calls)), {Spec.Read}, |calls|, false)
    {
      ghost var after := Spec.Enqueue(active[id], calls);
      UpdateTwice(active, id, after, Spec.StartRead(after));
      RunHandler(id, calls);
      ReadMore(id);
    }

    method HandleRead(id: nat, ok: bool, calls: seq<Item>)
      requires Valid() && id in rpcs
      modifies this`active, this`queues, this`transport, this`rpcs, rpcs[id]
      ensures Valid()
      ensures var after := Spec.Enqueue(old(active)[id], calls);
              if ok && Spec.StreamsRequests(old(active)[id].kind)
              then Settled(id, Spec.StartRead(after), {Spec.Read}, |calls|, false)
              else Settled(id, after, {}, |calls|, !ok && !Spec.AnyEventPending(after))
    {
      if !ok {
        RunLastHandler(id, calls);
      } else if rpcs[id].kind == Spec.BidiStreaming || rpcs[id].kind == Spec.ClientStreaming {
        RunAndRead(id, calls);
      } else {
        RunOnly(id, calls);
      }
    }

    method HandleWrite(id: nat)
      requires Valid() && id in rpcs
      modifies this`active, this`transport, this`rpcs, rpcs[id]
      ensures Valid()
      ensures var r, after := old(active)[id], Spec.HandleSendQueue(old(active)[id]);
              Settled(id, after, after.pending - r.pending, 0, !Spec.AnyEventPending(after))
    {
      NothingCalled(rpcs[id].View(), queues, rpcs[id].eventQueue, id);
      SendNext(id);
      RemoveIfNotPending(id);
      UpdateRemove(old(active), id, Spec.HandleSendQueue(old(active)[id]));
    }

    method HandleFinish(id: nat, calls: seq<Item>)
      requires Valid() && id in rpcs
      modifies this`active, this`queues, this`transport, this`rpcs, rpcs[id]
      ensures Valid()
      ensures var after := Spec.Enqueue(old(active)[id], calls);
              Settled(id, after, {}, |calls|, !Spec.AnyEventPending(after))
    {
      RunLastHandler(id, calls);
    }

    method HandleDone(id: nat)
      requires Valid() && id in rpcs
      modifies this`active, this`transport, this`rpcs
      ensures Valid()
      ensures Settled(id, old(active)[id], {}, 0, !Spec.AnyEventPending(old(active)[id]))
    {
      NothingCalled(rpcs[id].View(), queues, rpcs[id].eventQueue, id);
      transport := transport[id := Tags(id) + {}];
      RemoveIfNotPending(id);
    }

    /** Every completion but the accept. */
    method HandleCompleted(id: nat, tag: Tag, ok: bool, calls: seq<Item>)
      requires Valid() && id in rpcs && tag != Spec.NewConnection && tag !in rpcs[id].pending
      requires calls != [] ==> tag == Spec.Read || tag == Spec.Finish
      modifies this`active, this`queues, this`transport, this`rpcs, rpcs[id]
      ensures Valid()
      ensures var r, after := old(active)[id], AfterCleared(old(active)[id], tag, ok, calls);
              Settled(id, after, after.pending - r.pending, |calls|, Spec.LetsGo(after, Spec.Completed(tag, ok)))
    {
      match tag {
        case Read =>
          HandleRead(id, ok, calls);
          FreshRead(old(active)[id], calls);
        case Write => HandleWrite(id);
        case Finish =>
          HandleFinish(id, calls);
          assert old(active)[id].pending - old(active)[id].pending == {};
        case Done =>
          HandleDone(id);
          assert old(active)[id].pending - old(active)[id].pending == {};
      }
    }

    method OnConnection(id: nat, calls: seq<Item>)
      requires Valid() && id in rpcs && Spec.Read !in rpcs[id].pending
      requires calls != [] ==> !Spec.StreamsRequests(rpcs[id].kind)
      modifies this`active, this`queues, this`transport, rpcs[id]
      ensures Valid()
      ensures var r, after := old(active)[id], AfterCleared(old(active)[id], Spec.NewConnection, true, calls);
              Settled(id, after, after.pending - r.pending, |calls|, false)
    {
      ghost var r := rpcs[id].View();
      if rpcs[id].kind == Spec.BidiStreaming || rpcs[id].kind == Spec.ClientStreaming {
        NothingCalled(r, queues, rpcs[id].eventQueue, id);
        ReadMore(id);
        FreshRead(r, []);
      } else {
        RunOnly(id, calls);
        assert r.pending - r.pending == {};
      }
    }

    /** The clone that takes the accept slot over. */
    method AddClone(id: nat)
      requires Valid() && id in rpcs
      modifies this`active, this`currentEventQueue, this`rpcs, this`next, this`transport
      ensures Valid() && currentEventQueue == Turn(old(currentEventQueue), |queues|) && next == old(next) + 1
      ensures View() == CloneOf(old(View()), id, currentEventQueue)
    {
      var clone := rpcs[id].Clone(next);
      var eq := SelectNextEventQueueRoundRobin();
      clone.SetEventQueue(eq);
      assert clone.View().(pending := {Spec.NewConnection, Spec.Done}) == Spec.Clone(old(active)[id], eq);
      AddAndRequest(clone);
    }

    /** A failed accept while serving clones an object that Remove has just destroyed. */
    method HandleNewConnection(id: nat, ok: bool, calls: seq<Item>)
      requires Valid() && id in rpcs && Spec.Read !in rpcs[id].pending
      requires calls != [] ==> ok && !Spec.StreamsRequests(rpcs[id].kind)
      modifies this, rpcs[id]
      ensures Valid() && |queues| == old(|queues|)
      ensures View() == AfterAccept(old(View()), id, ok, calls, currentEventQueue)
      ensures currentEventQueue == TurnIf(next != old(next), old(currentEventQueue), |queues|)
    {
      if shuttingDown {
        var _ := Remove(id);
        return;
      }
      if !ok {
        var _ := Remove(id);
        crashed := true;
        return;
      }
      Accept(id, calls);
    }

    method ConnectRpc(id: nat, calls: seq<Item>)
      requires Valid() && id in rpcs && Spec.Read !in rpcs[id].pending
      requires calls != [] ==> !Spec.StreamsRequests(rpcs[id].kind)
      modifies this`active, this`queues, this`transport, rpcs[id]
      ensures Valid() && |queues| == old(|queues|) && View() == Accepted(old(View()), id, calls)
    {
      ghost var s, r := View(), rpcs[id].View();
      ghost var after := AfterCleared(r, Spec.NewConnection, true, calls);
      OnConnection(id, calls);
      SettleIs(s, View(), id, after, after.pending - r.pending, |calls|, false);
    }

    method Accept(id: nat, calls: seq<Item>)
      requires Valid() && id in rpcs && Spec.Read !in rpcs[id].pending
      requires calls != [] ==> !Spec.StreamsRequests(rpcs[id].kind)
      modifies this`active, this`queues, this`transport, this`currentEventQueue, this`rpcs, this`next, rpcs[id]
      ensures Valid() && View() == Connect(old(View()), id, calls, currentEventQueue)
      ensures next == old(next) + 1 && |queues| == old(|queues|)
      ensures currentEventQueue == Turn(old(currentEventQueue), |queues|)
    {
      ConnectRpc(id, calls);
      AddClone(id);
    }

    /** CompletionQueueRpcEvent::Handle for an accept. */
    method HandleAcceptEvent(id: nat, ok: bool, calls: seq<Item>)
      requires Valid() && id in rpcs && Spec.Read !in rpcs[id].pending
      requires calls != [] ==> ok && !Spec.StreamsRequests(rpcs[id].kind)
      modifies this, rpcs[id]
      ensures Valid() && |queues| == old(|queues|)
      ensures View() == AfterAccept(Cleared(old(View()), id, Spec.NewConnection), id, ok, calls, currentEventQueue)
      ensures currentEventQueue == TurnIf(next != old(next), old(currentEventQueue), |queues|)
    {
      ClearPending(id, Spec.NewConnection);
      HandleNewConnection(id, ok, calls);
    }

    /** CompletionQueueRpcEvent::Handle for the other tags. */
    method HandleCompletedEvent(id: nat, tag: Tag, ok: bool, calls: seq<Item>)
      requires Valid() && id in rpcs && tag != Spec.NewConnection
      requires calls != [] ==> tag == Spec.Read || tag == Spec.Finish
      modifies this`active, this`queues, this`transport, this`rpcs, rpcs[id]
      ensures Valid() && View() == AfterCompletion(Cleared(old(View()), id, tag), id, tag, ok, calls)
    {
      ClearPending(id, tag);
      SettleCompleted(id, tag, ok, calls);
    }

    method SettleCompleted(id: nat, tag: Tag, ok: bool, calls: seq<Item>)
      requires Valid() && id in rpcs && tag != Spec.NewConnection && tag !in rpcs[id].pending
      requires calls != [] ==> tag == Spec.Read || tag == Spec.Finish
      modifies this`active, this`queues, this`transport, this`rpcs, rpcs[id]
      ensures Valid() && View() == AfterCompletion(old(View()), id, tag, ok, calls)
    {
      ghost var s, r := View(), rpcs[id].View();
      ghost var after := AfterCleared(r, tag, ok, calls);
      HandleCompleted(id, tag, ok, calls);
      SettleIs(s, View(), id, after, after.pending - r.pending, |calls|, Spec.LetsGo(after, Spec.Completed(tag, ok)));
    }

    /** InternalRpcEvent::Handle for an Rpc that is still there. */
    method HandleWriteNeeded(id: nat)
      requires Valid() && id in rpcs
      modifies this`active, this`transport, this`rpcs, rpcs[id]
      ensures Valid() && View() == AfterWakeup(old(View()), id)
    {
      ghost var s, r := View(), rpcs[id].View();
      ghost var after := Spec.HandleSendQueue(r);
      HandleWrite(id);
      SettleIs(s, View(), id, after, after.pending - r.pending, 0, !Spec.AnyEventPending(after));
    }

    /** CompletionQueueRpcEvent::Handle. */
    method HandleCompletionQueueEvent(id: nat, tag: Tag, ok: bool, calls: seq<Item>)
      requires Valid() && id in rpcs && (calls != [] ==> Spec.RunsHandler(rpcs[id].kind, Spec.Completed(tag, ok)))
      requires tag == Spec.NewConnection ==> Spec.Read !in rpcs[id].pending
      modifies this, rpcs[id]
      ensures Valid() && View() == ClearedAndHandled(old(View()), id, tag, ok, calls, currentEventQueue)
      ensures currentEventQueue == TurnIf(next != old(next), old(currentEventQueue), |queues|)
    {
      if tag == Spec.NewConnection {
        HandleAcceptEvent(id, ok, calls);
      } else {
        HandleCompletedEvent(id, tag, ok, calls);
      }
    }

    method HandleEvent(id: nat, e: Event, calls: seq<Item>)
      requires Valid() && id in rpcs && (calls != [] ==> Spec.RunsHandler(rpcs[id].kind, e))
      requires Spec.IsAccept(e) ==> Spec.Read !in rpcs[id].pending
      modifies this, rpcs[id]
      ensures Valid() && View() == RpcEvents.HandleEvent(old(View()), id, e, calls, currentEventQueue)
      ensures currentEventQueue == TurnIf(next != old(next), old(currentEventQueue), |queues|)
    {
      ghost var s := View();
      match e {
        case Completed(tag, ok) =>
          HandleCompletionQueueEvent(id, tag, ok, calls);
        case WriteNeeded => HandleWriteNeeded(id);
      }
      EventCleared(s, id, e, calls, currentEventQueue);
    }

    /** PopWithTimeout on a queue that is not empty. */
    method PopHead(k: nat) returns (id: nat, e: Event)
      requires Valid() && k < |queues| && queues[k] != []
      modifies this`queues
      ensures Valid() && (id, e) == old(queues[k][0]) && View() == Pop(old(View()), k)
    {
      id, e := queues[k][0].0, queues[k][0].1;
      queues := queues[k := queues[k][1..]];
    }

    /** The body of RunEventQueue's loops; a stale wake-up is dropped.  HeadFacts gives the last precondition in
        every state the server can reach, and Uninterrupted that this is a run of the server. */
    method HandleHead(k: nat, calls: seq<Item>)
      requires Valid() && k < |queues| && queues[k] != []
      requires var (id, e) := queues[k][0];
               id in rpcs ==>
                 && (calls != [] ==> Spec.RunsHandler(rpcs[id].kind, e))
                 && (Spec.IsAccept(e) ==> Spec.Read !in rpcs[id].pending)
      modifies this, rpcs.Values
      ensures Valid() && View() == AfterHead(old(View()), k, calls, currentEventQueue)
      ensures currentEventQueue == TurnIf(next != old(next), old(currentEventQueue), |queues|)
    {
      var id, e := PopHead(k);
      if id in rpcs {
        HandleEvent(id, e, calls);
      }
    }
  }
}
