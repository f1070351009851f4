/** One event handled from beginning to end without interruption, as the methods of src/async_grpc/service.cc are
    written: popping, clearing the flag, the handler's calls, and what follows.  This is a run of the server. */
module RpcEvents {
  import opened Rpc
  import opened RpcSend
  import opened RpcService
  import opened RpcServiceProof
  import opened RpcTheorems

  /** The Rpc after a completion was handled, its flag cleared already (and by a server that is not shutting
      down, if that matters). */
  function AfterCleared(r: RpcState, tag: Tag, ok: bool, calls: seq<Item>): RpcState {
    match tag
    case NewConnection => if StreamsRequests(r.kind) then StartRead(r) else Enqueue(r, calls)
    case Read => if ok && StreamsRequests(r.kind) then StartRead(Enqueue(r, calls)) else Enqueue(r, calls)
    case Write => HandleSendQueue(r)
    case Finish => Enqueue(r, calls)
    case Done => r
  }

  function AfterEvent(r: RpcState, e: Event, calls: seq<Item>): RpcState {
    match e
    case WriteNeeded => HandleSendQueue(r)
    case Completed(tag, ok) => AfterCleared(Clear(r, tag), tag, ok, calls)
  }

  /** The tags handed to gRPC while the event was handled. */
  function StartedBy(r: RpcState, e: Event, after: RpcState): set<Tag> { after.pending - Remaining(r, e) }

  function WakeupsOf(id: nat, n: nat): seq<Queued> { seq(n, _ => (id, WriteNeeded)) }

  /** Queue eq after n wake-ups of Rpc id. */
  function Pushed(queues: seq<seq<Queued>>, eq: nat, id: nat, n: nat): seq<seq<Queued>>
    requires eq < |queues|
  {
    queues[eq := queues[eq] + WakeupsOf(id, n)]
  }

  /** What handling an event leaves behind: the Rpc's new fields, or its end; the tags it gave to gRPC; and one
      wake-up per call of Write or Finish. */
  function Settle(s: System, id: nat, after: RpcState, started: set<Tag>, calls: nat, removed: bool): System
    requires id in s.rpcs && s.rpcs[id].eq < |s.queues|
  {
    s.(queues := Pushed(s.queues, s.rpcs[id].eq, id, calls),
       transport := s.transport[id := TagsOf(s, id) + started],
       rpcs := if removed then s.rpcs - {id} else s.rpcs[id := after])
  }

  lemma SettleIs(s: System, t: System, id: nat, after: RpcState, started: set<Tag>, calls: nat, removed: bool)
    requires id in s.rpcs && s.rpcs[id].eq < |s.queues|
    requires t.rpcs == (if removed then s.rpcs - {id} else s.rpcs[id := after])
    requires t.queues == Pushed(s.queues, s.rpcs[id].eq, id, calls)
    requires t.transport == s.transport[id := TagsOf(s, id) + started]
    requires t.current == s.current && t.entered == s.entered && t.midway == s.midway
    requires t.next == s.next && t.shutting == s.shutting && t.crashed == s.crashed
    ensures t == Settle(s, id, after, started, calls, removed)
  {
  }

  /** Event e of the active Rpc id, already popped. */
  function HandleEvent(s: System, id: nat, e: Event, calls: seq<Item>, eq: nat): System
    requires id in s.rpcs && s.rpcs[id].eq < |s.queues|
  {
    var r := s.rpcs[id];
    var after := AfterEvent(r, e, calls);
    if IsAccept(e) && s.shutting then s.(rpcs := s.rpcs - {id})
    else if IsAccept(e) && !e.ok then s.(rpcs := s.rpcs - {id}, crashed := true)
    else
      var t := Settle(s, id, after, StartedBy(r, e, after), |calls|, LetsGo(after, e));
      if IsAccept(e) then AddClone(t, r, eq) else t
  }

  /** The head of queue k popped and handled, or dropped. */
  function AfterHead(s: System, k: nat, calls: seq<Item>, eq: nat): System
    requires InRange(s) && k < |s.queues| && s.queues[k] != []
  {
    var (id, e) := s.queues[k][0];
    if id in s.rpcs then HandleEvent(Pop(s, k), id, e, calls, eq) else Pop(s, k)
  }

  // ---------- the same in steps of the server ----------

  /** Each call is an enqueue and a push. */
  function CallSteps(k: nat, calls: seq<Item>): seq<SysStep> {
    if calls == [] then []
    else [SysStep.HandlerEnqueues(k, calls[0]), SysStep.HandlerPushes(k)] + CallSteps(k, calls[1..])
  }

  function HeadSteps(s: System, k: nat, calls: seq<Item>, eq: nat): seq<SysStep>
    requires k < |s.queues| && s.queues[k] != []
  {
    var (id, e) := s.queues[k][0];
    if id !in s.rpcs || (IsAccept(e) && s.shutting) then [Begins(k)]
    else [Begins(k)] + CallSteps(k, calls) + [Ends(k, eq)]
  }

  /** The handler has made these calls. */
  function Called(s: System, k: nat, calls: seq<Item>): System
    requires Busies(s, k) && s.current[k].id in s.rpcs && s.rpcs[s.current[k].id].eq < |s.queues|
  {
    var w := s.current[k];
    s.(rpcs := s.rpcs[w.id := Enqueue(s.rpcs[w.id], calls)],
       queues := Pushed(s.queues, s.rpcs[w.id].eq, w.id, |calls|),
       current := s.current[k := Working(w.id, w.e, w.made + calls, false)])
  }

  /** The handler of queue k may run. */
  predicate AtHandler(s: System, k: nat, id: nat) {
    AtWork(s, k, id) && !s.current[k].due && RunsHandler(s.rpcs[id].kind, s.current[k].e)
  }

  lemma EnqueueMore(r: RpcState, x: Item, more: seq<Item>)
    ensures Enqueue(Enqueue(r, [x]), more) == Enqueue(r, [x] + more)
  {
    assert r.sendQueue + [x] + more == r.sendQueue + ([x] + more);
    assert r.enqueued + [x] + more == r.enqueued + ([x] + more);
  }

  lemma PushMore(queues: seq<seq<Queued>>, eq: nat, id: nat, n: nat)
    requires eq < |queues|
    ensures Pushed(queues[eq := queues[eq] + [(id, WriteNeeded)]], eq, id, n) == Pushed(queues, eq, id, n + 1)
  {
    assert [(id, WriteNeeded)] + WakeupsOf(id, n) == WakeupsOf(id, n + 1);
    assert queues[eq] + [(id, WriteNeeded)] + WakeupsOf(id, n) == queues[eq] + WakeupsOf(id, n + 1);
  }

  /** One call made. */
  function CalledOnce(s: System, k: nat, item: Item): System
    requires Busies(s, k) && AtWork(s, k, s.current[k].id)
  {
    HandlerPush(HandlerEnqueue(s, k, item), k)
  }

  lemma CalledOnceIs(s: System, k: nat, id: nat, item: Item)
    requires AtHandler(s, k, id)
    ensures var t, w := CalledOnce(s, k, item), s.current[k];
            && AtHandler(t, k, id) && t.current == s.current[k := Working(id, w.e, w.made + [item], false)]
            && t.rpcs == s.rpcs[id := Enqueue(s.rpcs[id], [item])]
            && t.queues == s.queues[k := s.queues[k] + [(id, WriteNeeded)]]
            && t == s.(rpcs := t.rpcs, queues := t.queues, current := t.current)
  {
  }

  lemma CalledMore(s: System, k: nat, id: nat, calls: seq<Item>)
    requires AtHandler(s, k, id) && calls != []
    requires AtHandler(CalledOnce(s, k, calls[0]), k, id)
    ensures Called(CalledOnce(s, k, calls[0]), k, calls[1..]) == Called(s, k, calls)
  {
    CalledOnceIs(s, k, id, calls[0]);
    var x, more, w := calls[0], calls[1..], s.current[k];
    assert calls == [x] + more && w.made + [x] + more == w.made + ([x] + more);
    EnqueueMore(s.rpcs[id], x, more);
    PushMore(s.queues, k, id, |more|);
  }

  lemma CalledNothing(s: System, k: nat, id: nat)
    requires AtWork(s, k, id) && !s.current[k].due
    ensures Called(s, k, []) == s
  {
    var r, w := s.rpcs[id], s.current[k];
    assert r.sendQueue + [] == r.sendQueue && r.enqueued + [] == r.enqueued && w.made + [] == w.made;
    assert s.queues[k] + WakeupsOf(id, 0) == s.queues[k];
  }

  lemma CallRun(s: System, k: nat, id: nat, item: Item)
    requires AtHandler(s, k, id)
    ensures ServerRun(s, [SysStep.HandlerEnqueues(k, item), SysStep.HandlerPushes(k)], CalledOnce(s, k, item))
  {
    var a, b := SysStep.HandlerEnqueues(k, item), SysStep.HandlerPushes(k);
    HandlerTouches(s, k, id, item);
    var t := Next(s, a);
    assert [a, b][1..] == [b] && [b][1..] == [];
    assert ServerRun(CalledOnce(s, k, item), [], CalledOnce(s, k, item));
    assert ServerRun(t, [b], CalledOnce(s, k, item));
  }

  lemma {:induction false} CallsRun(s: System, k: nat, id: nat, calls: seq<Item>)
    requires AtWork(s, k, id) && !s.current[k].due && (calls != [] ==> AtHandler(s, k, id))
    ensures ServerRun(s, CallSteps(k, calls), Called(s, k, calls))
    decreases |calls|
  {
    if calls == [] {
      CalledNothing(s, k, id);
    } else {
      var t := CalledOnce(s, k, calls[0]);
      CalledOnceIs(s, k, id, calls[0]);
      CallRun(s, k, id, calls[0]);
      CallsRun(t, k, id, calls[1..]);
      CalledMore(s, k, id, calls);
      RunConcat(s, [SysStep.HandlerEnqueues(k, calls[0]), SysStep.HandlerPushes(k)], t,
                CallSteps(k, calls[1..]), Called(s, k, calls));
    }
  }

  /** On one Rpc: beginning, the calls and the end make up what AfterEvent says. */
  lemma EventInSteps(r: RpcState, e: Event, calls: seq<Item>)
    requires calls != [] ==> RunsHandler(r.kind, e)
    ensures var called := Enqueue(Begun(r, e), calls);
            && AfterEvent(r, e, calls) == Ended(called, e)
            && LetsGo(called, e) == LetsGo(AfterEvent(r, e, calls), e)
            && StartedAtBegin(r, e) + StartedAtEnd(called, e) == StartedBy(r, e, AfterEvent(r, e, calls))
  {
    BegunPending(r, e);
    var b := Begun(r, e);
    assert b.sendQueue + [] == b.sendQueue && b.enqueued + [] == b.enqueued;
  }

  /** The fields of the server after the beginning. */
  lemma BeginIs(s: System, k: nat, id: nat, e: Event)
    requires AtHead(s, k, id, e) && !(IsAccept(e) && s.shutting)
    ensures var t := Next(s, Begins(k));
            && AtWork(t, k, id) && t.current == s.current[k := Working(id, e, [], false)]
            && t == Pop(s, k).(rpcs := s.rpcs[id := Begun(s.rpcs[id], e)],
                               transport := s.transport[id := TagsOf(s, id) + StartedAtBegin(s.rpcs[id], e)],
                               current := t.current)
  {
    BegunPending(s.rpcs[id], e);
  }

  /** And after the calls: only the Rpc's own fields, its queue, its tags and its thread have changed. */
  predicate MadeCalls(base: System, u: System, k: nat, id: nat, e: Event, calls: seq<Item>) {
    && id in base.rpcs && base.rpcs[id].eq == k < |base.queues| && k < |base.current|
    && u == base.(rpcs := base.rpcs[id := Enqueue(Begun(base.rpcs[id], e), calls)],
                  queues := Pushed(base.queues, k, id, |calls|),
                  transport := base.transport[id := TagsOf(base, id) + StartedAtBegin(base.rpcs[id], e)],
                  current := base.current[k := Working(id, e, calls, false)])
  }

  lemma CallsMade(s: System, k: nat, id: nat, e: Event, calls: seq<Item>)
    requires AtHead(s, k, id, e) && !(IsAccept(e) && s.shutting) && AtWork(Next(s, Begins(k)), k, id)
    ensures MadeCalls(Pop(s, k), Called(Next(s, Begins(k)), k, calls), k, id, e, calls)
  {
    BeginIs(s, k, id, e);
    BegunPending(s.rpcs[id], e);
    assert [] + calls == calls;
  }

  lemma FinishedParts(base: System, u: System, k: nat, id: nat, e: Event, calls: seq<Item>)
    requires MadeCalls(base, u, k, id, e, calls) && base.current[k] == Resting
    ensures var r, t := base.rpcs[id], Finished(u, k);
            var called := Enqueue(Begun(r, e), calls);
            && t.rpcs == (if LetsGo(called, e) then base.rpcs - {id} else base.rpcs[id := Ended(called, e)])
            && t.transport == base.transport[id := TagsOf(base, id) + (StartedAtBegin(r, e) + StartedAtEnd(called, e))]
            && t == u.(rpcs := t.rpcs, transport := t.transport, current := base.current)
  {
    var r := base.rpcs[id];
    var called, tags := Enqueue(Begun(r, e), calls), TagsOf(base, id);
    var a, b := StartedAtBegin(r, e), StartedAtEnd(called, e);
    assert tags + a + b == tags + (a + b);
    assert u.current[k := Resting] == base.current;
    assert base.rpcs[id := called] - {id} == base.rpcs - {id};
  }

  lemma FinishedIs(base: System, u: System, k: nat, id: nat, e: Event, calls: seq<Item>)
    requires MadeCalls(base, u, k, id, e, calls) && base.current[k] == Resting
    requires calls != [] ==> RunsHandler(base.rpcs[id].kind, e)
    ensures var after := AfterEvent(base.rpcs[id], e, calls);
            Finished(u, k) == Settle(base, id, after, StartedBy(base.rpcs[id], e, after), |calls|, LetsGo(after, e))
  {
    var r := base.rpcs[id];
    var after := AfterEvent(r, e, calls);
    FinishedParts(base, u, k, id, e, calls);
    EventInSteps(r, e, calls);
    SettleIs(base, Finished(u, k), id, after, StartedBy(r, e, after), |calls|, LetsGo(after, e));
  }

  lemma EndRun(s: System, k: nat, id: nat, eq: nat)
    requires AtWork(s, k, id) && !s.current[k].due && eq < |s.queues|
    ensures ServerRun(s, [Ends(k, eq)], EndEvent(s, k, eq))
  {
    assert [Ends(k, eq)][1..] == [];
    assert ServerRun(EndEvent(s, k, eq), [], EndEvent(s, k, eq));
  }

  /** The whole event, for an Rpc that is there. */
  lemma EventRun(s: System, k: nat, id: nat, e: Event, calls: seq<Item>, eq: nat)
    requires AtHead(s, k, id, e) && !(IsAccept(e) && s.shutting) && eq < |s.queues|
    requires calls != [] ==> RunsHandler(s.rpcs[id].kind, e)
    ensures ServerRun(Next(s, Begins(k)), CallSteps(k, calls) + [Ends(k, eq)], HandleEvent(Pop(s, k), id, e, calls, eq))
  {
    var t := Next(s, Begins(k));
    BeginIs(s, k, id, e);
    CallsRun(t, k, id, calls);
    CallsMade(s, k, id, e, calls);
    var u := Called(t, k, calls);
    FinishedIs(Pop(s, k), u, k, id, e, calls);
    EventEnds(Pop(s, k), u, k, id, e, calls, eq);
    EndRun(u, k, id, eq);
    RunConcat(t, CallSteps(k, calls), u, [Ends(k, eq)], EndEvent(u, k, eq));
  }

  lemma EventEnds(base: System, u: System, k: nat, id: nat, e: Event, calls: seq<Item>, eq: nat)
    requires MadeCalls(base, u, k, id, e, calls) && InRange(base) && base.current[k] == Resting
    requires calls != [] ==> RunsHandler(base.rpcs[id].kind, e)
    requires IsAccept(e) ==> e.ok && !base.shutting
    ensures EndEvent(u, k, eq) == HandleEvent(base, id, e, calls, eq) && AtWork(u, k, id) && !u.current[k].due
  {
    FinishedIs(base, u, k, id, e, calls);
    BegunPending(base.rpcs[id], e);
    assert Clone(u.rpcs[id], eq) == Clone(base.rpcs[id], eq);
  }

  lemma HeadRun(s: System, k: nat, id: nat, e: Event, calls: seq<Item>, eq: nat)
    requires AtHead(s, k, id, e) && !(IsAccept(e) && s.shutting) && eq < |s.queues|
    requires calls != [] ==> RunsHandler(s.rpcs[id].kind, e)
    ensures ServerRun(s, HeadSteps(s, k, calls, eq), AfterHead(s, k, calls, eq))
  {
    EventRun(s, k, id, e, calls, eq);
    var steps := CallSteps(k, calls) + [Ends(k, eq)];
    assert HeadSteps(s, k, calls, eq) == [Begins(k)] + steps;
    assert ([Begins(k)] + steps)[1..] == steps;
  }

  /** A stale wake-up and a refused accept are over with the first step. */
  lemma BeginOnly(s: System, k: nat, calls: seq<Item>, eq: nat)
    requires InRange(s) && Possible(s, Begins(k)) && AsExpected(s, Begins(k))
    requires var (id, e) := s.queues[k][0];
             if id in s.rpcs then IsAccept(e) && s.shutting else e.WriteNeeded?
    ensures ServerRun(s, HeadSteps(s, k, calls, eq), AfterHead(s, k, calls, eq))
  {
    var t := Next(s, Begins(k));
    assert [Begins(k)][1..] == [];
    assert ServerRun(t, [], t);
  }

  /** Handled without interruption, an event takes the server through a run of its steps, so that what holds along
      every run holds along this one. */
  lemma Uninterrupted(s: System, k: nat, calls: seq<Item>, eq: nat)
    requires Inv(s) && Possible(s, Begins(k)) && AsExpected(s, Begins(k)) && eq < |s.queues|
    requires var (id, e) := s.queues[k][0];
             calls != [] ==> id in s.rpcs && RunsHandler(s.rpcs[id].kind, e)
    ensures ServerRun(s, HeadSteps(s, k, calls, eq), AfterHead(s, k, calls, eq))
  {
    var (id, e) := s.queues[k][0];
    ActorPlace(s, Begins(k));
    if id !in s.rpcs || (IsAccept(e) && s.shutting) {
      BeginOnly(s, k, calls, eq);
    } else {
      HeadRun(s, k, id, e, calls, eq);
    }
  }

  /** An accept that is refused or failed is over with its first step. */
  lemma RefusedAtOnce(s: System, k: nat, eq: nat)
    requires Inv(s) && Possible(s, Begins(k))
    requires var (id, e) := s.queues[k][0]; IsAccept(e) && (s.shutting || !e.ok)
    ensures AfterHead(s, k, [], eq) == Next(s, Begins(k))
  {
    ActorPlace(s, Begins(k));
  }

  /** What the invariant says about the event at the head of a queue. */
  lemma HeadFacts(s: System, k: nat)
    requires Inv(s) && Possible(s, Begins(k))
    ensures var (id, e) := s.queues[k][0];
            && (id !in s.rpcs ==> e.WriteNeeded?)
            && (id in s.rpcs && IsAccept(e) ==> Read !in s.rpcs[id].pending)
  {
    var id := s.queues[k][0].0;
    ActorPlace(s, Begins(k));
    if id in s.rpcs {
      assert RpcOk(s, id);
      HeadPending(ConnOf(s, id));
    }
  }
}
