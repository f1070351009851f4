/** The whole server keeps its invariant in every run.  Each step is the step of one Rpc, its actor, and touches
    nothing of the others. */
module RpcServiceProof {
  import opened Rpc
  import opened RpcSend
  import opened RpcService

  // ---------- the step of one Rpc ----------

  /** Whose step it is. */
  function Actor(s: System, st: SysStep): nat
    requires Possible(s, st) && !st.Stops?
  {
    match st
    case Returns(id, _, _) => id
    case Begins(k) => s.queues[k][0].0
    case HandlerEnqueues(k, _) => s.current[k].id
    case HandlerPushes(k) => s.current[k].id
    case Ends(k, _) => s.current[k].id
    case Enters(id) => id
    case Enqueues(id, _) => id
    case Pushes(id) => id
  }

  /** And which step of its automaton. */
  function Local(st: SysStep): Step
    requires !st.Stops?
  {
    match st
    case Returns(_, tag, ok) => Complete(tag, ok)
    case Begins(_) => Begin
    case HandlerEnqueues(_, item) => Step.HandlerEnqueues(item)
    case HandlerPushes(_) => Step.HandlerPushes
    case Ends(_, _) => End
    case Enters(_) => ProducerEnters
    case Enqueues(_, item) => ProducerEnqueues(item)
    case Pushes(_) => ProducerPushes
  }

  /** One event of Rpc id was taken from the front or put at the back, or nothing was. */
  predicate QueueTouched(q: seq<Queued>, q': seq<Queued>, id: nat) {
    || q' == q
    || (q != [] && q[0].0 == id && q' == q[1..])
    || (q' != [] && q'[|q'| - 1].0 == id && q'[..|q'| - 1] == q)
  }

  predicate WorkTouched(w: Work, w': Work, id: nat) {
    w' == w || ((w.Resting? || w.id == id) && (w'.Resting? || w'.id == id))
  }

  /** An Rpc with the same fields, tags and threads inside. */
  predicate SameFields(s: System, t: System, j: nat) {
    && (j in t.rpcs <==> j in s.rpcs) && (j in s.rpcs ==> t.rpcs[j] == s.rpcs[j])
    && TagsOf(t, j) == TagsOf(s, j) && EnteredOf(t, j) == EnteredOf(s, j) && MidwayOf(t, j) == MidwayOf(s, j)
  }

  /** Only Rpc id changed, and with it its queue and that queue's thread; at most one Rpc was added. */
  ghost predicate Touches(s: System, t: System, id: nat) {
    && id in s.rpcs && InRange(s) && InRange(t) && |t.queues| == |s.queues|
    && s.next <= t.next <= s.next + 1
    && (id in t.rpcs ==> t.rpcs[id].eq == s.rpcs[id].eq)
    && (forall j: nat :: j < s.next && j != id ==> SameFields(s, t, j))
    && (forall i :: 0 <= i < |s.queues| && i != s.rpcs[id].eq ==>
          t.queues[i] == s.queues[i] && t.current[i] == s.current[i])
    && QueueTouched(s.queues[s.rpcs[id].eq], t.queues[s.rpcs[id].eq], id)
    && WorkTouched(s.current[s.rpcs[id].eq], t.current[s.rpcs[id].eq], id)
  }

  // ---------- each step touches its actor only ----------

  /** The invariant's part that says where the actor is. */
  lemma ActorPlace(s: System, st: SysStep)
    requires Inv(s) && Possible(s, st) && !st.Stops?
    ensures Actor(s, st) < s.next
    ensures OfThread(st) && Actor(s, st) in s.rpcs ==> s.rpcs[Actor(s, st)].eq == st.k
    ensures st.HandlerEnqueues? || st.HandlerPushes? || st.Ends? || st.Returns? ==> Actor(s, st) in s.rpcs
    ensures st.Begins? && Actor(s, st) !in s.rpcs ==> s.queues[st.k][0].1 == WriteNeeded
  {
    match st {
      case Begins(k) =>
        assert QueueOk(s, k);
        assert QueuedOk(s, k, s.queues[k][0]);
      case HandlerEnqueues(k, _) => assert WorkOk(s, k);
      case HandlerPushes(k) => assert WorkOk(s, k);
      case Ends(k, _) => assert WorkOk(s, k);
      case _ =>
    }
  }

  predicate Acts(s: System, st: SysStep) {
    Inv(s) && Possible(s, st) && AsExpected(s, st) && !st.Stops? && Actor(s, st) in s.rpcs
  }

  predicate OfThread(st: SysStep) { st.Begins? || st.HandlerEnqueues? || st.HandlerPushes? || st.Ends? }

  /** What the step itself needs of the invariant. */
  predicate Placed(s: System, st: SysStep) {
    && InRange(s) && Possible(s, st) && AsExpected(s, st) && !st.Stops? && Actor(s, st) in s.rpcs
    && (OfThread(st) ==> s.rpcs[Actor(s, st)].eq == st.k)
    && (st.Enters? ==> NewConnection !in s.rpcs[st.id].pending)
  }

  lemma ActsPlaced(s: System, st: SysStep)
    requires Acts(s, st)
    ensures Placed(s, st)
  {
    ActorPlace(s, st);
    if st.Enters? { assert RpcOk(s, st.id); }
  }

  lemma ReturnTouches(s: System, id: nat, tag: Tag, ok: bool)
    requires InRange(s) && id in s.rpcs
    ensures Touches(s, ReturnTag(s, id, tag, ok), id)
  {
    var t, k := ReturnTag(s, id, tag, ok), s.rpcs[id].eq;
    assert t.queues[k][..|s.queues[k]|] == s.queues[k];
  }

  /** Event e of Rpc id is at the head of its queue, and the thread can take it. */
  predicate AtHead(s: System, k: nat, id: nat, e: Event) {
    && InRange(s) && id in s.rpcs && s.rpcs[id].eq == k && s.queues[k] != [] && s.queues[k][0] == (id, e)
    && s.current[k] == Resting && (IsAccept(e) ==> e.ok == !s.shutting)
  }

  lemma BeginOthers(s: System, k: nat, id: nat, e: Event, j: nat)
    requires AtHead(s, k, id, e) && j != id
    ensures SameFields(s, BeginEvent(Pop(s, k), k, id, e), j)
  {
  }

  lemma BeginOwn(s: System, k: nat, id: nat, e: Event)
    requires AtHead(s, k, id, e)
    ensures var t := BeginEvent(Pop(s, k), k, id, e);
            && (id in t.rpcs ==> t.rpcs[id] == Begun(s.rpcs[id], e) && t.rpcs[id].eq == k)
            && t.next == s.next && t.queues == s.queues[k := s.queues[k][1..]]
            && (t.current == s.current || t.current == s.current[k := Working(id, e, [], false)])
  {
    BegunPending(s.rpcs[id], e);
  }

  lemma BeginTouches(s: System, k: nat, id: nat, e: Event)
    requires AtHead(s, k, id, e)
    ensures Touches(s, BeginEvent(Pop(s, k), k, id, e), id)
  {
    var t := BeginEvent(Pop(s, k), k, id, e);
    BeginOwn(s, k, id, e);
    forall j: nat | j < s.next && j != id ensures SameFields(s, t, j) { BeginOthers(s, k, id, e, j); }
    forall j | j in t.rpcs && j != id ensures j in s.rpcs && t.rpcs[j] == s.rpcs[j] { BeginOthers(s, k, id, e, j); }
  }

  /** The thread of queue k works on Rpc id. */
  predicate AtWork(s: System, k: nat, id: nat) {
    InRange(s) && Busies(s, k) && s.current[k].id == id && id in s.rpcs && s.rpcs[id].eq == k
  }

  lemma HandlerTouches(s: System, k: nat, id: nat, item: Item)
    requires AtWork(s, k, id)
    ensures Touches(s, HandlerEnqueue(s, k, item), id) && Touches(s, HandlerPush(s, k), id)
  {
    assert HandlerPush(s, k).queues[k][..|s.queues[k]|] == s.queues[k];
  }

  lemma FinishedTouches(s: System, k: nat, id: nat)
    requires AtWork(s, k, id)
    ensures Touches(s, Finished(s, k), id) && Finished(s, k).next == s.next
  {
  }

  lemma EndTouches(s: System, k: nat, id: nat, eq: nat)
    requires AtWork(s, k, id) && eq < |s.queues|
    ensures Touches(s, EndEvent(s, k, eq), id)
  {
    FinishedTouches(s, k, id);
    var t, u := Finished(s, k), EndEvent(s, k, eq);
    forall j: nat | j < s.next && j != id ensures SameFields(s, u, j) { assert SameFields(s, t, j); }
  }

  lemma EnterTouches(s: System, id: nat)
    requires InRange(s) && id in s.rpcs
    ensures Touches(s, Enter(s, id), id)
  {
  }

  lemma EnqueueTouches(s: System, id: nat, item: Item)
    requires InRange(s) && id in s.rpcs && EnteredOf(s, id) > 0
    ensures Touches(s, EnqueueItem(s, id, item), id)
  {
  }

  lemma PushTouches(s: System, id: nat)
    requires InRange(s) && id in s.rpcs && MidwayOf(s, id) > 0
    ensures Touches(s, PushNeeded(s, id), id)
  {
    var t, k := PushNeeded(s, id), s.rpcs[id].eq;
    assert t.queues[k][..|s.queues[k]|] == s.queues[k];
  }

  lemma ActorTouches(s: System, st: SysStep)
    requires Acts(s, st)
    ensures Touches(s, Next(s, st), Actor(s, st))
    ensures Next(s, st).next == if st.Ends? && IsAccept(s.current[st.k].e) then s.next + 1 else s.next
  {
    ActsPlaced(s, st);
    match st {
      case Returns(id, tag, ok) => ReturnTouches(s, id, tag, ok);
      case Begins(k) => BeginTouches(s, k, Actor(s, st), s.queues[k][0].1);
      case HandlerEnqueues(k, item) => HandlerTouches(s, k, Actor(s, st), item);
      case HandlerPushes(k) => HandlerTouches(s, k, Actor(s, st), Status);
      case Ends(k, eq) => EndTouches(s, k, Actor(s, st), eq);
      case Enters(id) => EnterTouches(s, id);
      case Enqueues(id, item) => EnqueueTouches(s, id, item);
      case Pushes(id) => PushTouches(s, id);
    }
  }

  // ---------- and takes one step of the actor's automaton ----------

  /** The step of the server is the step of its actor. */
  ghost predicate Follows(s: System, t: System, id: nat, local: Step)
    requires id in s.rpcs && InRange(s) && InRange(t)
  {
    && Can(ConnOf(s, id), s.shutting, local)
    && match Do(ConnOf(s, id), s.shutting, local)
       case Some(c) => id in t.rpcs && ConnOf(t, id) == c
       case None => id !in t.rpcs
  }

  lemma ReturnFollows(s: System, id: nat, tag: Tag, ok: bool)
    requires InRange(s) && id in s.rpcs && tag in TagsOf(s, id) && InRange(ReturnTag(s, id, tag, ok))
    ensures Follows(s, ReturnTag(s, id, tag, ok), id, Complete(tag, ok))
  {
    ProjectOne(s.queues[s.rpcs[id].eq], (id, Completed(tag, ok)), id);
  }

  /** The head of the queue is the actor's next event. */
  lemma HeadIsNext(s: System, k: nat, id: nat, e: Event)
    requires AtHead(s, k, id, e)
    ensures ConnOf(s, id).inbox == [e] + Project(s.queues[k][1..], id)
    ensures Can(ConnOf(s, id), s.shutting, Begin)
  {
  }

  lemma BeginFollows(s: System, k: nat, id: nat, e: Event)
    requires AtHead(s, k, id, e) && InRange(BeginEvent(Pop(s, k), k, id, e))
    ensures Follows(s, BeginEvent(Pop(s, k), k, id, e), id, Begin)
  {
    HeadIsNext(s, k, id, e);
    BegunPending(s.rpcs[id], e);
  }

  lemma HandlerEnqueueFollows(s: System, k: nat, id: nat, item: Item)
    requires AtWork(s, k, id) && !s.current[k].due && RunsHandler(s.rpcs[id].kind, s.current[k].e)
    requires InRange(HandlerEnqueue(s, k, item))
    ensures Follows(s, HandlerEnqueue(s, k, item), id, Step.HandlerEnqueues(item))
  {
  }

  lemma HandlerPushFollows(s: System, k: nat, id: nat)
    requires AtWork(s, k, id) && s.current[k].due && InRange(HandlerPush(s, k))
    ensures Follows(s, HandlerPush(s, k), id, Step.HandlerPushes)
  {
    ProjectOne(s.queues[k], (id, WriteNeeded), id);
  }

  lemma FinishedFollows(s: System, k: nat, id: nat)
    requires AtWork(s, k, id) && !s.current[k].due && InRange(Finished(s, k))
    ensures Follows(s, Finished(s, k), id, End)
  {
  }

  lemma EndFollows(s: System, k: nat, id: nat, eq: nat)
    requires AtWork(s, k, id) && !s.current[k].due && InRange(EndEvent(s, k, eq))
    ensures Follows(s, EndEvent(s, k, eq), id, End)
  {
    FinishedTouches(s, k, id);
    FinishedFollows(s, k, id);
  }

  lemma EnterFollows(s: System, id: nat)
    requires InRange(s) && id in s.rpcs && NewConnection !in s.rpcs[id].pending && InRange(Enter(s, id))
    ensures Follows(s, Enter(s, id), id, ProducerEnters)
  {
  }

  lemma EnqueueFollows(s: System, id: nat, item: Item)
    requires InRange(s) && id in s.rpcs && EnteredOf(s, id) > 0 && InRange(EnqueueItem(s, id, item))
    ensures Follows(s, EnqueueItem(s, id, item), id, ProducerEnqueues(item))
  {
  }

  lemma PushFollows(s: System, id: nat)
    requires InRange(s) && id in s.rpcs && MidwayOf(s, id) > 0 && InRange(PushNeeded(s, id))
    ensures Follows(s, PushNeeded(s, id), id, ProducerPushes)
  {
    ProjectOne(s.queues[s.rpcs[id].eq], (id, WriteNeeded), id);
  }

  lemma ActorFollows(s: System, st: SysStep)
    requires Acts(s, st)
    ensures InRange(Next(s, st)) && Follows(s, Next(s, st), Actor(s, st), Local(st))
  {
    ActsPlaced(s, st);
    ActorTouches(s, st);
    match st {
      case Returns(id, tag, ok) => ReturnFollows(s, id, tag, ok);
      case Begins(k) => BeginFollows(s, k, Actor(s, st), s.queues[k][0].1);
      case HandlerEnqueues(k, item) => HandlerEnqueueFollows(s, k, Actor(s, st), item);
      case HandlerPushes(k) => HandlerPushFollows(s, k, Actor(s, st));
      case Ends(k, eq) => EndFollows(s, k, Actor(s, st), eq);
      case Enters(id) => EnterFollows(s, id);
      case Enqueues(id, item) => EnqueueFollows(s, id, item);
      case Pushes(id) => PushFollows(s, id);
    }
  }

  // ---------- the others ----------

  lemma ProjectDropped(q: seq<Queued>, j: nat)
    requires q != [] && q[0].0 != j
    ensures Project(q[1..], j) == Project(q, j)
  {
    assert Project(q, j) == [] + Project(q[1..], j);
  }

  lemma ProjectPushed(q: seq<Queued>, j: nat)
    requires q != [] && q[|q| - 1].0 != j
    ensures Project(q, j) == Project(q[..|q| - 1], j)
  {
    var x := q[|q| - 1];
    assert q == q[..|q| - 1] + [x];
    ProjectOne(q[..|q| - 1], x, j);
  }

  lemma ProjectTouched(q: seq<Queued>, q': seq<Queued>, id: nat, j: nat)
    requires QueueTouched(q, q', id) && j != id
    ensures Project(q', j) == Project(q, j)
  {
    if q' == q {
    } else if q != [] && q[0].0 == id && q' == q[1..] {
      ProjectDropped(q, j);
    } else {
      ProjectPushed(q', j);
    }
  }

  /** Every other Rpc's automaton rests. */
  lemma OthersRest(s: System, t: System, id: nat, j: nat)
    requires Touches(s, t, id) && j in s.rpcs && j != id
    ensures j in t.rpcs && ConnOf(t, j) == ConnOf(s, j)
  {
    assert SameFields(s, t, j);
    ProjectTouched(s.queues[s.rpcs[id].eq], t.queues[s.rpcs[id].eq], id, j);
  }

  lemma EntryPlace(s: System, k: nat, x: Queued)
    requires Inv(s) && k < |s.queues| && x in s.queues[k]
    ensures QueuedOk(s, k, x)
  {
    assert QueueOk(s, k);
    var i :| 0 <= i < |s.queues[k]| && s.queues[k][i] == x;
    assert QueuedOk(s, k, s.queues[k][i]);
  }

  lemma TouchedEntry(s: System, t: System, id: nat, k: nat, x: Queued)
    requires Inv(s) && Touches(s, t, id) && k < |t.queues| && x in t.queues[k] && x.0 != id
    ensures QueuedOk(t, k, x)
  {
    assert x in s.queues[k];
    EntryPlace(s, k, x);
    assert SameFields(s, t, x.0);
  }

  lemma OwnEntry(s: System, t: System, id: nat, k: nat, x: Queued)
    requires Inv(s) && Touches(s, t, id) && k < |t.queues| && x in t.queues[k] && x.0 == id
    ensures s.rpcs[id].eq == k
  {
    if x in s.queues[k] { EntryPlace(s, k, x); }
  }

  lemma ReleasedEntry(q: seq<Queued>, tags: set<Tag>, x: Queued)
    requires x in q && Released(Project(q, x.0), tags)
    ensures x.1 == WriteNeeded
  {
    var i :| 0 <= i < |q| && q[i] == x;
    ProjectIn(q, i);
  }

  /** What is left of Rpc id where it goes. */
  ghost predicate Settled(s: System, t: System, id: nat)
    requires Touches(s, t, id)
  {
    if id in t.rpcs then RpcOk(t, id) else Released(Project(t.queues[s.rpcs[id].eq], id), TagsOf(t, id))
  }

  lemma TouchedQueue(s: System, t: System, id: nat, k: nat)
    requires Inv(s) && Touches(s, t, id) && Settled(s, t, id) && k < |t.queues|
    ensures QueueOk(t, k)
  {
    forall i | 0 <= i < |t.queues[k]| ensures QueuedOk(t, k, t.queues[k][i]) {
      var x := t.queues[k][i];
      if x.0 != id {
        TouchedEntry(s, t, id, k, x);
      } else {
        OwnEntry(s, t, id, k, x);
        if id !in t.rpcs { ReleasedEntry(t.queues[k], TagsOf(t, id), x); }
      }
    }
  }

  lemma TouchedWork(s: System, t: System, id: nat, k: nat)
    requires Inv(s) && Touches(s, t, id) && k < |t.current|
    requires id !in t.rpcs ==> t.current[s.rpcs[id].eq] == Resting
    ensures WorkOk(t, k)
  {
    assert WorkOk(s, k);
    if t.current[k].Working? && t.current[k].id != id { assert SameFields(s, t, t.current[k].id); }
  }

  /** A step that touches one Rpc, and may add one, keeps the whole in order. */
  lemma Rebuild(s: System, t: System, id: nat)
    requires Inv(s) && Touches(s, t, id) && Settled(s, t, id) && !t.crashed && TagsOwned(t)
    requires id !in t.rpcs ==> t.current[s.rpcs[id].eq] == Resting
    requires s.next in t.rpcs ==> RpcOk(t, s.next)
    ensures Inv(t)
  {
    forall j | j in t.rpcs ensures RpcOk(t, j) {
      if j < s.next && j != id {
        assert SameFields(s, t, j);
        assert RpcOk(s, j);
        OthersRest(s, t, id, j);
      }
    }
    forall k | 0 <= k < |t.queues| ensures QueueOk(t, k) { TouchedQueue(s, t, id, k); }
    forall k | 0 <= k < |t.current| ensures WorkOk(t, k) { TouchedWork(s, t, id, k); }
  }

  // ---------- the invariant ----------

  /** Nothing in any queue refers to an Rpc that is yet to come, and no thread works on it. */
  lemma NoEventsYet(s: System, k: nat)
    requires Inv(s) && k < |s.queues|
    ensures Project(s.queues[k], s.next) == [] && PhaseOf(s.current[k], s.next) == Idle
  {
    assert QueueOk(s, k) && WorkOk(s, k);
    forall i | 0 <= i < |s.queues[k]| ensures s.queues[k][i].0 != s.next {
      assert QueuedOk(s, k, s.queues[k][i]);
    }
    ProjectNone(s.queues[k], s.next);
  }

  /** An Rpc for the same method and completion queue, on event queue eq, that only waits for its connection. */
  predicate IsCloneOf(r: RpcState, of: RpcState, eq: nat) {
    && r.kind == of.kind && r.method_ == of.method_ && r.cq == of.cq && r.eq == eq
    && r.pending == {NewConnection, Done} && r.sendQueue == [] && r.enqueued == [] && r.sent == []
  }

  /** Only the end of an accept brings in a new Rpc, a fresh clone of the one connected. */
  lemma CloneOk(s: System, st: SysStep)
    requires Acts(s, st) && s.next in Next(s, st).rpcs
    ensures var t := Next(s, st);
            && st.Ends? && IsAccept(s.current[st.k].e) && InRange(t)
            && t.rpcs[s.next] == Clone(s.rpcs[Actor(s, st)], st.eq)
            && IsCloneOf(t.rpcs[s.next], s.rpcs[Actor(s, st)], st.eq)
            && Fresh(ConnOf(t, s.next)) && RpcOk(t, s.next)
  {
    ActorTouches(s, st);
    ActorPlace(s, st);
    NoEventsYet(s, st.eq);
    FreshInv(ConnOf(Next(s, st), s.next));
  }

  lemma NothingPending(c: Conn, shutting: bool)
    requires Connected(c) && Can(c, shutting, End) && Do(c, shutting, End).None?
    ensures c.r.pending == {} && StartedAtEnd(c.r, c.phase.e) == {}
  {
    forall tag ensures tag !in c.r.pending {
      match tag { case NewConnection => case Read => case Write => case Finish => case Done => }
    }
  }

  /** If the actor goes, nothing but wake-ups of it is left anywhere. */
  lemma ActorReleases(s: System, st: SysStep)
    requires Acts(s, st) && Actor(s, st) !in Next(s, st).rpcs
    ensures var t, k := Next(s, st), s.rpcs[Actor(s, st)].eq;
            && (st.Begins? || st.Ends?) && k < |t.queues| == |t.current| && t.current[k] == Resting
            && Released(Project(t.queues[k], Actor(s, st)), TagsOf(t, Actor(s, st)))
  {
    var c := ConnOf(s, Actor(s, st));
    assert RpcOk(s, Actor(s, st));
    ActorFollows(s, st);
    ActsPlaced(s, st);
    AliveStep(c, s.shutting, Local(st));
    if st.Begins? {
      HeadIsNext(s, st.k, Actor(s, st), s.queues[st.k][0].1);
    } else {
      NothingPending(c, s.shutting);
    }
  }

  lemma TransportKeys(s: System, st: SysStep)
    requires Acts(s, st)
    ensures var t := Next(s, st);
            && (forall j :: j in t.transport ==> j < s.next || (j == s.next < t.next && j in t.rpcs))
            && (forall j :: j in t.entered ==> j < s.next) && (forall j :: j in t.midway ==> j < s.next)
  {
  }

  lemma ActorTags(s: System, st: SysStep)
    requires Acts(s, st)
    ensures TagsOwned(Next(s, st))
  {
    var t, id := Next(s, st), Actor(s, st);
    ActorTouches(s, st);
    if id !in t.rpcs { ActorReleases(s, st); }
    TransportKeys(s, st);
    forall j | j in t.transport ensures t.transport[j] != {} ==> j in t.rpcs {
      assert TagsOf(t, j) == t.transport[j];
      if j < s.next && j != id { assert SameFields(s, t, j); }
    }
  }

  lemma ActorStep(s: System, st: SysStep)
    requires Acts(s, st)
    ensures Inv(Next(s, st))
  {
    var t, id := Next(s, st), Actor(s, st);
    ActorTouches(s, st);
    ActorFollows(s, st);
    ActorTags(s, st);
    if id in t.rpcs {
      assert RpcOk(s, id);
      SendStep(ConnOf(s, id), s.shutting, Local(st));
    } else {
      ActorReleases(s, st);
    }
    if s.next in t.rpcs { CloneOk(s, st); }
    assert !t.crashed;
    Rebuild(s, t, id);
  }

  /** The head of queue k, of an Rpc that is gone, was dropped. */
  predicate StaleDropped(s: System, t: System, k: nat)
    requires k < |s.queues| == |t.queues|
  {
    s.queues[k] != [] && s.queues[k][0].0 !in s.rpcs && t.queues[k] == s.queues[k][1..]
  }

  /** A step of nobody: all active Rpcs are as they were. */
  lemma NobodyStep(s: System, t: System)
    requires Inv(s) && t.rpcs == s.rpcs && t.next == s.next && !t.crashed && t.current == s.current && TagsOwned(t)
    requires |t.queues| == |s.queues|
    requires forall k :: 0 <= k < |s.queues| ==> t.queues[k] == s.queues[k] || StaleDropped(s, t, k)
    requires forall j :: j in s.rpcs ==> SameFields(s, t, j)
    ensures Inv(t)
    ensures forall j :: j in s.rpcs ==> ConnOf(t, j) == ConnOf(s, j)
  {
    forall j | j in t.rpcs ensures RpcOk(t, j) && ConnOf(t, j) == ConnOf(s, j) {
      assert RpcOk(s, j) && SameFields(s, t, j);
      var k := s.rpcs[j].eq;
      if t.queues[k] != s.queues[k] { ProjectDropped(s.queues[k], j); }
      assert ConnOf(t, j) == ConnOf(s, j);
    }
    forall k | 0 <= k < |t.queues| ensures QueueOk(t, k) {
      assert QueueOk(s, k);
      forall i | 0 <= i < |t.queues[k]| ensures QueuedOk(t, k, t.queues[k][i]) {
        assert QueuedOk(s, k, s.queues[k][if t.queues[k] == s.queues[k] then i else i + 1]);
      }
    }
    forall k | 0 <= k < |t.current| ensures WorkOk(t, k) { assert WorkOk(s, k); }
  }

  /** A wake-up for an Rpc that is gone is dropped, a thread moves on inside one, or the server is stopped. */
  predicate OfNobody(s: System, st: SysStep) {
    match st
    case Begins(k) => Possible(s, st) && s.queues[k][0].0 !in s.rpcs && s.queues[k][0].1.WriteNeeded?
    case Enters(id) => Possible(s, st) && id !in s.rpcs
    case Enqueues(id, _) => Possible(s, st) && id !in s.rpcs
    case Stops => true
    case _ => false
  }

  lemma GoneOfNobody(s: System, st: SysStep)
    requires Inv(s) && Possible(s, st) && AsExpected(s, st) && !Acts(s, st)
    ensures OfNobody(s, st)
  {
    if !st.Stops? { ActorPlace(s, st); }
  }

  lemma NobodyShape(s: System, st: SysStep)
    requires InRange(s) && OfNobody(s, st)
    ensures var t := Next(s, st);
            && t.rpcs == s.rpcs && t.next == s.next && t.crashed == s.crashed && t.current == s.current
            && |t.queues| == |s.queues| && t.transport == s.transport
            && (forall k :: 0 <= k < |s.queues| ==> t.queues[k] == s.queues[k] || StaleDropped(s, t, k))
            && (forall j :: j in s.rpcs ==> SameFields(s, t, j))
            && (forall j :: j in t.entered ==> j in s.entered || Inside(s, j) > 0)
            && (forall j :: j in t.midway ==> j in s.midway || Inside(s, j) > 0)
  {
  }

  lemma GoneStep(s: System, st: SysStep)
    requires Inv(s) && Possible(s, st) && AsExpected(s, st) && !Acts(s, st)
    ensures Inv(Next(s, st)) && Next(s, st).rpcs == s.rpcs && Next(s, st).next == s.next
    ensures forall j :: j in s.rpcs ==> ConnOf(Next(s, st), j) == ConnOf(s, j)
  {
    GoneOfNobody(s, st);
    NobodyShape(s, st);
    NobodyStep(s, Next(s, st));
  }

  lemma InvStep(s: System, st: SysStep)
    requires Inv(s) && Possible(s, st) && AsExpected(s, st)
    ensures Inv(Next(s, st))
  {
    if Acts(s, st) { ActorStep(s, st); } else { GoneStep(s, st); }
  }
}
