/** What holds in every state a server can reach: who is active, who holds an accept slot, and what every
    active Rpc may rely on. */
module RpcTheorems {
  import opened Arithmetic
  import opened Rpc
  import opened RpcSend
  import opened RpcService
  import opened RpcServiceProof

  // ---------- runs of the whole server ----------

  /** After StartServing: one Rpc per method and completion queue, each waiting for its connection. */
  ghost predicate NowServing(s: System, kinds: seq<RpcType>, cqs: nat) {
    && !s.shutting && !s.crashed && s.entered == map[] && s.midway == map[]
    && |s.current| == |s.queues|
    && (forall k :: 0 <= k < |s.queues| ==> s.queues[k] == [] && s.current[k] == Resting)
    && s.next == |kinds| * cqs
    && (forall id :: id in s.rpcs <==> 0 <= id < s.next)
    && s.transport.Keys == s.rpcs.Keys
    && (forall id :: id in s.rpcs ==> s.transport[id] == {NewConnection})
    && (forall id :: id in s.rpcs ==> InitialRpc(s, kinds, cqs, id))
  }

  /** Rpc number id serves method id / cqs on completion queue id % cqs. */
  predicate InitialRpc(s: System, kinds: seq<RpcType>, cqs: nat, id: nat)
    requires id in s.rpcs
  {
    && cqs > 0 && id / cqs < |kinds| && s.rpcs[id].eq < |s.queues|
    && s.rpcs[id] == NewRpc(kinds[id / cqs], id / cqs, id % cqs, s.rpcs[id].eq)
  }

  ghost predicate ServerRun(s: System, steps: seq<SysStep>, last: System)
    decreases |steps|
  {
    if steps == [] then s == last
    else
      && InRange(s) && Possible(s, steps[0]) && AsExpected(s, steps[0])
      && ServerRun(Next(s, steps[0]), steps[1..], last)
  }

  lemma StartedInv(s: System, kinds: seq<RpcType>, cqs: nat)
    requires NowServing(s, kinds, cqs)
    ensures Inv(s)
  {
    assert InRange(s) by {
      forall id | id in s.rpcs ensures id < s.next && s.rpcs[id].eq < |s.queues| {
        assert InitialRpc(s, kinds, cqs, id);
      }
    }
    forall id | id in s.rpcs ensures RpcOk(s, id) {
      assert InitialRpc(s, kinds, cqs, id);
      assert s.queues[s.rpcs[id].eq] == [];
      FreshInv(ConnOf(s, id));
    }
  }

  lemma {:induction false} InvRun(s: System, steps: seq<SysStep>, last: System)
    requires Inv(s) && ServerRun(s, steps, last)
    ensures Inv(last)
    decreases |steps|
  {
    if steps != [] {
      InvStep(s, steps[0]);
      InvRun(Next(s, steps[0]), steps[1..], last);
    }
  }

  lemma {:induction false} RunConcat(s: System, a: seq<SysStep>, t: System, b: seq<SysStep>, u: System)
    requires ServerRun(s, a, t) && ServerRun(t, b, u)
    ensures ServerRun(s, a + b, u)
    decreases |a|
  {
    if a == [] {
      assert a + b == b;
    } else {
      assert (a + b)[1..] == a[1..] + b;
      RunConcat(Next(s, a[0]), a[1..], t, b, u);
    }
  }

  ghost predicate Reaches(s: System, t: System) { exists steps: seq<SysStep> :: ServerRun(s, steps, t) }

  lemma Reach(s: System, t: System, st: SysStep) returns (u: System)
    requires Reaches(s, t) && Inv(t) && Possible(t, st) && AsExpected(t, st)
    ensures u == Next(t, st) && Inv(u) && Reaches(s, u)
  {
    u := Next(t, st);
    InvStep(t, st);
    var steps :| ServerRun(s, steps, t);
    assert [st][1..] == [];
    assert ServerRun(u, [], u);
    RunConcat(s, steps, t, [st], u);
  }

  lemma ReachesItself(s: System)
    ensures Reaches(s, s)
  {
    assert ServerRun(s, [], s);
  }

  // ---------- lifetime ----------

  /** A completion of Rpc id waits in queue k. */
  predicate Waits(s: System, k: nat, id: nat, e: Event) {
    k < |s.queues| && e.Completed? && (id, e) in s.queues[k]
  }

  /** Some thread is handling an event of Rpc id. */
  predicate AtHand(s: System, id: nat) {
    exists k :: 0 <= k < |s.current| && s.current[k].Working? && s.current[k].id == id
  }

  lemma WaitsOwned(s: System, k: nat, id: nat, e: Event)
    requires Inv(s) && Waits(s, k, id, e)
    ensures id in s.rpcs && s.rpcs[id].eq == k
  {
    EntryPlace(s, k, (id, e));
  }

  lemma {:induction false} CountedWaits(q: seq<Queued>, id: nat, tag: Tag) returns (ok: bool)
    requires Count(Project(q, id), tag) > 0
    ensures (id, Completed(tag, ok)) in q
  {
    if q[0].0 == id && q[0].1.Completed? && q[0].1.tag == tag {
      ok := q[0].1.ok;
      assert q[0] == (id, Completed(tag, ok));
    } else {
      var head := if q[0].0 == id then [q[0].1] else [];
      CountConcat(head, Project(q[1..], id), tag);
      assert |head| == 1 ==> head[1..] == [];
      ok := CountedWaits(q[1..], id, tag);
    }
  }

  /** Nothing is left with gRPC, no completion is left in a queue, and no thread is handling one. */
  ghost predicate Drained(s: System) {
    && (forall id :: TagsOf(s, id) == {} && !AtHand(s, id))
    && (forall k, id, e :: !Waits(s, k, id, e))
  }

  /** Between two of its events an active Rpc has a tag with gRPC or in its queue. */
  lemma RpcHolds(s: System, id: nat)
    requires Inv(s) && id in s.rpcs && !AtHand(s, id)
    ensures TagsOf(s, id) != {} || exists e :: Waits(s, s.rpcs[id].eq, id, e)
  {
    assert RpcOk(s, id);
    var tag := AliveHolds(ConnOf(s, id));
    if TagsOf(s, id) == {} {
      var ok := CountedWaits(s.queues[s.rpcs[id].eq], id, tag);
      assert Waits(s, s.rpcs[id].eq, id, Completed(tag, ok));
    }
  }

  /** In every reachable state: no Rpc was used after ActiveRpcs let go of it; every tag with gRPC or in a
      queue belongs to an active Rpc and waits where that Rpc's thread looks; a thread handles events of active
      Rpcs only; and every active Rpc has such a tag or an event of it is just being handled. */
  lemma Lifetime(s: System, kinds: seq<RpcType>, cqs: nat, steps: seq<SysStep>, last: System)
    requires NowServing(s, kinds, cqs) && ServerRun(s, steps, last)
    ensures !last.crashed
    ensures forall id :: TagsOf(last, id) != {} || AtHand(last, id) ==> id in last.rpcs
    ensures forall k, id, e :: Waits(last, k, id, e) ==> id in last.rpcs && last.rpcs[id].eq == k
    ensures forall id :: id in last.rpcs ==>
              TagsOf(last, id) != {} || AtHand(last, id) || exists e :: Waits(last, last.rpcs[id].eq, id, e)
  {
    StartedInv(s, kinds, cqs);
    InvRun(s, steps, last);
    forall k, id, e | Waits(last, k, id, e) ensures id in last.rpcs && last.rpcs[id].eq == k {
      WaitsOwned(last, k, id, e);
    }
    forall id | AtHand(last, id) ensures id in last.rpcs {
      var k :| 0 <= k < |last.current| && last.current[k].Working? && last.current[k].id == id;
      assert WorkOk(last, k);
    }
    forall id | id in last.rpcs
      ensures TagsOf(last, id) != {} || AtHand(last, id) || exists e :: Waits(last, last.rpcs[id].eq, id, e)
    {
      if !AtHand(last, id) { RpcHolds(last, id); }
    }
  }

  /** Once gRPC has returned every tag and the queues have been worked off, ActiveRpcs is empty: its
      destructor's fatal "RPCs still in flight!" cannot happen. */
  lemma DrainedIsEmpty(s: System, kinds: seq<RpcType>, cqs: nat, steps: seq<SysStep>, last: System)
    requires NowServing(s, kinds, cqs) && ServerRun(s, steps, last)
    ensures Drained(last) <==> last.rpcs == map[]
  {
    Lifetime(s, kinds, cqs, steps, last);
  }

  // ---------- accepts at the wrong time ----------

  /** The two ways an accept may come back that the server is not made for: ok while shutting down leaves
      the tag of DONE with nobody to own it, and a failure while serving clones an Rpc just let go of.
      Exactly then handling an accept breaks the invariant. */
  lemma AcceptExact(s: System, k: nat)
    requires Inv(s) && Possible(s, Begins(k)) && IsAccept(s.queues[k][0].1)
    ensures Inv(Next(s, Begins(k))) <==> s.queues[k][0].1.ok == !s.shutting
  {
    ActorPlace(s, Begins(k));
    if s.queues[k][0].1.ok == !s.shutting {
      InvStep(s, Begins(k));
    } else if s.shutting {
      LateAccept(s, k);
    }
  }

  /** DONE of Rpc id is with gRPC or in a queue, and nobody owns it. */
  ghost predicate DoneOrphaned(s: System, id: nat) {
    id !in s.rpcs && (Done in TagsOf(s, id) || exists k, ok :: Waits(s, k, id, Completed(Done, ok)))
  }

  lemma OrphanBreaksInv(s: System, id: nat)
    requires DoneOrphaned(s, id)
    ensures !Inv(s)
  {
    if Done !in TagsOf(s, id) {
      var k, ok :| Waits(s, k, id, Completed(Done, ok));
      if Inv(s) { WaitsOwned(s, k, id, Completed(Done, ok)); }
    }
  }

  /** An ok accept handled while shutting down lets go of an Rpc whose DONE is still out. */
  lemma LateAccept(s: System, k: nat)
    requires Inv(s) && Possible(s, Begins(k)) && s.queues[k][0].1 == Completed(NewConnection, true)
    requires s.shutting
    ensures DoneOrphaned(Next(s, Begins(k)), s.queues[k][0].0)
    ensures !Inv(Next(s, Begins(k)))
  {
    ActorPlace(s, Begins(k));
    var id := s.queues[k][0].0;
    var t := Next(s, Begins(k));
    assert RpcOk(s, id);
    var c := ConnOf(s, id);
    HeadPending(c);
    if c.transport != {Done} {
      var done := c.inbox[1];
      assert Project(s.queues[k], id) == [s.queues[k][0].1] + Project(s.queues[k][1..], id);
      assert done in Project(s.queues[k][1..], id);
      var i := ProjectedFrom(s.queues[k][1..], id, done);
      assert t.queues[k][i] == (id, done) && done == Completed(Done, done.ok);
      assert Waits(t, k, id, Completed(Done, done.ok));
    }
    OrphanBreaksInv(t, id);
  }

  /** When gRPC returns the orphaned tag, the Rpc it belongs to is used after it was let go of. */
  lemma OrphanCrashes(s: System, id: nat, ok: bool)
    requires InRange(s) && id !in s.rpcs && Done in TagsOf(s, id)
    ensures Possible(s, Returns(id, Done, ok)) && Next(s, Returns(id, Done, ok)).crashed
  {
  }

  /** The state in which the accept of Rpc 0 has come back ok and the server is shutting down. */
  function LateState(s: System): System
    requires 0 in s.rpcs && s.rpcs[0].eq < |s.queues|
  {
    ReturnTag(s, 0, NewConnection, true).(shutting := true)
  }

  /** It can be reached from any server with a method to serve, in both orders: stopped before or after the accept
      came back. */
  lemma LateStateReached(s: System, kinds: seq<RpcType>, cqs: nat)
    requires NowServing(s, kinds, cqs) && s.next > 0
    ensures ServerRun(s, [Stops, Returns(0, NewConnection, true)], LateState(s))
    ensures ServerRun(s, [Returns(0, NewConnection, true), Stops], LateState(s))
  {
    StartedInv(s, kinds, cqs);
    var stop, back := Stops, Returns(0, NewConnection, true);
    InvStep(s, stop);
    InvStep(s, back);
    assert [stop, back][1..] == [back] && [back, stop][1..] == [stop] && [back][1..] == [] && [stop][1..] == [];
    assert ServerRun(Next(s, stop), [back], LateState(s));
    assert ServerRun(Next(s, back), [stop], LateState(s));
  }

  lemma LateStateIs(s: System, kinds: seq<RpcType>, cqs: nat)
    requires NowServing(s, kinds, cqs) && s.next > 0
    ensures 0 in s.rpcs && s.rpcs[0].eq < |s.queues|
    ensures var late, k := LateState(s), s.rpcs[0].eq;
            && Inv(late) && Possible(late, Begins(k)) && late.shutting && TagsOf(late, 0) == {Done} && 0 in late.rpcs
            && late.queues[k][0] == (0, Completed(NewConnection, true))
  {
    StartedInv(s, kinds, cqs);
    LateStateReached(s, kinds, cqs);
    InvRun(s, [Stops, Returns(0, NewConnection, true)], LateState(s));
    assert s.queues[s.rpcs[0].eq] == [] && s.current[s.rpcs[0].eq] == Resting;
    assert {NewConnection} - {NewConnection} + {Done} == {Done};
  }

  lemma LateBegun(s: System, k: nat, ok: bool)
    requires InRange(s) && Possible(s, Begins(k)) && s.queues[k][0] == (0, Completed(NewConnection, true))
    requires s.shutting && TagsOf(s, 0) == {Done} && 0 in s.rpcs
    ensures var t := Next(s, Begins(k));
            InRange(t) && Possible(t, Returns(0, Done, ok)) && Next(t, Returns(0, Done, ok)).crashed
  {
    OrphanCrashes(Next(s, Begins(k)), 0, ok);
  }

  /** From there the accept is handled, DONE is returned, and the server uses an Rpc that is gone. */
  lemma LateAcceptHappens(s: System, kinds: seq<RpcType>, cqs: nat, ok: bool)
    requires NowServing(s, kinds, cqs) && s.next > 0
    ensures ServerRun(s, [Stops, Returns(0, NewConnection, true)], LateState(s))
    ensures ServerRun(s, [Returns(0, NewConnection, true), Stops], LateState(s))
    ensures var late, k := LateState(s), s.rpcs[0].eq;
            && InRange(late) && Possible(late, Begins(k))
            && var t := Next(late, Begins(k));
            && DoneOrphaned(t, 0) && InRange(t) && Possible(t, Returns(0, Done, ok))
            && Next(t, Returns(0, Done, ok)).crashed
  {
    LateStateReached(s, kinds, cqs);
    LateStateIs(s, kinds, cqs);
    var late, k := LateState(s), s.rpcs[0].eq;
    LateAccept(late, k);
    LateBegun(late, k, ok);
  }

  // ---------- threads inside Write and Finish ----------

  /** A thread has locked the Rpc to write and not pushed yet, and ActiveRpcs has let go of it: the push will abort
      the process. */
  predicate Stranded(s: System, id: nat) { id !in s.rpcs && Inside(s, id) > 0 }

  /** The thread of queue k is about to let go of the Rpc it works on. */
  predicate LastEvent(s: System, k: nat) {
    && Busies(s, k) && !s.current[k].due && s.current[k].id in s.rpcs
    && LetsGo(s.rpcs[s.current[k].id], s.current[k].e)
  }

  /** Exactly one kind of step strands threads: the handling of the Rpc's last pending event ends while they are
      inside, from the moment they lock the pointer. */
  lemma StrandedExactly(s: System, st: SysStep, id: nat)
    requires Inv(s) && Possible(s, st) && AsExpected(s, st) && !Stranded(s, id)
    ensures Stranded(Next(s, st), id)
            <==> st.Ends? && LastEvent(s, st.k) && s.current[st.k].id == id && Inside(s, id) > 0
  {
    if !Acts(s, st) {
      GoneOfNobody(s, st);
      NobodyStrands(s, st, id);
    } else if id == Actor(s, st) {
      ActorStrands(s, st);
    } else {
      OthersStrand(s, st, id);
    }
  }

  lemma NobodyStrands(s: System, st: SysStep, id: nat)
    requires InRange(s) && OfNobody(s, st)
    ensures Stranded(Next(s, st), id) <==> Stranded(s, id)
  {
  }

  lemma OthersStrand(s: System, st: SysStep, id: nat)
    requires Acts(s, st) && id != Actor(s, st)
    ensures Stranded(Next(s, st), id) <==> Stranded(s, id)
  {
    ActorTouches(s, st);
    if id < s.next {
      assert SameFields(s, Next(s, st), id);
    } else {
      TransportKeys(s, st);
    }
  }

  /** An accept is let go of before anybody can have locked it. */
  lemma ActorStrands(s: System, st: SysStep)
    requires Acts(s, st)
    ensures Stranded(Next(s, st), Actor(s, st)) <==> st.Ends? && LastEvent(s, st.k) && Inside(s, Actor(s, st)) > 0
  {
    var id := Actor(s, st);
    assert RpcOk(s, id);
    ActorFollows(s, st);
    if st.Begins? { HeadPending(ConnOf(s, id)); }
  }

  /** No step but the aborting push frees a stranded thread. */
  lemma StrandedStays(s: System, st: SysStep, id: nat)
    requires Inv(s) && Possible(s, st) && AsExpected(s, st) && Stranded(s, id)
    ensures Stranded(Next(s, st), id)
  {
    if Acts(s, st) {
      OthersStrand(s, st, id);
    } else {
      GoneOfNobody(s, st);
      NobodyStrands(s, st, id);
    }
  }

  /** Left to itself, the thread aborts the process. */
  lemma StrandedAborts(s: System, id: nat, item: Item) returns (t: System)
    requires Inv(s) && Stranded(s, id)
    ensures Reaches(s, t) && (t == s || (Possible(s, Enqueues(id, item)) && t == Next(s, Enqueues(id, item))))
    ensures Inv(t) && Possible(t, Pushes(id)) && Next(t, Pushes(id)).crashed
  {
    ReachesItself(s);
    t := s;
    if MidwayOf(s, id) == 0 { t := Reach(s, s, Enqueues(id, item)); }
  }

  /** While the handling of the last event comes to its end, a thread can still lock the Rpc, and queue its item
      after the send queue was looked at; neither keeps the Rpc. */
  lemma StillLast(s: System, k: nat, st: SysStep)
    requires Inv(s) && LastEvent(s, k)
    requires var id := s.current[k].id; st == Enters(id) || (st.Enqueues? && st.id == id && EnteredOf(s, id) > 0)
    ensures Possible(s, st) && AsExpected(s, st)
    ensures var t, id := Next(s, st), s.current[k].id;
            LastEvent(t, k) && t.current == s.current && Inside(t, id) > 0 && |t.queues| == |s.queues|
    ensures st.Enters? ==> EnteredOf(Next(s, st), s.current[k].id) > 0
  {
    assert WorkOk(s, k) && RpcOk(s, s.current[k].id);
  }

  lemma EndStrands(s: System, k: nat, eq: nat)
    requires Inv(s) && LastEvent(s, k) && eq < |s.queues| && Inside(s, s.current[k].id) > 0
    ensures Stranded(Next(s, Ends(k, eq)), s.current[k].id)
  {
    var id := s.current[k].id;
    StrandedExactly(s, Ends(k, eq), id);
  }

  /** Whatever the last event is, a thread that enters before its handling ends is stranded, whether or not it has
      queued its item by then. */
  lemma EntryStrands(s: System, k: nat, eq: nat, item: Item, queued: bool) returns (t: System)
    requires Inv(s) && LastEvent(s, k) && eq < |s.queues|
    ensures Reaches(s, t) && Inv(t) && Stranded(t, s.current[k].id)
  {
    var id := s.current[k].id;
    ReachesItself(s);
    StillLast(s, k, Enters(id));
    t := Reach(s, s, Enters(id));
    if queued {
      StillLast(t, k, Enqueues(id, item));
      t := Reach(s, t, Enqueues(id, item));
    }
    EndStrands(t, k, eq);
    t := Reach(s, t, Ends(k, eq));
  }

  /** Rpc id is connected, nothing but DONE is out, and its queue is empty. */
  predicate OnlyDone(s: System, k: nat, id: nat) {
    && InRange(s) && id in s.rpcs && s.rpcs[id].eq == k && s.rpcs[id].pending == {Done} && TagsOf(s, id) == {Done}
    && s.queues[k] == []
  }

  /** The accept of Rpc 0 comes back. */
  lemma FirstAccept(s: System, kinds: seq<RpcType>, cqs: nat) returns (t: System)
    requires NowServing(s, kinds, cqs) && s.next > 0
    ensures Reaches(s, t) && Inv(t) && !t.shutting && t.rpcs == s.rpcs && TagsOf(t, 0) == {Done}
    ensures t.current == s.current && |t.queues| == |s.queues| && s.rpcs[0].eq < |t.queues|
    ensures t.queues[s.rpcs[0].eq] == [(0, Completed(NewConnection, true))] && t.current[s.rpcs[0].eq] == Resting
  {
    StartedInv(s, kinds, cqs);
    ReachesItself(s);
    t := Reach(s, s, Returns(0, NewConnection, true));
    assert {NewConnection} - {NewConnection} + {Done} == {Done};
    assert s.queues[s.rpcs[0].eq] == [];
  }

  /** Its thread connects it; where there is no request stream, only DONE is left. */
  lemma AcceptBegun(s: System, k: nat, id: nat)
    requires AtHead(s, k, id, Completed(NewConnection, true)) && |s.queues[k]| == 1
    requires s.rpcs[id].pending == {NewConnection, Done} && TagsOf(s, id) == {Done}
    requires !StreamsRequests(s.rpcs[id].kind)
    ensures var t := Next(s, Begins(k));
            OnlyDone(t, k, id) && t.current[k] == Working(id, Completed(NewConnection, true), [], false)
  {
    assert {NewConnection, Done} - {NewConnection} == {Done};
  }

  lemma AcceptEnded(s: System, k: nat, id: nat, eq: nat)
    requires Inv(s) && OnlyDone(s, k, id) && eq < |s.queues|
    requires s.current[k] == Working(id, Completed(NewConnection, true), [], false)
    ensures OnlyDone(Next(s, Ends(k, eq)), k, id) && Next(s, Ends(k, eq)).current[k] == Resting
  {
    EndTouches(s, k, id, eq);
  }

  /** DONE comes back and is the last event. */
  lemma DoneReturned(s: System, k: nat, id: nat, ok: bool)
    requires OnlyDone(s, k, id) && s.current[k] == Resting
    ensures var t := Next(s, Returns(id, Done, ok));
            AtHead(t, k, id, Completed(Done, ok)) && t.rpcs[id].pending == {Done}
  {
  }

  lemma DoneBegun(s: System, k: nat, id: nat, ok: bool)
    requires AtHead(s, k, id, Completed(Done, ok)) && s.rpcs[id].pending == {Done}
    ensures LastEvent(Next(s, Begins(k)), k) && Next(s, Begins(k)).current[k].id == id
    ensures |Next(s, Begins(k)).queues| == |s.queues|
  {
    assert {Done} - {Done} == {};
  }

  lemma DoneIsLast(s: System, t0: System, k: nat, id: nat) returns (t: System)
    requires Reaches(s, t0) && Inv(t0) && OnlyDone(t0, k, id) && t0.current[k] == Resting
    ensures Reaches(s, t) && Inv(t) && LastEvent(t, k) && t.current[k].id == id && |t.queues| == |t0.queues|
  {
    DoneReturned(t0, k, id, true);
    t := Reach(s, t0, Returns(id, Done, true));
    DoneBegun(t, k, id, true);
    t := Reach(s, t, Begins(k));
  }

  lemma FirstConnects(s: System, kinds: seq<RpcType>, cqs: nat) returns (t: System)
    requires NowServing(s, kinds, cqs) && s.next > 0 && !StreamsRequests(s.rpcs[0].kind)
    ensures Reaches(s, t) && Inv(t) && OnlyDone(t, s.rpcs[0].eq, 0) && t.current[s.rpcs[0].eq] == Resting
  {
    var k := s.rpcs[0].eq;
    assert InitialRpc(s, kinds, cqs, 0);
    t := FirstAccept(s, kinds, cqs);
    AcceptBegun(t, k, 0);
    t := Reach(s, t, Begins(k));
    AcceptEnded(t, k, 0, k);
    t := Reach(s, t, Ends(k, k));
  }

  /** So it happens in any server whose first method takes no request stream: while the thread that handles DONE of
      its first connection is about to let go of the Rpc, another thread locks it. */
  lemma StrandedHappens(s: System, kinds: seq<RpcType>, cqs: nat, item: Item, queued: bool) returns (t: System)
    requires NowServing(s, kinds, cqs) && s.next > 0 && !StreamsRequests(s.rpcs[0].kind)
    ensures Reaches(s, t) && Inv(t) && Stranded(t, 0)
  {
    var k := s.rpcs[0].eq;
    var t0 := FirstConnects(s, kinds, cqs);
    var t1 := DoneIsLast(s, t0, k, 0);
    t := EntryStrands(t1, k, k, item, queued);
    ReachesFurther(s, t1, t);
  }

  lemma ReachesFurther(s: System, t: System, u: System)
    requires Reaches(s, t) && Reaches(t, u)
    ensures Reaches(s, u)
  {
    var a: seq<SysStep> :| ServerRun(s, a, t);
    var b: seq<SysStep> :| ServerRun(t, b, u);
    RunConcat(s, a, t, b, u);
  }

  /** A push keeps the server in order if and only if the Rpc is still there. */
  lemma PushExact(s: System, id: nat)
    requires Inv(s) && Possible(s, Pushes(id))
    ensures Inv(Next(s, Pushes(id))) <==> id in s.rpcs
  {
    if id in s.rpcs { InvStep(s, Pushes(id)); }
  }

  // ---------- accept slots ----------

  /** The Rpc waits for its connection, or the event thread is just dealing with it. */
  predicate Awaits(c: Conn) { NewConnection in c.r.pending || (c.phase.Handling? && IsAccept(c.phase.e)) }

  /** Rpc id stands for the next connection of method m on completion queue q. */
  predicate HoldsSlot(s: System, m: nat, q: nat, id: nat) {
    InRange(s) && id in s.rpcs && Awaits(ConnOf(s, id)) && s.rpcs[id].method_ == m && s.rpcs[id].cq == q
  }

  function Slot(s: System, m: nat, q: nat): set<nat> { set id | id in s.rpcs && HoldsSlot(s, m, q, id) }

  /** One Rpc holds the slot, and it is of the method's kind. */
  predicate SlotTaken(s: System, kinds: seq<RpcType>, m: nat, q: nat)
    requires m < |kinds|
  {
    |Slot(s, m, q)| == 1 && forall id :: id in Slot(s, m, q) ==> s.rpcs[id].kind == kinds[m]
  }

  ghost predicate AllSlotsTaken(s: System, kinds: seq<RpcType>, cqs: nat) {
    forall m, q :: 0 <= m < |kinds| && 0 <= q < cqs ==> SlotTaken(s, kinds, m, q)
  }

  predicate SameIdentity(r: RpcState, r': RpcState) { r'.kind == r.kind && r'.method_ == r.method_ && r'.cq == r.cq }

  /** An Rpc keeps its method, completion queue and kind, and only the end of its accept makes it stop standing. */
  lemma AwaitsStep(c: Conn, shutting: bool, st: Step)
    requires Alive(c) && Can(c, shutting, st)
    ensures match Do(c, shutting, st)
            case Some(c') =>
              && SameIdentity(c.r, c'.r)
              && (Awaits(c') <==> Awaits(c) && !(st.End? && IsAccept(c.phase.e)))
            case None => !shutting ==> !Awaits(c)
  {
    if st.Begin? {
      HeadPending(c);
      BegunPending(c.r, c.inbox[0]);
    }
  }

  predicate EndsAccept(s: System, st: SysStep)
    requires Possible(s, st)
  {
    st.Ends? && IsAccept(s.current[st.k].e)
  }

  lemma SlotActor(s: System, st: SysStep, m: nat, q: nat)
    requires Acts(s, st) && !s.shutting
    ensures var j := Actor(s, st);
            && (HoldsSlot(Next(s, st), m, q, j) <==> HoldsSlot(s, m, q, j) && !EndsAccept(s, st))
            && (j in Next(s, st).rpcs ==> SameIdentity(s.rpcs[j], Next(s, st).rpcs[j]))
  {
    var j := Actor(s, st);
    ActsPlaced(s, st);
    ActorFollows(s, st);
    assert RpcOk(s, j);
    AwaitsStep(ConnOf(s, j), s.shutting, Local(st));
  }

  lemma SlotOther(s: System, st: SysStep, m: nat, q: nat, j: nat)
    requires Acts(s, st) && j != Actor(s, st) && j < s.next
    ensures HoldsSlot(Next(s, st), m, q, j) <==> HoldsSlot(s, m, q, j)
    ensures j in s.rpcs && j in Next(s, st).rpcs ==> SameIdentity(s.rpcs[j], Next(s, st).rpcs[j])
  {
    ActorTouches(s, st);
    assert SameFields(s, Next(s, st), j);
    if j in s.rpcs { OthersRest(s, Next(s, st), Actor(s, st), j); }
  }

  /** What a step means for the slot of an Rpc that is there. */
  lemma SlotMember(s: System, st: SysStep, m: nat, q: nat, j: nat)
    requires Inv(s) && Possible(s, st) && AsExpected(s, st) && !s.shutting && j < s.next
    ensures HoldsSlot(Next(s, st), m, q, j)
            <==> HoldsSlot(s, m, q, j) && !(EndsAccept(s, st) && j == s.current[st.k].id)
    ensures j in s.rpcs && j in Next(s, st).rpcs ==> SameIdentity(s.rpcs[j], Next(s, st).rpcs[j])
  {
    if !Acts(s, st) {
      GoneStep(s, st);
      if st.Ends? { ActorPlace(s, st); }
    } else if j == Actor(s, st) {
      SlotActor(s, st, m, q);
    } else {
      SlotOther(s, st, m, q, j);
    }
  }

  /** The clone takes the slot of the Rpc just connected; no other step brings in an Rpc. */
  lemma SlotNewcomer(s: System, st: SysStep, m: nat, q: nat, j: nat)
    requires Inv(s) && Possible(s, st) && AsExpected(s, st) && j >= s.next
    ensures HoldsSlot(Next(s, st), m, q, j)
            <==> EndsAccept(s, st) && j == s.next && HoldsSlot(s, m, q, s.current[st.k].id)
    ensures HoldsSlot(Next(s, st), m, q, j) ==> Next(s, st).rpcs[j].kind == s.rpcs[s.current[st.k].id].kind
  {
    if Acts(s, st) {
      ActorTouches(s, st);
      if s.next in Next(s, st).rpcs {
        CloneOk(s, st);
        ActorPlace(s, st);
      }
    } else {
      GoneStep(s, st);
      if !st.Stops? { ActorPlace(s, st); }
    }
  }

  lemma OnlyMember(a: set<nat>, x: nat)
    requires |a| == 1 && x in a
    ensures a == {x}
  {
    assert |a - {x}| == 0;
  }

  /** The slot passes from the Rpc that was connected to its clone; all other slots stay as they are. */
  lemma SlotPasses(s: System, st: SysStep, m: nat, q: nat)
    requires Inv(s) && Possible(s, st) && AsExpected(s, st) && !s.shutting && |Slot(s, m, q)| == 1
    ensures Slot(Next(s, st), m, q)
            == if EndsAccept(s, st) && HoldsSlot(s, m, q, s.current[st.k].id) then {s.next} else Slot(s, m, q)
  {
    var t, passes := Next(s, st), EndsAccept(s, st) && HoldsSlot(s, m, q, s.current[st.k].id);
    if passes { OnlyMember(Slot(s, m, q), s.current[st.k].id); }
    forall j: nat ensures j in Slot(t, m, q) <==> j in (if passes then {s.next} else Slot(s, m, q)) {
      if j < s.next { SlotMember(s, st, m, q, j); } else { SlotNewcomer(s, st, m, q, j); }
      assert j in Slot(s, m, q) <==> HoldsSlot(s, m, q, j);
    }
  }

  lemma SlotStep(s: System, st: SysStep, kinds: seq<RpcType>, m: nat, q: nat)
    requires Inv(s) && Possible(s, st) && AsExpected(s, st) && !s.shutting
    requires m < |kinds| && SlotTaken(s, kinds, m, q)
    ensures SlotTaken(Next(s, st), kinds, m, q)
  {
    SlotPasses(s, st, m, q);
    forall j | j in Slot(Next(s, st), m, q) ensures Next(s, st).rpcs[j].kind == kinds[m] {
      if j < s.next {
        SlotMember(s, st, m, q, j);
        assert j in Slot(s, m, q);
      } else {
        SlotNewcomer(s, st, m, q, j);
        assert s.current[st.k].id in Slot(s, m, q);
      }
    }
  }

  lemma SlotInRange(m: nat, q: nat, kinds: nat, cqs: nat)
    requires m < kinds && q < cqs
    ensures m * cqs + q < kinds * cqs
  {
    MulStep(m, kinds, cqs);
  }

  lemma StartedMember(s: System, kinds: seq<RpcType>, cqs: nat, m: nat, q: nat, j: nat)
    requires NowServing(s, kinds, cqs) && cqs > 0
    ensures HoldsSlot(s, m, q, j) <==> j < s.next && j / cqs == m && j % cqs == q
    ensures HoldsSlot(s, m, q, j) && m < |kinds| ==> s.rpcs[j].kind == kinds[m]
  {
    if j in s.rpcs { assert InitialRpc(s, kinds, cqs, j); }
  }

  lemma StartedSlot(s: System, kinds: seq<RpcType>, cqs: nat, m: nat, q: nat)
    requires NowServing(s, kinds, cqs) && m < |kinds| && q < cqs
    ensures SlotTaken(s, kinds, m, q)
  {
    var id := m * cqs + q;
    SlotInRange(m, q, |kinds|, cqs);
    forall j: nat ensures HoldsSlot(s, m, q, j) <==> j == id {
      StartedMember(s, kinds, cqs, m, q, j);
      QuotientIs(m, q, cqs, j);
    }
    StartedMember(s, kinds, cqs, m, q, id);
    assert Slot(s, m, q) == {id};
  }

  lemma {:induction false} ShuttingStays(s: System, steps: seq<SysStep>, last: System)
    requires ServerRun(s, steps, last) && s.shutting
    ensures last.shutting
    decreases |steps|
  {
    if steps != [] { ShuttingStays(Next(s, steps[0]), steps[1..], last); }
  }

  lemma {:induction false} SlotRun(s: System, steps: seq<SysStep>, last: System, kinds: seq<RpcType>, m: nat, q: nat)
    requires Inv(s) && ServerRun(s, steps, last) && !last.shutting
    requires m < |kinds| && SlotTaken(s, kinds, m, q)
    ensures SlotTaken(last, kinds, m, q)
    decreases |steps|
  {
    if steps != [] {
      if s.shutting { ShuttingStays(s, steps, last); }
      InvStep(s, steps[0]);
      SlotStep(s, steps[0], kinds, m, q);
      SlotRun(Next(s, steps[0]), steps[1..], last, kinds, m, q);
    }
  }

  /** While serving, exactly one active Rpc per method and completion queue waits for a connection, and it
      serves the method's kind of call. */
  lemma AcceptSlots(s: System, kinds: seq<RpcType>, cqs: nat, steps: seq<SysStep>, last: System)
    requires NowServing(s, kinds, cqs) && ServerRun(s, steps, last) && !last.shutting
    ensures AllSlotsTaken(last, kinds, cqs)
  {
    StartedInv(s, kinds, cqs);
    forall m, q | 0 <= m < |kinds| && 0 <= q < cqs ensures SlotTaken(last, kinds, m, q) {
      StartedSlot(s, kinds, cqs, m, q);
      SlotRun(s, steps, last, kinds, m, q);
    }
  }
}
