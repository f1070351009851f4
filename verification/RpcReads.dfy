/** The reading side: a request stream is read until its client ends it, and no longer. */
module RpcReads {
  import opened Rpc
  import opened RpcSend
  import opened RpcService
  import opened RpcServiceProof
  import opened RpcTheorems

  // ---------- one Rpc ----------

  predicate HandlesRead(c: Conn) { c.phase.Handling? && c.phase.e == Completed(Read, true) }

  /** `over`: the event thread has begun with a READ that came back empty.  Until then the READ of a connected request
      stream is with gRPC or in the queue, once, or the event thread is dealing with a request; afterwards, and
      without a request stream, there is none. */
  predicate ReadsOn(c: Conn, over: bool) {
    if NewConnection in c.r.pending then !over
    else if StreamsRequests(c.r.kind) && !over then
      (Held(c, Read) == 1 && !HandlesRead(c)) || (Held(c, Read) == 0 && HandlesRead(c))
    else Held(c, Read) == 0 && !HandlesRead(c)
  }

  predicate EndsReads(c: Conn, st: Step) { st.Begin? && c.inbox != [] && c.inbox[0] == Completed(Read, false) }

  lemma HeldRead(c: Conn)
    requires Connected(c)
    ensures Held(c, Read) == if Read in c.r.pending then 1 else 0
  {
  }

  lemma ReadsBegin(c: Conn, shutting: bool, over: bool)
    requires SendInv(c) && ReadsOn(c, over) && Can(c, shutting, Begin) && Do(c, shutting, Begin).Some?
    ensures ReadsOn(Do(c, shutting, Begin).value, over || EndsReads(c, Begin))
  {
    var c' := Do(c, shutting, Begin).value;
    SendStep(c, shutting, Begin);
    HeadPending(c);
    BegunPending(c.r, c.inbox[0]);
    HeldRead(c');
    if NewConnection in c.r.pending {
      assert c.inbox[0] == Completed(NewConnection, true);
      assert StreamsRequests(c.r.kind) <==> Read in c'.r.pending;
    } else {
      HeldRead(c);
    }
  }

  lemma ReadsEnd(c: Conn, shutting: bool, over: bool)
    requires SendInv(c) && ReadsOn(c, over) && Can(c, shutting, End)
    ensures match Do(c, shutting, End)
            case Some(c') => ReadsOn(c', over)
            case None => StreamsRequests(c.r.kind) ==> over
  {
    SendStep(c, shutting, End);
    HeldRead(c);
    if Do(c, shutting, End).Some? { HeldRead(Do(c, shutting, End).value); }
  }

  lemma ReadsElse(c: Conn, shutting: bool, st: Step, over: bool)
    requires SendInv(c) && ReadsOn(c, over) && Can(c, shutting, st) && !st.Begin? && !st.End?
    ensures ReadsOn(Do(c, shutting, st).value, over)
  {
    var c' := Do(c, shutting, st).value;
    SendStep(c, shutting, st);
    if NewConnection !in c.r.pending {
      HeldRead(c);
      HeldRead(c');
    }
  }

  /** Every step keeps that, and a connected request stream is let go of only after its reads are over. */
  lemma ReadsStep(c: Conn, shutting: bool, st: Step, over: bool)
    requires SendInv(c) && ReadsOn(c, over) && Can(c, shutting, st)
    ensures match Do(c, shutting, st)
            case Some(c') => ReadsOn(c', over || EndsReads(c, st))
            case None => NewConnection !in c.r.pending && StreamsRequests(c.r.kind) ==> over
  {
    match st {
      case Begin =>
        if Do(c, shutting, st).Some? {
          ReadsBegin(c, shutting, over);
        } else {
          HeadPending(c);
          AliveStep(c, shutting, st);
        }
      case End => ReadsEnd(c, shutting, over);
      case _ => ReadsElse(c, shutting, st, over);
    }
  }

  // ---------- the server ----------

  predicate EndsReadsOf(s: System, st: SysStep, id: nat) {
    Possible(s, st) && st.Begins? && s.queues[st.k][0] == (id, Completed(Read, false))
  }

  /** In the run some thread begins with a READ of Rpc id that came back empty. */
  ghost predicate ReadsOver(s: System, steps: seq<SysStep>, id: nat)
    decreases |steps|
  {
    && steps != [] && InRange(s) && Possible(s, steps[0])
    && (EndsReadsOf(s, steps[0], id) || ReadsOver(Next(s, steps[0]), steps[1..], id))
  }

  ghost predicate AllReadOn(s: System, over: set<nat>)
    requires InRange(s)
  {
    && (forall id :: id in over ==> id < s.next)
    && (forall id {:trigger ConnOf(s, id)} :: id in s.rpcs ==> ReadsOn(ConnOf(s, id), id in over))
  }

  function OverAfter(s: System, st: SysStep, over: set<nat>): set<nat>
    requires Possible(s, st)
  {
    if st.Begins? && s.queues[st.k][0].1 == Completed(Read, false) then over + {s.queues[st.k][0].0} else over
  }

  /** The step is the end of Rpc id's reads exactly when it is that for its automaton. */
  lemma ActorEndsReads(s: System, st: SysStep)
    requires Acts(s, st)
    ensures EndsReadsOf(s, st, Actor(s, st)) <==> EndsReads(ConnOf(s, Actor(s, st)), Local(st))
  {
    if st.Begins? {
      ActsPlaced(s, st);
      HeadIsNext(s, st.k, Actor(s, st), s.queues[st.k][0].1);
    }
  }

  lemma ReadOnActor(s: System, st: SysStep, over: set<nat>)
    requires Acts(s, st) && AllReadOn(s, over)
    ensures var t, id := Next(s, st), Actor(s, st);
            && InRange(t)
            && (id in t.rpcs ==> ReadsOn(ConnOf(t, id), id in OverAfter(s, st, over)))
            && (id !in t.rpcs && NewConnection !in s.rpcs[id].pending && StreamsRequests(s.rpcs[id].kind) ==>
                  id in over)
  {
    var id := Actor(s, st);
    assert RpcOk(s, id);
    ActorFollows(s, st);
    ActorEndsReads(s, st);
    ReadsStep(ConnOf(s, id), s.shutting, Local(st), id in over);
  }

  lemma ReadOnOther(s: System, st: SysStep, over: set<nat>, j: nat)
    requires Acts(s, st) && AllReadOn(s, over) && j in Next(s, st).rpcs && j != Actor(s, st)
    ensures InRange(Next(s, st)) && ReadsOn(ConnOf(Next(s, st), j), j in OverAfter(s, st, over))
  {
    ActorTouches(s, st);
    if j < s.next {
      assert SameFields(s, Next(s, st), j);
      OthersRest(s, Next(s, st), Actor(s, st), j);
    } else {
      CloneOk(s, st);
    }
  }

  lemma ReadOnStep(s: System, st: SysStep, over: set<nat>)
    requires Inv(s) && Possible(s, st) && AsExpected(s, st) && AllReadOn(s, over)
    ensures InRange(Next(s, st)) && AllReadOn(Next(s, st), OverAfter(s, st, over))
  {
    var t := Next(s, st);
    if Acts(s, st) {
      ActorTouches(s, st);
      ActorPlace(s, st);
      forall id | id in t.rpcs ensures ReadsOn(ConnOf(t, id), id in OverAfter(s, st, over)) {
        if id == Actor(s, st) { ReadOnActor(s, st, over); } else { ReadOnOther(s, st, over, id); }
      }
    } else {
      GoneStep(s, st);
      GoneOfNobody(s, st);
      forall id | id in t.rpcs ensures ReadsOn(ConnOf(t, id), id in OverAfter(s, st, over)) {
        assert ConnOf(t, id) == ConnOf(s, id);
      }
    }
  }

  lemma {:induction false} ReadOnRun(s: System, steps: seq<SysStep>, last: System, over: set<nat>)
    returns (over': set<nat>)
    requires Inv(s) && ServerRun(s, steps, last) && AllReadOn(s, over)
    ensures Inv(last) && AllReadOn(last, over')
    ensures forall id: nat :: id in over' <==> id in over || ReadsOver(s, steps, id)
    decreases |steps|
  {
    over' := over;
    if steps != [] {
      var st := steps[0];
      InvStep(s, st);
      ReadOnStep(s, st, over);
      over' := ReadOnRun(Next(s, st), steps[1..], last, OverAfter(s, st, over));
      forall id: nat ensures id in OverAfter(s, st, over) <==> id in over || EndsReadsOf(s, st, id) {}
    }
  }

  lemma StartedReads(s: System, kinds: seq<RpcType>, cqs: nat)
    requires NowServing(s, kinds, cqs)
    ensures Inv(s) && AllReadOn(s, {})
  {
    StartedInv(s, kinds, cqs);
    forall id | id in s.rpcs ensures ReadsOn(ConnOf(s, id), false) { assert InitialRpc(s, kinds, cqs, id); }
  }

  /** In every reachable state: a connected request stream whose client has not ended it has exactly one READ with gRPC
      or in its queue, or its thread is dealing with a request; one that was ended, and a call without a request
      stream, has none. */
  lemma EveryStreamIsRead(s: System, kinds: seq<RpcType>, cqs: nat, steps: seq<SysStep>, last: System, id: nat)
    requires NowServing(s, kinds, cqs) && ServerRun(s, steps, last) && id in last.rpcs
    ensures InRange(last)
    ensures var c := ConnOf(last, id);
            NewConnection !in c.r.pending ==>
              if StreamsRequests(c.r.kind) && !ReadsOver(s, steps, id)
              then (Held(c, Read) == 1 && !HandlesRead(c)) || (Held(c, Read) == 0 && HandlesRead(c))
              else Held(c, Read) == 0 && !HandlesRead(c)
  {
    StartedReads(s, kinds, cqs);
    var over := ReadOnRun(s, steps, last, {});
    assert ReadsOn(ConnOf(last, id), id in over);
  }

  /** No connected request stream is let go of before its client has ended it. */
  lemma LetGoAfterReads(
      s: System, kinds: seq<RpcType>, cqs: nat, steps: seq<SysStep>, mid: System, st: SysStep, id: nat)
    requires NowServing(s, kinds, cqs) && ServerRun(s, steps, mid) && id in mid.rpcs
    requires InRange(mid) && Possible(mid, st) && AsExpected(mid, st) && id !in Next(mid, st).rpcs
    requires NewConnection !in mid.rpcs[id].pending && StreamsRequests(mid.rpcs[id].kind)
    ensures ReadsOver(s, steps, id)
  {
    StartedReads(s, kinds, cqs);
    var over := ReadOnRun(s, steps, mid, {});
    if Acts(mid, st) {
      ActorTouches(mid, st);
      assert id < mid.next && id != Actor(mid, st) ==> SameFields(mid, Next(mid, st), id);
      ReadOnActor(mid, st, over);
    } else {
      GoneStep(mid, st);
    }
  }
}
