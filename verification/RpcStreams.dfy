/** The guarantees of a single Rpc, for every Rpc of a running server.  Each step of the server is at most one
    step of each Rpc's automaton, so that what holds along an automaton's runs holds there too. */
module RpcStreams {
  import opened Options
  import opened Rpc
  import opened RpcSend
  import opened RpcService
  import opened RpcServiceProof
  import opened RpcTheorems

  // ---------- the server refines the automaton of each of its Rpcs ----------

  datatype Move = Rests | Takes(step: Step)

  /** The server's step st is the automaton's step of Rpc id. */
  predicate IsStepOf(s: System, st: SysStep, id: nat, local: Step) {
    Possible(s, st) && !st.Stops? && Actor(s, st) == id && Local(st) == local
  }

  /** What a step of the server is for one Rpc that stays: its own step, or nothing. */
  lemma StepProjects(s: System, st: SysStep, id: nat) returns (move: Move)
    requires Inv(s) && Possible(s, st) && AsExpected(s, st)
    requires id in s.rpcs && id in Next(s, st).rpcs
    ensures InRange(Next(s, st))
    ensures match move
            case Rests => ConnOf(Next(s, st), id) == ConnOf(s, id)
            case Takes(local) =>
              && IsStepOf(s, st, id, local) && Can(ConnOf(s, id), s.shutting, local)
              && Do(ConnOf(s, id), s.shutting, local) == Some(ConnOf(Next(s, st), id))
  {
    move := Rests;
    if !Acts(s, st) {
      GoneStep(s, st);
    } else if id == Actor(s, st) {
      ActorFollows(s, st);
      move := Takes(Local(st));
    } else {
      ActorTouches(s, st);
      OthersRest(s, Next(s, st), Actor(s, st), id);
    }
  }

  /** An Rpc the step brings in starts out as a fresh automaton. */
  lemma NewcomerIsFresh(s: System, st: SysStep, id: nat)
    requires Inv(s) && Possible(s, st) && AsExpected(s, st)
    requires id !in s.rpcs && id in Next(s, st).rpcs
    ensures InRange(Next(s, st)) && Fresh(ConnOf(Next(s, st), id))
  {
    if Acts(s, st) {
      ActorTouches(s, st);
      assert id < s.next ==> SameFields(s, Next(s, st), id);
      CloneOk(s, st);
    } else {
      GoneStep(s, st);
    }
  }

  // ---------- with any handlers ----------

  /** Every active Rpc of every reachable state, whatever the handlers and other threads do: the transport
      got a prefix of what was written, in order, each item by the right operation, one at a time; the
      response in flight is intact; and no wake-up is lost. */
  lemma EveryRpcSendsInOrder(s: System, kinds: seq<RpcType>, cqs: nat, steps: seq<SysStep>, last: System, id: nat)
    requires NowServing(s, kinds, cqs) && ServerRun(s, steps, last) && id in last.rpcs
    ensures var r := last.rpcs[id];
            && Items(r.sent) + r.sendQueue == r.enqueued && Alternates(r.sent) && InFlightOk(r) && RightOperations(r)
            && !(Write in r.pending && Finish in r.pending)
    ensures var r := last.rpcs[id];
            r.sendQueue != [] && Write !in r.pending && !FinishStarted(r.sent) ==>
              || (r.eq < |last.queues| && (id, WriteNeeded) in last.queues[r.eq]) || MidwayOf(last, id) > 0
              || (Busies(last, r.eq) && last.current[r.eq].id == id && last.current[r.eq].due)
  {
    StartedInv(s, kinds, cqs);
    InvRun(s, steps, last);
    assert RpcOk(last, id);
    var c := ConnOf(last, id);
    if c.r.sendQueue != [] && Write !in c.r.pending && !FinishStarted(c.r.sent) {
      if Finish in c.r.pending { FinishPendingStarted(c.r); }
      NeededIn(c.inbox);
      if WriteNeeded in c.inbox { var i := ProjectedFrom(last.queues[c.r.eq], id, WriteNeeded); }
    }
  }

  // ---------- with the repository's handlers ----------

  /** Bidirectional streams and unary calls are served by handlers of the two known shapes. */
  predicate ObeysLocally(c: Conn, local: Step, answer: Msg) {
    match c.r.kind
    case BidiStreaming => StreamHandler(c, local)
    case NormalRpc => UnaryHandler(c, local, answer)
    case _ => true
  }

  /** answer(id) is the response the unary handler of Rpc id computes. */
  ghost predicate Obeys(s: System, st: SysStep, answer: nat -> Msg)
    requires InRange(s)
  {
    forall id, local ::
      id in s.rpcs && IsStepOf(s, st, id, local) ==> ObeysLocally(ConnOf(s, id), local, answer(id))
  }

  predicate WellServed(c: Conn, answer: Msg) {
    && (c.r.kind == BidiStreaming ==> StreamShape(c))
    && (c.r.kind == NormalRpc ==> UnaryInv(c, answer))
  }

  lemma WellServedStep(c: Conn, shutting: bool, local: Step, answer: Msg)
    requires SendInv(c) && WellServed(c, answer) && Can(c, shutting, local) && ObeysLocally(c, local, answer)
    ensures Do(c, shutting, local).Some? ==> WellServed(Do(c, shutting, local).value, answer)
  {
    if c.r.kind == BidiStreaming { StreamShapeStep(c, shutting, local); }
    if c.r.kind == NormalRpc { UnaryStep(c, shutting, local, answer); }
    if local.Begin? { BegunPending(c.r, c.inbox[0]); }
  }

  ghost predicate AllWellServed(s: System, answer: nat -> Msg)
    requires InRange(s)
  {
    forall id {:trigger WellServed(ConnOf(s, id), answer(id))} ::
      id in s.rpcs ==> WellServed(ConnOf(s, id), answer(id))
  }

  lemma ServedStep(s: System, st: SysStep, answer: nat -> Msg, id: nat)
    requires Inv(s) && Possible(s, st) && AsExpected(s, st) && Obeys(s, st, answer) && AllWellServed(s, answer)
    requires id in Next(s, st).rpcs
    ensures InRange(Next(s, st)) && WellServed(ConnOf(Next(s, st), id), answer(id))
  {
    if id in s.rpcs {
      assert RpcOk(s, id) && WellServed(ConnOf(s, id), answer(id));
      var move := StepProjects(s, st, id);
      if move.Takes? {
        assert IsStepOf(s, st, id, move.step);
        WellServedStep(ConnOf(s, id), s.shutting, move.step, answer(id));
      }
    } else {
      NewcomerIsFresh(s, st, id);
    }
  }

  ghost predicate ObedientRun(s: System, steps: seq<SysStep>, last: System, answer: nat -> Msg)
    decreases |steps|
  {
    if steps == [] then s == last
    else
      && InRange(s) && Possible(s, steps[0]) && AsExpected(s, steps[0]) && Obeys(s, steps[0], answer)
      && ObedientRun(Next(s, steps[0]), steps[1..], last, answer)
  }

  lemma {:induction false} ServedRun(s: System, steps: seq<SysStep>, last: System, answer: nat -> Msg)
    requires Inv(s) && AllWellServed(s, answer) && ObedientRun(s, steps, last, answer)
    ensures Inv(last) && AllWellServed(last, answer)
    decreases |steps|
  {
    if steps != [] {
      var t := Next(s, steps[0]);
      InvStep(s, steps[0]);
      forall id | id in t.rpcs ensures WellServed(ConnOf(t, id), answer(id)) {
        ServedStep(s, steps[0], answer, id);
      }
      ServedRun(t, steps[1..], last, answer);
    }
  }

  /** With such handlers, in every reachable state of the server, every active bidirectional stream has sent a
      prefix of m1, ..., mk, Finish, and every active unary call at most its one answer. */
  lemma EveryRpcWellServed(
      s: System, kinds: seq<RpcType>, cqs: nat, steps: seq<SysStep>, last: System, answer: nat -> Msg)
    requires NowServing(s, kinds, cqs) && ObedientRun(s, steps, last, answer)
    ensures forall id :: id in last.rpcs && last.rpcs[id].kind == BidiStreaming ==> InStreamOrder(last.rpcs[id])
    ensures forall id :: id in last.rpcs && last.rpcs[id].kind == NormalRpc ==> AnswersOnce(last.rpcs[id], answer(id))
  {
    StartedInv(s, kinds, cqs);
    forall id | id in s.rpcs ensures WellServed(ConnOf(s, id), answer(id)) {
      assert InitialRpc(s, kinds, cqs, id);
    }
    ServedRun(s, steps, last, answer);
    forall id | id in last.rpcs
      ensures last.rpcs[id].kind == BidiStreaming ==> InStreamOrder(last.rpcs[id])
      ensures last.rpcs[id].kind == NormalRpc ==> AnswersOnce(last.rpcs[id], answer(id))
    {
      assert RpcOk(last, id) && WellServed(ConnOf(last, id), answer(id));
      if last.rpcs[id].kind == BidiStreaming { ShapeGivesOrder(last.rpcs[id]); }
      if last.rpcs[id].kind == NormalRpc { UnaryGivesOnce(ConnOf(last, id), answer(id)); }
    }
  }
}
