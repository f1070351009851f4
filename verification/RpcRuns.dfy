/** Calls served from the connection to the end: for all answers there is a run in which exactly they are sent. */
module RpcRuns {
  import opened Rpc
  import opened RpcSend

  // ---------- runs with a handler of the known shapes ----------

  /** A call of either kind that obeys its handler, m being the answer of a unary one. */
  predicate Obeys(c: Conn, st: Step, m: Msg) {
    if c.r.kind == NormalRpc then UnaryHandler(c, st, m) else StreamHandler(c, st)
  }

  predicate ServedRun(c: Conn, steps: seq<Step>, last: Conn, m: Msg)
    decreases |steps|
  {
    if steps == [] then c == last
    else
      && Can(c, false, steps[0]) && Obeys(c, steps[0], m) && Do(c, false, steps[0]).Some?
      && ServedRun(Do(c, false, steps[0]).value, steps[1..], last, m)
  }

  ghost predicate Reaches(c: Conn, last: Conn, m: Msg) { exists steps: seq<Step> :: ServedRun(c, steps, last, m) }

  lemma {:induction false} RunSnoc(c: Conn, steps: seq<Step>, mid: Conn, st: Step, m: Msg)
    requires ServedRun(c, steps, mid, m) && Can(mid, false, st) && Obeys(mid, st, m) && Do(mid, false, st).Some?
    ensures ServedRun(c, steps + [st], Do(mid, false, st).value, m)
    decreases |steps|
  {
    if steps == [] {
      assert (steps + [st])[1..] == [];
    } else {
      assert (steps + [st])[1..] == steps[1..] + [st];
      RunSnoc(Do(c, false, steps[0]).value, steps[1..], mid, st, m);
    }
  }

  /** One step on. */
  lemma Go(c: Conn, mid: Conn, st: Step, m: Msg) returns (last: Conn)
    requires Reaches(c, mid, m) && Can(mid, false, st) && Obeys(mid, st, m) && Do(mid, false, st).Some?
    ensures last == Do(mid, false, st).value && Reaches(c, last, m)
  {
    last := Do(mid, false, st).value;
    var steps :| ServedRun(c, steps, mid, m);
    RunSnoc(c, steps, mid, st, m);
  }

  /** What is with gRPC, queued and going on; every tag that is pending is with gRPC. */
  predicate At(c: Conn, inbox: seq<Event>, tags: set<Tag>, phase: Phase) {
    && c.inbox == inbox && c.transport == tags && c.r.pending == tags && c.phase == phase
    && c.entered == 0 && c.midway == 0
  }

  /** What was sent and what waits. */
  predicate Out(c: Conn, sent: seq<Item>, waiting: seq<Item>) {
    Items(c.r.sent) == sent && c.r.sendQueue == waiting
  }

  /** The tags a step hands over are those that became pending. */
  lemma HandedOver(tags: set<Tag>, more: set<Tag>)
    ensures tags + ((tags + more) - tags) == tags + more
  {
  }

  lemma BeginConnects(c: Conn)
    requires Fresh(c.(inbox := [], transport := {NewConnection}))
    requires c.inbox == [Completed(NewConnection, true)] && c.transport == {Done}
    ensures Can(c, false, Begin) && Do(c, false, Begin).Some?
    ensures var d := Do(c, false, Begin).value;
            && d.r.kind == c.r.kind && Out(d, [], [])
            && At(d, [], if StreamsRequests(c.r.kind) then {Done, Read} else {Done},
                  Handling(Completed(NewConnection, true), [], false))
  {
    assert {NewConnection, Done} - {NewConnection} == {Done} && {Done} + {Read} == {Done, Read};
    HandedOver({Done}, {Read});
    HandedOver({Done}, {});
  }

  /** A new call is connected: the event thread is at its handler, or past where one would be. */
  lemma Connects(c: Conn, m: Msg) returns (d: Conn)
    requires Fresh(c)
    ensures Reaches(c, d, m) && d.r.kind == c.r.kind && Out(d, [], [])
    ensures At(d, [], if StreamsRequests(c.r.kind) then {Done, Read} else {Done},
               Handling(Completed(NewConnection, true), [], false))
  {
    assert ServedRun(c, [], c, m);
    assert {NewConnection} - {NewConnection} + {Done} == {Done};
    d := Go(c, c, Complete(NewConnection, true), m);
    BeginConnects(d);
    d := Go(c, d, Begin, m);
  }

  function OperationOf(kind: RpcType, item: Item): Tag {
    if item.Status? || !StreamsResponses(kind) then Finish else Write
  }

  lemma BeginStarts(b: Conn, tags: set<Tag>, sent: seq<Item>, item: Item, rest: seq<Item>, needed: seq<Event>)
    requires At(b, [WriteNeeded] + needed, tags, Idle) && Out(b, sent, [item] + rest)
    requires Write !in tags && Finish !in tags
    ensures Can(b, false, Begin) && Do(b, false, Begin).Some?
    ensures var d := Do(b, false, Begin).value;
            && At(d, needed, tags + {OperationOf(b.r.kind, item)}, Handling(WriteNeeded, [], false))
            && Out(d, sent + [item], rest) && d.r.kind == b.r.kind
  {
    ItemsStart(b.r.sent, item, OperationOf(b.r.kind, item) == Finish);
    HandedOver(tags, {OperationOf(b.r.kind, item)});
    assert ([item] + rest)[1..] == rest && ([WriteNeeded] + needed)[1..] == needed;
  }

  /** A wake-up starts the next item: as a write, or as the finish. */
  lemma Starts(c: Conn, b: Conn, m: Msg, tags: set<Tag>, sent: seq<Item>, item: Item, rest: seq<Item>,
               needed: seq<Event>) returns (d: Conn)
    requires Reaches(c, b, m) && At(b, [WriteNeeded] + needed, tags, Idle) && Out(b, sent, [item] + rest)
    requires Write !in tags && Finish !in tags
    ensures Reaches(c, d, m) && At(d, needed, tags + {OperationOf(b.r.kind, item)}, Idle)
    ensures Out(d, sent + [item], rest) && d.r.kind == b.r.kind
  {
    BeginStarts(b, tags, sent, item, rest, needed);
    d := Go(c, b, Begin, m);
    HandedOver(tags + {OperationOf(b.r.kind, item)}, {});
    d := Go(c, d, End, m);
  }

  /** Its completion comes back and is handled; after a write there is nothing left to send. */
  lemma Completes(c: Conn, b: Conn, m: Msg, tags: set<Tag>, tag: Tag, sent: seq<Item>, rest: seq<Item>)
    returns (d: Conn)
    requires Reaches(c, b, m) && At(b, [], tags + {tag}, Idle) && Out(b, sent, rest)
    requires tag == Finish || (tag == Write && rest == [])
    requires tags <= {Done, Read} && tags != {}
    ensures Reaches(c, d, m) && At(d, [], tags, Idle) && Out(d, sent, rest) && d.r.kind == b.r.kind
  {
    d := Go(c, b, Complete(tag, true), m);
    assert d.transport == tags;
    ItemsStart(b.r.sent, Status, true);
    d := Go(c, d, Begin, m);
    assert d.r.pending == tags && d.transport == tags;
    assert AnyEventPending(d.r);
    d := Go(c, d, End, m);
  }

  // ---------- a bidirectional stream ----------

  /** A request comes in, and its answer is queued. */
  lemma Asked(c: Conn, b: Conn, m: Msg, sent: seq<Item>, answer: Msg) returns (d: Conn)
    requires Reaches(c, b, m) && b.r.kind == BidiStreaming && At(b, [], {Done, Read}, Idle) && Out(b, sent, [])
    ensures Reaches(c, d, m) && d.r.kind == BidiStreaming
    ensures At(d, [WriteNeeded], {Done, Read}, Idle) && Out(d, sent, [Message(answer)])
  {
    d := Go(c, b, Complete(Read, true), m);
    assert d.transport == {Done};
    d := Go(c, d, Begin, m);
    assert d.r.pending == {Done} && d.transport == {Done};
    d := Go(c, d, HandlerEnqueues(Message(answer)), m);
    d := Go(c, d, HandlerPushes, m);
    d := Go(c, d, End, m);
    assert d.r.pending == {Done, Read} && d.transport == {Done, Read};
  }

  /** The client ends its side, and the final status is queued. */
  lemma AskedNoMore(c: Conn, b: Conn, m: Msg, sent: seq<Item>) returns (d: Conn)
    requires Reaches(c, b, m) && b.r.kind == BidiStreaming && At(b, [], {Done, Read}, Idle) && Out(b, sent, [])
    ensures Reaches(c, d, m) && d.r.kind == BidiStreaming
    ensures At(d, [WriteNeeded], {Done}, Idle) && Out(d, sent, [Status])
  {
    d := Go(c, b, Complete(Read, false), m);
    assert d.transport == {Done};
    d := Go(c, d, Begin, m);
    assert d.r.pending == {Done} && d.transport == {Done};
    d := Go(c, d, HandlerEnqueues(Status), m);
    d := Go(c, d, HandlerPushes, m);
    d := Go(c, d, End, m);
  }

  /** DONE comes back; the thread is about to let go of the call. */
  lemma Closes(c: Conn, b: Conn, m: Msg, sent: seq<Item>) returns (d: Conn)
    requires Reaches(c, b, m) && At(b, [], {Done}, Idle) && Items(b.r.sent) == sent
    ensures Reaches(c, d, m) && Items(d.r.sent) == sent && d.r.sendQueue == b.r.sendQueue
    ensures Can(d, false, End) && Obeys(d, End, m) && Do(d, false, End).None?
  {
    d := Go(c, b, Complete(Done, true), m);
    d := Go(c, d, Begin, m);
    assert d.r.pending == {};
  }

  function Messages(answers: seq<Msg>): seq<Item> {
    if answers == [] then [] else Messages(answers[..|answers| - 1]) + [Message(answers[|answers| - 1])]
  }

  lemma {:induction false} AnswersAll(c: Conn, m: Msg, answers: seq<Msg>) returns (d: Conn)
    requires Fresh(c) && c.r.kind == BidiStreaming
    ensures Reaches(c, d, m) && d.r.kind == BidiStreaming
    ensures At(d, [], {Done, Read}, Idle) && Out(d, Messages(answers), [])
    decreases |answers|
  {
    if answers == [] {
      d := Connects(c, m);
      d := Go(c, d, End, m);
    } else {
      var n := |answers| - 1;
      var before := Messages(answers[..n]);
      d := AnswersAll(c, m, answers[..n]);
      d := Asked(c, d, m, before, answers[n]);
      assert [WriteNeeded] == [WriteNeeded] + [] && [Message(answers[n])] == [Message(answers[n])] + [];
      d := Starts(c, d, m, {Done, Read}, before, Message(answers[n]), [], []);
      d := Completes(c, d, m, {Done, Read}, Write, Messages(answers), []);
    }
  }

  /** For every list of answers there is a run in which a bidirectional stream is connected, asked so often, sends
      exactly these answers in order and then the finish, and is let go of. */
  lemma StreamIsServed(c: Conn, m: Msg, answers: seq<Msg>) returns (d: Conn)
    requires Fresh(c) && c.r.kind == BidiStreaming
    ensures Reaches(c, d, m) && Items(d.r.sent) == Messages(answers) + [Status] && d.r.sendQueue == []
    ensures Can(d, false, End) && Obeys(d, End, m) && Do(d, false, End).None?
  {
    d := AnswersAll(c, m, answers);
    d := AskedNoMore(c, d, m, Messages(answers));
    assert [WriteNeeded] == [WriteNeeded] + [] && [Status] == [Status] + [];
    d := Starts(c, d, m, {Done}, Messages(answers), Status, [], []);
    d := Completes(c, d, m, {Done}, Finish, Messages(answers) + [Status], []);
    d := Closes(c, d, m, Messages(answers) + [Status]);
  }

  // ---------- a unary call ----------

  /** The handler answers and finishes while the connection is handled. */
  lemma AnswersOne(c: Conn, m: Msg) returns (d: Conn)
    requires Fresh(c) && c.r.kind == NormalRpc
    ensures Reaches(c, d, m) && d.r.kind == NormalRpc
    ensures At(d, [WriteNeeded, WriteNeeded], {Done}, Idle) && Out(d, [], [Message(m), Status])
  {
    d := Connects(c, m);
    d := Go(c, d, HandlerEnqueues(Message(m)), m);
    d := Go(c, d, HandlerPushes, m);
    d := Go(c, d, HandlerEnqueues(Status), m);
    d := Go(c, d, HandlerPushes, m);
    d := Go(c, d, End, m);
  }

  /** A wake-up while the finish is in flight starts nothing. */
  lemma Idles(c: Conn, b: Conn, m: Msg, sent: seq<Item>, rest: seq<Item>) returns (d: Conn)
    requires Reaches(c, b, m) && At(b, [WriteNeeded], {Done, Finish}, Idle) && Out(b, sent, rest)
    ensures Reaches(c, d, m) && At(d, [], {Done, Finish}, Idle) && Out(d, sent, rest) && d.r.kind == b.r.kind
  {
    d := Go(c, b, Begin, m);
    assert d.transport == {Done, Finish};
    d := Go(c, d, End, m);
  }

  /** For every answer there is a run in which a unary call is connected, sends exactly that answer, and is let go of
      with the status still waiting. */
  lemma UnaryIsServed(c: Conn, m: Msg) returns (d: Conn)
    requires Fresh(c) && c.r.kind == NormalRpc
    ensures Reaches(c, d, m) && Items(d.r.sent) == [Message(m)] && d.r.sendQueue == [Status]
    ensures Can(d, false, End) && Obeys(d, End, m) && Do(d, false, End).None?
  {
    d := AnswersOne(c, m);
    assert [WriteNeeded, WriteNeeded] == [WriteNeeded] + [WriteNeeded];
    assert [Message(m), Status] == [Message(m)] + [Status] && [] + [Message(m)] == [Message(m)];
    d := Starts(c, d, m, {Done}, [], Message(m), [Status], [WriteNeeded]);
    assert {Done} + {Finish} == {Done, Finish};
    d := Idles(c, d, m, [Message(m)], [Status]);
    d := Completes(c, d, m, {Done}, Finish, [Message(m)], [Status]);
    d := Closes(c, d, m, [Message(m)]);
  }
}
