/** The send side of an Rpc: what is written leaves in order, one operation at a time, no wake-up is
    lost, streams end with one Finish, and a unary call answers once. */
module RpcSend {
  import opened Options
  import opened Rpc

  // ---------- order, exclusion, conservation ----------

  /** The items given to the transport, in order. */
  function Items(sent: seq<Sent>): seq<Item> {
    if sent == [] then []
    else
      var n := |sent| - 1;
      Items(sent[..n]) + (if sent[n].Started? then [sent[n].item] else [])
  }

  predicate FinishStarted(sent: seq<Sent>) {
    exists i :: 0 <= i < |sent| && sent[i].Started? && sent[i].finish
  }

  /** Starts and handled completions strictly alternate, beginning with a start. */
  predicate Alternates(sent: seq<Sent>) {
    forall i :: 0 <= i < |sent| ==> (sent[i].Started? <==> i % 2 == 0)
  }

  /** The operation in flight, if any, is the last one started, and response_ is still its message. */
  predicate InFlightOk(r: RpcState) {
    |r.sent| % 2 == 1 ==>
      var last := r.sent[|r.sent| - 1];
      && last.Started?
      && (last.finish <==> Finish in r.pending) && (!last.finish <==> Write in r.pending)
      && (!last.finish ==> last.item.Message? && r.response == Some(last.item.msg))
      && (last.finish && !StreamsResponses(r.kind) ==>
            r.response == if last.item.Message? then Some(last.item.msg) else None)
  }

  /** A message of a response stream goes out as a write, everything else as a finish. */
  predicate RightOperation(kind: RpcType, x: Sent) {
    x.Started? ==> (x.finish <==> x.item.Status? || !StreamsResponses(kind))
  }

  predicate RightOperations(r: RpcState) {
    forall i :: 0 <= i < |r.sent| ==> RightOperation(r.kind, r.sent[i])
  }

  predicate Ordered(r: RpcState) {
    && Alternates(r.sent)
    && (Busy(r) <==> |r.sent| % 2 == 1)
    && InFlightOk(r) && RightOperations(r)
    && Items(r.sent) + r.sendQueue == r.enqueued
  }

  /** The handler has queued an item and not pushed its wake-up yet. */
  function DueOf(phase: Phase): nat { if phase.Handling? && phase.due then 1 else 0 }

  /** Unless a finish was started, what waits in the send queue while nothing is in flight is matched by
      wake-ups queued or about to be pushed, by another thread or the handler. */
  predicate Awake(c: Conn) {
    !Busy(c.r) && !FinishStarted(c.r.sent) ==> |c.r.sendQueue| <= CountNeeded(c.inbox) + c.midway + DueOf(c.phase)
  }

  predicate SendInv(c: Conn) { Alive(c) && Ordered(c.r) && Awake(c) }

  lemma ItemsStart(sent: seq<Sent>, item: Item, finish: bool)
    ensures Items(sent + [Started(item, finish)]) == Items(sent) + [item]
    ensures Items(sent + [Handled]) == Items(sent)
  {
    assert (sent + [Started(item, finish)])[..|sent|] == sent;
    assert (sent + [Handled])[..|sent|] == sent;
  }

  lemma StartAlternates(sent: seq<Sent>, item: Item, finish: bool)
    requires Alternates(sent) && |sent| % 2 == 0
    ensures Alternates(sent + [Started(item, finish)]) && |sent + [Started(item, finish)]| % 2 == 1
  {
    assert (sent + [Started(item, finish)])[..|sent|] == sent;
  }

  lemma OrderedFinish(r: RpcState, item: Item, queue: seq<Item>)
    requires Ordered(r.(sendQueue := [item] + queue)) && !Busy(r)
    requires item.Status? || !StreamsResponses(r.kind)
    ensures Ordered(PerformFinish(r.(sendQueue := queue), item))
  {
    ItemsStart(r.sent, item, true);
    StartAlternates(r.sent, item, true);
    assert Items(r.sent) + [item] + queue == Items(r.sent) + ([item] + queue);
  }

  lemma OrderedWrite(r: RpcState, m: Msg, queue: seq<Item>)
    requires Ordered(r.(sendQueue := [Message(m)] + queue)) && !Busy(r) && StreamsResponses(r.kind)
    ensures Ordered(PerformWrite(r.(sendQueue := queue), m))
  {
    ItemsStart(r.sent, Message(m), false);
    StartAlternates(r.sent, Message(m), false);
    assert Items(r.sent) + [Message(m)] + queue == Items(r.sent) + ([Message(m)] + queue);
  }

  lemma OrderedSendQueue(r: RpcState)
    requires Ordered(r)
    ensures Ordered(HandleSendQueue(r))
    ensures r.sendQueue != [] ==> Busy(HandleSendQueue(r))
    ensures r.sendQueue == [] ==> HandleSendQueue(r) == r
  {
    if r.sendQueue != [] && !Busy(r) {
      var item := r.sendQueue[0];
      assert r.sendQueue == [item] + r.sendQueue[1..];
      if item.Status? || !StreamsResponses(r.kind) {
        OrderedFinish(r, item, r.sendQueue[1..]);
      } else {
        OrderedWrite(r, item.msg, r.sendQueue[1..]);
      }
    }
  }

  lemma OrderedClear(r: RpcState, tag: Tag)
    requires Ordered(r) && tag in r.pending
    ensures Ordered(Clear(r, tag))
  {
    ItemsStart(r.sent, Status, true);
    if tag == Write || tag == Finish {
      assert Clear(r, tag).sent[..|r.sent|] == r.sent;
    }
  }

  lemma OrderedEnqueue(r: RpcState, items: seq<Item>)
    requires Ordered(r)
    ensures Ordered(Enqueue(r, items))
  {
    assert Items(r.sent) + (r.sendQueue + items) == r.enqueued + items;
  }

  lemma OrderedBegun(r: RpcState, e: Event)
    requires Ordered(r) && (e.Completed? ==> e.tag in r.pending)
    ensures Ordered(Begun(r, e))
  {
    match e {
      case WriteNeeded => OrderedSendQueue(r);
      case Completed(tag, ok) =>
        OrderedClear(r, tag);
        if tag == Write { OrderedSendQueue(Clear(r, tag)); }
    }
  }

  lemma HeadPending(c: Conn)
    requires Alive(c) && c.inbox != []
    ensures c.inbox[0].Completed? ==> c.inbox[0].tag in c.r.pending
  {
    if NewConnection !in c.r.pending { HeadNotAccept(c); }
  }

  lemma FinishStays(a: seq<Sent>, b: seq<Sent>)
    requires a <= b && FinishStarted(a)
    ensures FinishStarted(b)
  {
    var i :| 0 <= i < |a| && a[i].Started? && a[i].finish;
    assert b[i] == a[i];
  }

  lemma FinishPendingStarted(r: RpcState)
    requires Ordered(r) && Finish in r.pending
    ensures FinishStarted(r.sent)
  {
    assert r.sent[|r.sent| - 1].finish;
  }

  /** The event thread looks at the send queue exactly when it takes a wake-up away or ends a WRITE. */
  lemma AwakeBegin(c: Conn, shutting: bool)
    requires SendInv(c) && Can(c, shutting, Begin) && Do(c, shutting, Begin).Some?
    ensures Awake(Do(c, shutting, Begin).value)
  {
    var c' := Do(c, shutting, Begin).value;
    var e := c.inbox[0];
    HeadPending(c);
    if Finish in c.r.pending { FinishPendingStarted(c.r); }
    if FinishStarted(c.r.sent) {
      FinishStays(c.r.sent, c'.r.sent);
    } else if e.WriteNeeded? {
      OrderedSendQueue(c.r);
    } else if e.tag == Write {
      OrderedClear(c.r, Write);
      OrderedSendQueue(Clear(c.r, Write));
    }
  }

  /** No step, by gRPC, the event thread, a handler or another thread, breaks the order of the stream,
      overwrites a message in flight or loses a wake-up. */
  lemma SendStep(c: Conn, shutting: bool, st: Step)
    requires SendInv(c) && Can(c, shutting, st)
    ensures Do(c, shutting, st).Some? ==> SendInv(Do(c, shutting, st).value)
  {
    AliveStep(c, shutting, st);
    match st {
      case Complete(tag, ok) => CountSnoc(c.inbox, Completed(tag, ok), Read);
      case Begin =>
        HeadPending(c);
        OrderedBegun(c.r, c.inbox[0]);
        if Do(c, shutting, st).Some? { AwakeBegin(c, shutting); }
      case End =>
      case HandlerEnqueues(item) => OrderedEnqueue(c.r, [item]);
      case ProducerEnqueues(item) => OrderedEnqueue(c.r, [item]);
      case ProducerEnters =>
      case HandlerPushes => CountSnoc(c.inbox, WriteNeeded, Read);
      case ProducerPushes => CountSnoc(c.inbox, WriteNeeded, Read);
    }
  }

  // ---------- runs ----------

  /** A step together with whether the server was shutting down when it was taken. */
  datatype Timed = Timed(step: Step, shutting: bool)

  /** A run of one Rpc that is still active at its end. */
  predicate Run(c: Conn, steps: seq<Timed>, last: Conn)
    decreases |steps|
  {
    if steps == [] then c == last
    else
      && Can(c, steps[0].shutting, steps[0].step)
      && Do(c, steps[0].shutting, steps[0].step).Some?
      && Run(Do(c, steps[0].shutting, steps[0].step).value, steps[1..], last)
  }

  predicate Fresh(c: Conn) { c == NewConn(Clone(c.r, c.r.eq)) }

  lemma FreshInv(c: Conn)
    requires Fresh(c)
    ensures SendInv(c)
  {
  }

  lemma {:induction false} SendRun(c: Conn, steps: seq<Timed>, last: Conn)
    requires SendInv(c) && Run(c, steps, last)
    ensures SendInv(last)
    decreases |steps|
  {
    if steps != [] {
      SendStep(c, steps[0].shutting, steps[0].step);
      SendRun(Do(c, steps[0].shutting, steps[0].step).value, steps[1..], last);
    }
  }

  /** In every reachable state of an active Rpc: the transport got a prefix of what was written, in
      order; a started operation is followed by its handled completion before the next one starts,
      so that never both a WRITE and a FINISH are in flight; and response_ still holds the message
      in flight. */
  lemma StreamInOrder(c: Conn, steps: seq<Timed>, last: Conn)
    requires Fresh(c) && Run(c, steps, last)
    ensures Items(last.r.sent) + last.r.sendQueue == last.r.enqueued
    ensures Alternates(last.r.sent) && InFlightOk(last.r) && RightOperations(last.r)
    ensures Busy(last.r) <==> |last.r.sent| % 2 == 1
    ensures !(Write in last.r.pending && Finish in last.r.pending)
  {
    FreshInv(c);
    SendRun(c, steps, last);
  }

  lemma {:induction false} NeededIn(inbox: seq<Event>)
    ensures CountNeeded(inbox) > 0 ==> WriteNeeded in inbox
  {
    if inbox != [] { NeededIn(inbox[1..]); }
  }

  /** No lost wake-up: while no Finish was started, a non-empty send queue with no WRITE in flight implies
      that a WRITE_NEEDED is queued or about to be pushed by a thread inside Write or Finish. */
  lemma NoLostWakeup(c: Conn, steps: seq<Timed>, last: Conn)
    requires Fresh(c) && Run(c, steps, last)
    requires last.r.sendQueue != [] && Write !in last.r.pending && !FinishStarted(last.r.sent)
    ensures WriteNeeded in last.inbox || last.midway > 0 || (last.phase.Handling? && last.phase.due)
  {
    FreshInv(c);
    SendRun(c, steps, last);
    NeededIn(last.inbox);
    if Finish in last.r.pending { FinishPendingStarted(last.r); }
  }

  // ---------- streaming handlers ----------

  /** The streaming handler of src/server/grpc_handler/file_handler.h: one Send per request, one Finish when
      the reads are done, no Writer given away. */
  predicate StreamHandler(c: Conn, st: Step) {
    match st
    case HandlerEnqueues(item) =>
      && c.phase.Handling? && c.phase.made == []
      && (|| (c.phase.e == Completed(Read, true) && item.Message?)
          || (c.phase.e == Completed(Read, false) && item == Status))
    case ProducerEnters => false
    case ProducerEnqueues(_) => false
    case ProducerPushes => false
    case _ => true
  }

  /** The handler may still have something to send. */
  predicate ReadsOpen(c: Conn) {
    || NewConnection in c.r.pending || Read in c.r.pending
    || (c.phase.Handling? && (c.phase.e == Completed(Read, true)
                              || (c.phase.e == Completed(Read, false) && c.phase.made == [])))
  }

  /** Messages, then at most one final status; and that only once the reads are over. */
  predicate StreamShape(c: Conn) {
    && (forall i :: 0 <= i < |c.r.enqueued| - 1 ==> c.r.enqueued[i].Message?)
    && (ReadsOpen(c) ==> forall i :: 0 <= i < |c.r.enqueued| ==> c.r.enqueued[i].Message?)
    && (c.phase.Handling? && c.phase.e == Completed(Read, false) ==> Read !in c.r.pending)
    && StreamsRequests(c.r.kind)
  }

  lemma BegunKeeps(r: RpcState, e: Event)
    ensures Begun(r, e).enqueued == r.enqueued
    ensures Begun(r, e).kind == r.kind
  {
  }

  lemma StreamShapeBegin(c: Conn, shutting: bool)
    requires SendInv(c) && StreamShape(c) && Can(c, shutting, Begin)
    ensures Do(c, shutting, Begin).Some? ==>
              StreamShape(Do(c, shutting, Begin).value) && Do(c, shutting, Begin).value.r.kind == c.r.kind
  {
    HeadPending(c);
    BegunKeeps(c.r, c.inbox[0]);
    BegunPending(c.r, c.inbox[0]);
  }

  lemma StreamShapeStep(c: Conn, shutting: bool, st: Step)
    requires SendInv(c) && StreamShape(c) && Can(c, shutting, st) && StreamHandler(c, st)
    ensures Do(c, shutting, st).Some? ==>
              StreamShape(Do(c, shutting, st).value) && Do(c, shutting, st).value.r.kind == c.r.kind
  {
    if st.Begin? { StreamShapeBegin(c, shutting); }
  }

  predicate StreamRun(c: Conn, steps: seq<Timed>, last: Conn)
    decreases |steps|
  {
    if steps == [] then c == last
    else
      && Can(c, steps[0].shutting, steps[0].step) && StreamHandler(c, steps[0].step)
      && Do(c, steps[0].shutting, steps[0].step).Some?
      && StreamRun(Do(c, steps[0].shutting, steps[0].step).value, steps[1..], last)
  }

  lemma {:induction false} StreamRunInv(c: Conn, steps: seq<Timed>, last: Conn)
    requires SendInv(c) && StreamShape(c) && StreamRun(c, steps, last)
    ensures SendInv(last) && StreamShape(last) && last.r.kind == c.r.kind
    decreases |steps|
  {
    if steps != [] {
      SendStep(c, steps[0].shutting, steps[0].step);
      StreamShapeStep(c, steps[0].shutting, steps[0].step);
      StreamRunInv(Do(c, steps[0].shutting, steps[0].step).value, steps[1..], last);
    }
  }

  /** m1, ..., mk, Finish: every operation before the last is a write of a message, and a status is only
      ever the last. */
  predicate MessagesThenFinish(items: seq<Item>) {
    forall i :: 0 <= i < |items| - 1 ==> items[i].Message?
  }

  /** Only messages, then the Finish, reach the transport, and once it was started nothing is left. */
  predicate InStreamOrder(r: RpcState) {
    && MessagesThenFinish(r.enqueued) && Items(r.sent) <= r.enqueued
    && (Status in Items(r.sent) ==> Items(r.sent) == r.enqueued && r.sendQueue == [])
  }

  lemma ShapeGivesOrder(r: RpcState)
    requires Ordered(r) && MessagesThenFinish(r.enqueued)
    ensures InStreamOrder(r)
  {
    var out, all := Items(r.sent), r.enqueued;
    assert all[..|out|] == out;
    if Status in out {
      var i :| 0 <= i < |out| && out[i] == Status;
      assert all[i] == Status;
    }
  }

  /** A bidirectional stream with that handler: the operations given to the transport are always a prefix
      of m1, ..., mk, Finish, and once the Finish was started nothing is left to send. */
  lemma BidiStreamOrder(c: Conn, steps: seq<Timed>, last: Conn)
    requires Fresh(c) && c.r.kind == BidiStreaming && StreamRun(c, steps, last)
    ensures InStreamOrder(last.r) && RightOperations(last.r)
  {
    FreshInv(c);
    StreamRunInv(c, steps, last);
    ShapeGivesOrder(last.r);
  }

  // ---------- unary handlers ----------

  /** A unary handler sends its response in OnRequest and finishes in OnReadsDone; both run while the
      connection is handled. */
  predicate UnaryHandler(c: Conn, st: Step, m: Msg) {
    match st
    case HandlerEnqueues(item) =>
      && c.phase.Handling? && c.phase.e == Completed(NewConnection, true)
      && |c.phase.made| < 2 && item == [Message(m), Status][|c.phase.made|]
    case End => c.phase.Handling? && (c.phase.e == Completed(NewConnection, true) ==> |c.phase.made| == 2)
    case ProducerEnters => false
    case ProducerEnqueues(_) => false
    case ProducerPushes => false
    case _ => true
  }

  /** No wake-up is queued behind the completion of FINISH. */
  predicate NeededFirst(inbox: seq<Event>) {
    forall i, j :: 0 <= i < j < |inbox| && inbox[i].Completed? && inbox[i].tag == Finish ==> inbox[j].Completed?
  }

  /** The handler is at work: what it has made so far is queued, and each call but one due has been pushed. */
  predicate UnaryHandling(c: Conn, m: Msg) {
    && c.phase.Handling? && c.r.sent == [] && c.r.sendQueue == c.phase.made
    && (c.phase.made == [] || c.phase.made == [Message(m)] || c.phase.made == [Message(m), Status])
    && CountNeeded(c.inbox) + DueOf(c.phase) == |c.phase.made|
  }

  /** It has made its calls: both items queued; or the response on its way, at most one wake-up left and that before
      the completion; or answered, with no wake-up left. */
  predicate UnaryHandled(c: Conn, m: Msg) {
    if c.r.sent == [] then
      c.r.sendQueue == [Message(m), Status] && CountNeeded(c.inbox) == 2
    else if c.r.sent == [Started(Message(m), true)] then
      c.r.sendQueue == [Status] && CountNeeded(c.inbox) <= 1 && NeededFirst(c.inbox)
    else
      c.r.sent == [Started(Message(m), true), Handled] && c.r.sendQueue == [Status] && CountNeeded(c.inbox) == 0
  }

  /** The phases of a unary call: not connected, the handler at work, and afterwards. */
  predicate UnaryInv(c: Conn, m: Msg) {
    && c.r.kind == NormalRpc
    && if NewConnection in c.r.pending then true
       else if c.phase.Handling? && IsAccept(c.phase.e) then c.phase.e.ok && UnaryHandling(c, m)
       else DueOf(c.phase) == 0 && UnaryHandled(c, m)
  }

  lemma {:induction false} NoNeeded(inbox: seq<Event>)
    requires forall i :: 0 <= i < |inbox| ==> inbox[i].Completed?
    ensures CountNeeded(inbox) == 0
  {
    if inbox != [] { NoNeeded(inbox[1..]); }
  }

  lemma FinishNotYet(c: Conn)
    requires Connected(c) && Finish !in c.r.pending
    requires c.inbox != []
    ensures NeededFirst(c.inbox) && NeededFirst(c.inbox[1..])
  {
    assert Held(c, Finish) == 0;
    forall i | 0 <= i < |c.inbox| && c.inbox[i].Completed? ensures c.inbox[i].tag != Finish {
      CountIn(c.inbox, c.inbox[i]);
    }
  }

  lemma AllCompleted(inbox: seq<Event>)
    requires inbox != [] && NeededFirst(inbox) && inbox[0].Completed? && inbox[0].tag == Finish
    ensures CountNeeded(inbox[1..]) == 0
  {
    forall j | 0 <= j < |inbox[1..]| ensures inbox[1..][j].Completed? {
      assert inbox[1..][j] == inbox[j + 1];
    }
    NoNeeded(inbox[1..]);
  }

  lemma UnaryComplete(c: Conn, shutting: bool, tag: Tag, ok: bool, m: Msg)
    requires SendInv(c) && UnaryInv(c, m) && Can(c, shutting, Complete(tag, ok))
    ensures UnaryInv(Do(c, shutting, Complete(tag, ok)).value, m)
  {
    CountSnoc(c.inbox, Completed(tag, ok), Read);
  }

  lemma UnaryConnect(c: Conn, shutting: bool, m: Msg)
    requires SendInv(c) && UnaryInv(c, m) && NewConnection in c.r.pending && Can(c, shutting, Begin)
    ensures Do(c, shutting, Begin).Some? ==> UnaryInv(Do(c, shutting, Begin).value, m)
  {
    NoNeeded(c.inbox);
  }

  lemma UnaryWake(c: Conn, shutting: bool, m: Msg)
    requires SendInv(c) && UnaryInv(c, m) && NewConnection !in c.r.pending
    requires Can(c, shutting, Begin) && c.inbox[0].WriteNeeded?
    ensures Do(c, shutting, Begin).Some? ==> UnaryInv(Do(c, shutting, Begin).value, m)
  {
    if c.r.sent == [] { FinishNotYet(c); }
  }

  lemma UnaryOther(c: Conn, shutting: bool, m: Msg)
    requires SendInv(c) && UnaryInv(c, m) && NewConnection !in c.r.pending
    requires Can(c, shutting, Begin) && c.inbox[0].Completed?
    ensures Do(c, shutting, Begin).Some? ==> UnaryInv(Do(c, shutting, Begin).value, m)
  {
    HeadNotAccept(c);
    if c.inbox[0].tag == Finish { AllCompleted(c.inbox); }
  }

  /** The handler's calls, one access at a time. */
  lemma UnaryCalls(c: Conn, shutting: bool, st: Step, m: Msg)
    requires SendInv(c) && UnaryInv(c, m) && Can(c, shutting, st) && UnaryHandler(c, st, m)
    requires st.HandlerEnqueues? || st.HandlerPushes?
    ensures UnaryInv(Do(c, shutting, st).value, m)
  {
    if st.HandlerPushes? { CountSnoc(c.inbox, WriteNeeded, Read); }
  }

  lemma UnaryStep(c: Conn, shutting: bool, st: Step, m: Msg)
    requires SendInv(c) && UnaryInv(c, m) && Can(c, shutting, st) && UnaryHandler(c, st, m)
    ensures Do(c, shutting, st).Some? ==> UnaryInv(Do(c, shutting, st).value, m)
  {
    match st {
      case Complete(tag, ok) => UnaryComplete(c, shutting, tag, ok, m);
      case Begin =>
        if NewConnection in c.r.pending {
          UnaryConnect(c, shutting, m);
        } else if c.inbox[0].WriteNeeded? {
          UnaryWake(c, shutting, m);
        } else {
          UnaryOther(c, shutting, m);
        }
      case End =>
      case _ => UnaryCalls(c, shutting, st, m);
    }
  }

  predicate UnaryRun(c: Conn, steps: seq<Timed>, last: Conn, m: Msg)
    decreases |steps|
  {
    if steps == [] then c == last
    else
      && Can(c, steps[0].shutting, steps[0].step) && UnaryHandler(c, steps[0].step, m)
      && Do(c, steps[0].shutting, steps[0].step).Some?
      && UnaryRun(Do(c, steps[0].shutting, steps[0].step).value, steps[1..], last, m)
  }

  lemma {:induction false} UnaryRunInv(c: Conn, steps: seq<Timed>, last: Conn, m: Msg)
    requires SendInv(c) && UnaryInv(c, m) && UnaryRun(c, steps, last, m)
    ensures SendInv(last) && UnaryInv(last, m)
    decreases |steps|
  {
    if steps != [] {
      SendStep(c, steps[0].shutting, steps[0].step);
      UnaryStep(c, steps[0].shutting, steps[0].step, m);
      UnaryRunInv(Do(c, steps[0].shutting, steps[0].step).value, steps[1..], last, m);
    }
  }

  /** At most one transport operation: a Finish that carries the response m.  The status queued behind it
      never leaves the send queue. */
  predicate AnswersOnce(r: RpcState, m: Msg) {
    && (Items(r.sent) == [] || Items(r.sent) == [Message(m)])
    && (forall i :: 0 <= i < |r.sent| && r.sent[i].Started? ==> i == 0 && r.sent[i].finish)
    && (Finish in r.pending ==> r.response == Some(m))
    && (r.sent != [] ==> r.sendQueue == [Status])
  }

  lemma UnaryItems(m: Msg)
    ensures Items([]) == [] && Items([Started(Message(m), true)]) == [Message(m)]
    ensures Items([Started(Message(m), true), Handled]) == [Message(m)]
  {
    var a, b := [Started(Message(m), true)], [Started(Message(m), true), Handled];
    assert a[..0] == [] && b[..1] == a;
    assert Items(a) == Items([]) + [Message(m)] && Items(b) == Items(a) + [];
  }

  lemma UnarySent(c: Conn, m: Msg)
    requires SendInv(c) && UnaryInv(c, m)
    ensures || c.r.sent == [] || c.r.sent == [Started(Message(m), true)]
            || c.r.sent == [Started(Message(m), true), Handled]
    ensures c.r.sent != [] ==> c.r.sendQueue == [Status]
    ensures Finish in c.r.pending ==> c.r.sent == [Started(Message(m), true)]
  {
  }

  lemma UnaryGivesOnce(c: Conn, m: Msg)
    requires SendInv(c) && UnaryInv(c, m)
    ensures AnswersOnce(c.r, m)
  {
    UnaryItems(m);
    UnarySent(c, m);
    assert Finish in c.r.pending ==> c.r.response == Some(m) by {
      assert InFlightOk(c.r) && !StreamsResponses(c.r.kind);
    }
  }

  /** A unary call starts at most one transport operation in its life, wherever DONE lands, and wherever gRPC and the
      handler's two calls fall in between each other. */
  lemma UnaryFinishesOnce(c: Conn, steps: seq<Timed>, last: Conn, m: Msg)
    requires Fresh(c) && c.r.kind == NormalRpc && UnaryRun(c, steps, last, m)
    ensures AnswersOnce(last.r, m)
  {
    FreshInv(c);
    UnaryRunInv(c, steps, last, m);
    UnaryGivesOnce(last, m);
  }
}
