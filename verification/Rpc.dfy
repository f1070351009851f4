/** One server-side Rpc of src/async_grpc/rpc.cc as an automaton: its own fields together with its share
    of the event queue and of the tags gRPC holds.

    gRPC is the environment: it returns every tag it was given once, NEW_CONNECTION first, and DONE only
    for a connection that was accepted.  Handler code is the environment too: it may call Write and Finish while
    the event thread runs it.  Other threads may lock the Rpc and be inside Write or Finish at any time.  Every
    access to something shared is one step. */
module Rpc {
  import opened Options

  type Msg = string

  datatype RpcType = NormalRpc | ClientStreaming | ServerStreaming | BidiStreaming

  /** The five completion tags of an Rpc. */
  datatype Tag = NewConnection | Read | Write | Finish | Done

  /** A SendItem: a message, or a null message with the final status. */
  datatype Item = Message(msg: Msg) | Status

  datatype Event = Completed(tag: Tag, ok: bool) | WriteNeeded

  /** History of the send side: operations given to the transport, and their completions handled. */
  datatype Sent = Started(item: Item, finish: bool) | Handled

  /** The fields of Rpc; `pending` is the set of tags whose pending flag is set.  `enqueued` and `sent`
      are history: every item ever put in the send queue, and what became of them. */
  datatype RpcState = RpcState(
    kind: RpcType, method_: nat, cq: nat, eq: nat,
    pending: set<Tag>, sendQueue: seq<Item>, response: Option<Msg>,
    enqueued: seq<Item>, sent: seq<Sent>)

  predicate StreamsRequests(kind: RpcType) { kind == BidiStreaming || kind == ClientStreaming }
  predicate StreamsResponses(kind: RpcType) { kind == BidiStreaming || kind == ServerStreaming }

  // ---------- the operations of Rpc ----------

  /** A new Rpc after RequestNextMethodInvocation. */
  function NewRpc(kind: RpcType, method_: nat, cq: nat, eq: nat): RpcState {
    RpcState(kind, method_, cq, eq, {NewConnection, Done}, [], None, [], [])
  }

  function Clone(r: RpcState, eq: nat): RpcState { NewRpc(r.kind, r.method_, r.cq, eq) }

  /** EnqueueMessage, for a sequence of Write and Finish calls. */
  function Enqueue(r: RpcState, items: seq<Item>): RpcState {
    r.(sendQueue := r.sendQueue + items, enqueued := r.enqueued + items)
  }

  function StartRead(r: RpcState): RpcState { r.(pending := r.pending + {Read}) }

  function PerformFinish(r: RpcState, item: Item): RpcState {
    r.(pending := r.pending + {Finish},
       response := if StreamsResponses(r.kind) then r.response
                   else if item.Message? then Some(item.msg) else None,
       sent := r.sent + [Started(item, true)])
  }

  function PerformWrite(r: RpcState, msg: Msg): RpcState {
    r.(pending := r.pending + {Write}, response := Some(msg), sent := r.sent + [Started(Message(msg), false)])
  }

  predicate Busy(r: RpcState) { Write in r.pending || Finish in r.pending }

  function HandleSendQueue(r: RpcState): RpcState {
    if r.sendQueue == [] || Busy(r) then r
    else
      var item, popped := r.sendQueue[0], r.(sendQueue := r.sendQueue[1..]);
      if item.Status? || !StreamsResponses(r.kind) then PerformFinish(popped, item)
      else PerformWrite(popped, item.msg)
  }

  /** IsAnyEventPending does not look at NEW_CONNECTION. */
  predicate AnyEventPending(r: RpcState) {
    Done in r.pending || Read in r.pending || Write in r.pending || Finish in r.pending
  }

  // ---------- handling one event ----------

  /** CompletionQueueRpcEvent::Handle clears the flag before anything else. */
  function Clear(r: RpcState, tag: Tag): RpcState {
    r.(pending := r.pending - {tag},
       sent := if tag == Write || tag == Finish then r.sent + [Handled] else r.sent)
  }

  predicate IsAccept(e: Event) { e.Completed? && e.tag == NewConnection }

  /** Only these events run handler code that can call Write or Finish. */
  predicate RunsHandler(kind: RpcType, e: Event) {
    e.Completed? && (e.tag == Read || e.tag == Finish || (e.tag == NewConnection && e.ok && !StreamsRequests(kind)))
  }

  /** The Rpc after the event thread began with e, up to where handler code runs. */
  function Begun(r: RpcState, e: Event): RpcState {
    match e
    case WriteNeeded => HandleSendQueue(r)
    case Completed(tag, ok) =>
      if tag == Write then HandleSendQueue(Clear(r, tag))
      else if tag == NewConnection && StreamsRequests(r.kind) then StartRead(Clear(r, tag))
      else Clear(r, tag)
  }

  /** And after it ended with e. */
  function Ended(r: RpcState, e: Event): RpcState {
    if e == Completed(Read, true) && StreamsRequests(r.kind) then StartRead(r) else r
  }

  /** Whether ActiveRpcs lets go of the Rpc then. */
  predicate LetsGo(r: RpcState, e: Event) {
    match e
    case WriteNeeded => !AnyEventPending(r)
    case Completed(tag, ok) => tag != NewConnection && !(tag == Read && ok) && !AnyEventPending(r)
  }

  /** The pending flags right after the event's own was cleared. */
  function Remaining(r: RpcState, e: Event): set<Tag> {
    if e.Completed? then r.pending - {e.tag} else r.pending
  }

  /** The tags handed to gRPC when the event thread begins and when it ends with e. */
  function StartedAtBegin(r: RpcState, e: Event): set<Tag> { Begun(r, e).pending - Remaining(r, e) }
  function StartedAtEnd(r: RpcState, e: Event): set<Tag> { Ended(r, e).pending - r.pending }

  // ---------- the automaton ----------

  /** What the event thread is doing with the Rpc.  `made` are the calls of Write and Finish its handler has made
      for this event; `due`: the last of them has not pushed its wake-up yet. */
  datatype Phase = Idle | Handling(e: Event, made: seq<Item>, due: bool)

  /** An Rpc, its events in queue order, the tags gRPC holds for it, how many other threads have locked it to write
      and how many of those are between EnqueueMessage and the push of WRITE_NEEDED, and the event thread. */
  datatype Conn = Conn(
    r: RpcState, inbox: seq<Event>, transport: set<Tag>, entered: nat, midway: nat, phase: Phase)

  function NewConn(r: RpcState): Conn { Conn(r, [], {NewConnection}, 0, 0, Idle) }

  datatype Step =
    | Complete(tag: Tag, ok: bool)                                          // gRPC
    | Begin | HandlerEnqueues(item: Item) | HandlerPushes | End             // the event thread
    | ProducerEnters | ProducerEnqueues(item: Item) | ProducerPushes        // other threads

  predicate Can(c: Conn, shutting: bool, st: Step) {
    match st
    case Complete(tag, ok) => tag in c.transport
    // accepts succeed while serving and fail once shutting down
    case Begin =>
      && c.phase == Idle && c.inbox != []
      && (IsAccept(c.inbox[0]) ==> c.inbox[0].ok == !shutting)
    case HandlerEnqueues(_) => c.phase.Handling? && !c.phase.due && RunsHandler(c.r.kind, c.phase.e)
    case HandlerPushes => c.phase.Handling? && c.phase.due
    case End => c.phase.Handling? && !c.phase.due
    // a handler, and with it a Writer, exists only after the connection
    case ProducerEnters => NewConnection !in c.r.pending
    case ProducerEnqueues(_) => c.entered > 0
    case ProducerPushes => c.midway > 0
  }

  /** None: the Rpc is gone. */
  function Do(c: Conn, shutting: bool, st: Step): Option<Conn>
    requires Can(c, shutting, st)
  {
    match st
    case Complete(tag, ok) =>
      var more := if tag == NewConnection && ok then {Done} else {};
      Some(c.(inbox := c.inbox + [Completed(tag, ok)], transport := c.transport - {tag} + more))
    case Begin =>
      var e := c.inbox[0];
      if IsAccept(e) && shutting then None
      else Some(c.(r := Begun(c.r, e), inbox := c.inbox[1..], transport := c.transport + StartedAtBegin(c.r, e),
                   phase := Handling(e, [], false)))
    case HandlerEnqueues(item) =>
      Some(c.(r := Enqueue(c.r, [item]), phase := Handling(c.phase.e, c.phase.made + [item], true)))
    case HandlerPushes => Some(c.(inbox := c.inbox + [WriteNeeded], phase := c.phase.(due := false)))
    case End =>
      var e := c.phase.e;
      if LetsGo(c.r, e) then None
      else Some(c.(r := Ended(c.r, e), transport := c.transport + StartedAtEnd(c.r, e), phase := Idle))
    case ProducerEnters => Some(c.(entered := c.entered + 1))
    case ProducerEnqueues(item) =>
      Some(c.(r := Enqueue(c.r, [item]), entered := c.entered - 1, midway := c.midway + 1))
    case ProducerPushes => Some(c.(inbox := c.inbox + [WriteNeeded], midway := c.midway - 1))
  }

  // ---------- counting ----------

  function Count(inbox: seq<Event>, tag: Tag): nat {
    if inbox == [] then 0
    else (if inbox[0].Completed? && inbox[0].tag == tag then 1 else 0) + Count(inbox[1..], tag)
  }

  function CountNeeded(inbox: seq<Event>): nat {
    if inbox == [] then 0 else (if inbox[0].WriteNeeded? then 1 else 0) + CountNeeded(inbox[1..])
  }

  lemma {:induction false} CountConcat(a: seq<Event>, b: seq<Event>, tag: Tag)
    ensures Count(a + b, tag) == Count(a, tag) + Count(b, tag)
    ensures CountNeeded(a + b) == CountNeeded(a) + CountNeeded(b)
  {
    if a == [] {
      assert a + b == b;
    } else {
      assert (a + b)[1..] == a[1..] + b;
      CountConcat(a[1..], b, tag);
    }
  }

  lemma CountSnoc(inbox: seq<Event>, e: Event, tag: Tag)
    ensures Count(inbox + [e], tag) == Count(inbox, tag) + if e.Completed? && e.tag == tag then 1 else 0
    ensures CountNeeded(inbox + [e]) == CountNeeded(inbox) + if e.WriteNeeded? then 1 else 0
  {
    CountConcat(inbox, [e], tag);
    assert [e][1..] == [];
    assert Count([e][1..], tag) == 0 && CountNeeded([e][1..]) == 0;
  }

  lemma {:induction false} CountIn(inbox: seq<Event>, e: Event)
    requires e in inbox && e.Completed?
    ensures Count(inbox, e.tag) >= 1
  {
    if inbox[0] != e { CountIn(inbox[1..], e); }
  }

  /** Copies of a tag in gRPC's hands or in the queue. */
  function Held(c: Conn, tag: Tag): nat {
    (if tag in c.transport then 1 else 0) + Count(c.inbox, tag)
  }

  // ---------- the lifetime invariant ----------

  /** Before the connection: the accept is with gRPC, or its result is the next event. */
  predicate Connecting(c: Conn) {
    && c.r.pending == {NewConnection, Done} && c.phase == Idle
    && c.r.sendQueue == [] && c.r.enqueued == [] && c.r.sent == [] && c.entered == 0 && c.midway == 0
    && ( || (c.transport == {NewConnection} && c.inbox == [])
         || (c.transport == {Done} && c.inbox == [Completed(NewConnection, true)])
         || (c.transport == {} && |c.inbox| == 2 && c.inbox[0] == Completed(NewConnection, true)
             && c.inbox[1].Completed? && c.inbox[1].tag == Done)
         || (c.transport == {} && c.inbox == [Completed(NewConnection, false)]))
  }

  /** Exactly the tags with a set pending flag are held, each once. */
  predicate HeldOnce(c: Conn) { forall tag :: Held(c, tag) == if tag in c.r.pending then 1 else 0 }

  /** Afterwards: that, and between two events at least one is. */
  predicate Connected(c: Conn) {
    && NewConnection !in c.r.pending && HeldOnce(c)
    && (c.phase == Idle ==> AnyEventPending(c.r))
    && (c.phase.Handling? && c.phase.e == Completed(Read, true) ==> Read !in c.r.pending && StreamsRequests(c.r.kind))
    && (c.phase.Handling? && IsAccept(c.phase.e) ==> Done in c.r.pending)
    && (Read in c.r.pending ==> StreamsRequests(c.r.kind))
  }

  predicate Alive(c: Conn) { if NewConnection in c.r.pending then Connecting(c) else Connected(c) }

  /** Nothing of this Rpc is with gRPC or queued, except wake-ups, which hold it only weakly. */
  predicate Released(inbox: seq<Event>, transport: set<Tag>) {
    transport == {} && forall e :: e in inbox ==> e == WriteNeeded
  }

  /** What is left of the events when a step makes the Rpc go. */
  function LeftBy(c: Conn, st: Step): seq<Event>
    requires st.Begin? ==> c.inbox != []
  {
    if st.Begin? then c.inbox[1..] else c.inbox
  }

  lemma AliveComplete(c: Conn, shutting: bool, tag: Tag, ok: bool)
    requires Alive(c) && Can(c, shutting, Complete(tag, ok))
    ensures Alive(Do(c, shutting, Complete(tag, ok)).value)
  {
    var c' := Do(c, shutting, Complete(tag, ok)).value;
    if NewConnection !in c.r.pending {
      assert Held(c, NewConnection) == 0;
      forall t ensures Held(c', t) == if t in c.r.pending then 1 else 0 {
        assert Held(c, t) == if t in c.r.pending then 1 else 0;
        CountSnoc(c.inbox, Completed(tag, ok), t);
      }
    }
  }

  predicate Quiet(st: Step) {
    st.HandlerEnqueues? || st.HandlerPushes? || st.ProducerEnters? || st.ProducerEnqueues? || st.ProducerPushes?
  }

  /** Calls of Write and Finish, whoever makes them, hold no tags. */
  lemma AliveQuiet(c: Conn, shutting: bool, st: Step)
    requires Alive(c) && Can(c, shutting, st) && Quiet(st)
    ensures Alive(Do(c, shutting, st).value)
  {
    var c' := Do(c, shutting, st).value;
    forall t ensures Held(c', t) == Held(c, t) {
      if st.ProducerPushes? || st.HandlerPushes? { CountSnoc(c.inbox, WriteNeeded, t); }
    }
    if NewConnection !in c.r.pending {
      forall t ensures Held(c', t) == if t in c'.r.pending then 1 else 0 {
        assert Held(c, t) == if t in c.r.pending then 1 else 0;
      }
    }
  }

  lemma HeadNotAccept(c: Conn)
    requires Connected(c) && c.inbox != []
    ensures c.inbox[0].Completed? ==> c.inbox[0].tag in c.r.pending && c.inbox[0].tag != NewConnection
  {
    if c.inbox[0].Completed? {
      assert Held(c, c.inbox[0].tag) >= 1;
    }
  }

  /** With the head gone, what is held is what was pending besides it. */
  lemma PopHeld(c: Conn, tag: Tag)
    requires Connected(c) && c.inbox != []
    ensures (if tag in c.transport then 1 else 0) + Count(c.inbox[1..], tag)
            == if tag in Remaining(c.r, c.inbox[0]) then 1 else 0
  {
    HeadNotAccept(c);
    assert Held(c, tag) == if tag in c.r.pending then 1 else 0;
  }

  /** Beginning with an event only ever sets flags besides clearing its own, and never those of NEW_CONNECTION
      and DONE. */
  lemma BegunPending(r: RpcState, e: Event)
    ensures var after := Begun(r, e);
            && Remaining(r, e) <= after.pending <= Remaining(r, e) + {Read, Write, Finish}
            && (Read in after.pending ==> Read in Remaining(r, e) || (IsAccept(e) && StreamsRequests(r.kind)))
            && after.kind == r.kind && after.method_ == r.method_ && after.cq == r.cq && after.eq == r.eq
  {
  }

  lemma AliveBeginConnected(c: Conn, shutting: bool)
    requires Connected(c) && Can(c, shutting, Begin)
    ensures Do(c, shutting, Begin).Some? && Connected(Do(c, shutting, Begin).value)
  {
    var e := c.inbox[0];
    HeadNotAccept(c);
    BegunPending(c.r, e);
    var c' := Do(c, shutting, Begin).value;
    forall t ensures Held(c', t) == if t in c'.r.pending then 1 else 0 {
      PopHeld(c, t);
    }
  }

  lemma CountSingle(e: Event, tag: Tag)
    ensures Count([e], tag) == if e.Completed? && e.tag == tag then 1 else 0
  {
    assert [e][1..] == [];
  }

  /** What is held once the accept is popped: DONE, and nothing else. */
  lemma ConnectedHeld(c: Conn, tag: Tag)
    requires Connecting(c) && c.inbox != [] && c.inbox[0] == Completed(NewConnection, true)
    ensures (if tag in c.transport then 1 else 0) + Count(c.inbox[1..], tag) == if tag == Done then 1 else 0
  {
    if |c.inbox| == 2 {
      assert c.inbox[1..] == [c.inbox[1]];
      CountSingle(c.inbox[1], tag);
    } else {
      assert c.inbox[1..] == [];
    }
  }

  lemma AliveBeginConnecting(c: Conn, shutting: bool)
    requires NewConnection in c.r.pending && Connecting(c) && Can(c, shutting, Begin)
    ensures match Do(c, shutting, Begin)
            case Some(c') => !shutting && Connected(c')
            case None => shutting && Released(c.inbox[1..], c.transport)
  {
    match Do(c, shutting, Begin) {
      case Some(c') =>
        assert c'.r.pending == if StreamsRequests(c.r.kind) then {Done, Read} else {Done};
        assert c'.transport == c.transport + if StreamsRequests(c.r.kind) then {Read} else {};
        forall t ensures Held(c', t) == if t in c'.r.pending then 1 else 0 {
          ConnectedHeld(c, t);
        }
      case None =>
        assert c.inbox[1..] == [];
    }
  }

  /** The event thread never leaves an Rpc behind without a held tag, and never lets go of one that still
      has a tag with gRPC or in the queue. */
  lemma AliveEnd(c: Conn, shutting: bool)
    requires Connected(c) && Can(c, shutting, End)
    ensures match Do(c, shutting, End)
            case Some(c') => Connected(c')
            case None => Released(c.inbox, c.transport)
  {
    match Do(c, shutting, End) {
      case Some(c') =>
        forall t ensures Held(c', t) == if t in c'.r.pending then 1 else 0 {
          assert Held(c, t) == if t in c.r.pending then 1 else 0;
        }
      case None =>
        forall t ensures t !in c.transport && Count(c.inbox, t) == 0 {
          assert Held(c, t) == if t in c.r.pending then 1 else 0;
          match t { case NewConnection => case Read => case Write => case Finish => case Done => }
        }
        forall x | x in c.inbox ensures x == WriteNeeded {
          if x.Completed? { CountIn(c.inbox, x); }
        }
    }
  }

  lemma AliveStep(c: Conn, shutting: bool, st: Step)
    requires Alive(c) && Can(c, shutting, st)
    ensures match Do(c, shutting, st)
            case Some(c') => Alive(c')
            case None => (st.Begin? || st.End?) && Released(LeftBy(c, st), c.transport)
  {
    match st {
      case Complete(tag, ok) => AliveComplete(c, shutting, tag, ok);
      case Begin =>
        if NewConnection in c.r.pending {
          AliveBeginConnecting(c, shutting);
        } else {
          AliveBeginConnected(c, shutting);
        }
      case End => AliveEnd(c, shutting);
      case _ => AliveQuiet(c, shutting, st);
    }
  }

  /** Between two events a live Rpc has a tag with gRPC or in the queue. */
  lemma AliveHolds(c: Conn) returns (tag: Tag)
    requires Alive(c) && c.phase == Idle
    ensures Held(c, tag) >= 1
  {
    if NewConnection in c.r.pending {
      tag := if c.transport == {Done} then Done else NewConnection;
    } else {
      tag :| tag in c.r.pending;
      assert Held(c, tag) == 1;
    }
  }
}
