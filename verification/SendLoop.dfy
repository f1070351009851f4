/** Termination detection in FileClient (src/client/grpc_client/grpc_file_client.h): the Send thread
    closes the stream once the fill is complete, the on-the-fly counter is not positive
    and the queue is empty, while gRPC callbacks count writes and answers and may put new work.

    Every shared access is one step.  `Order` says in which order the accesses are made that the argument rests
    on; SourceOrder is the code's. */
module SendLoop {

  /** The three reads before the stream is closed: fill_queue_complete_, onfly_req_num_ and the queue's size. */
  datatype Check = Flag | Counter | Size

  datatype Order = Order(putBeforeDecrement: bool, countBeforeSignal: bool, checks: seq<Check>)

  const SourceOrder := Order(true, true, [Flag, Counter, Size])

  /** Each of the three is read once. */
  predicate Proper(o: Order) {
    && |o.checks| == 3
    && o.checks[0] != o.checks[1] && o.checks[1] != o.checks[2] && o.checks[0] != o.checks[2]
  }

  /** Where the Send thread is: at the loop head, with an item in hand, waiting for OnWriteDone, after a failed
      pop with so many of the final reads passed, past StartWritesDone, or interrupted. */
  datatype Sender = Top | Sending | Waiting | Checking(passed: nat) | Closed | Quit

  /** A callback that has two shared accesses to make: none running, both ahead, one ahead. */
  datatype Callback = Quiet | Both | One | Stopped

  /** How many items were put into the queue, and how many were dealt with. */
  datatype Items = Items(put: nat, ended: nat)

  datatype Writes = Writes(started: nat, counted: nat, failed: nat)

  /** How many answers' callbacks have begun, and how many have passed the decrement. */
  datatype Answers = Answers(begun: nat, settled: nat)

  datatype Client = Client(
    queue: nat, filling: bool, onfly: int, signal: bool, done: bool,
    sender: Sender, writer: Callback, reader: Callback,
    writes: Writes, answers: Answers, items: Items)

  const Fresh := Client(0, true, 0, false, false, Top, Quiet, Quiet, Writes(0, 0, 0), Answers(0, 0), Items(0, 0))

  datatype Action =
    | FillPut | FillComplete | Interrupt
    | Pop | PopFails | Read | StartWrite | EndItem | Resume | Leave
    | WriteCounted | WriteFailed | Signal
    | Answer | ReaderStops | HandlerPuts | HandlerPutsNothing | Decrement

  /** The pc of a callback at which its first or second access is due. */
  function Due(first: bool): Callback { if first then Both else One }
  function After(first: bool): Callback { if first then One else Quiet }

  predicate Can(o: Order, s: Client, a: Action)
    requires Proper(o)
  {
    match a
    case FillPut => s.filling
    case FillComplete => s.filling
    case Interrupt => true
    case Pop => s.sender == Top && s.queue > 0
    case PopFails => s.sender == Top && s.queue == 0
    case Read => s.sender.Checking? && s.sender.passed < 3
    case StartWrite => s.sender == Sending
    case EndItem => s.sender == Sending
    case Resume => s.sender == Waiting && s.signal
    case Leave => s.done && (s.sender == Top || s.sender == Waiting)
    case WriteCounted => s.writer == Due(o.countBeforeSignal)
    // a write that was answered does not fail
    case WriteFailed => s.writer == Due(o.countBeforeSignal) && s.answers.begun + s.writes.failed < s.writes.started
    case Signal => s.writer == Due(!o.countBeforeSignal)
    // an answer belongs to a write that was started and did not fail
    case Answer => s.reader == Quiet && s.answers.begun + s.writes.failed < s.writes.started
    case ReaderStops => s.reader == Both || s.reader == Quiet
    case HandlerPuts => s.reader == Due(o.putBeforeDecrement)
    case HandlerPutsNothing => s.reader == Due(o.putBeforeDecrement)
    case Decrement => s.reader == Due(!o.putBeforeDecrement)
  }

  predicate Passes(s: Client, check: Check) {
    match check
    case Flag => !s.filling
    case Counter => s.onfly <= 0
    case Size => s.queue == 0
  }

  function OneMore(items: Items): Items { items.(put := items.put + 1) }

  function Do(o: Order, s: Client, a: Action): Client
    requires Proper(o) && Can(o, s, a)
  {
    match a
    case FillPut => s.(queue := s.queue + 1, items := OneMore(s.items))
    case FillComplete => s.(filling := false)
    case Interrupt => s.(done := true)
    case Pop => s.(queue := s.queue - 1, sender := Sending)
    case PopFails => s.(sender := Checking(0))
    case Read =>
      var n := s.sender.passed;
      s.(sender := if !Passes(s, o.checks[n]) then Top else if n == 2 then Closed else Checking(n + 1))
    case StartWrite => s.(sender := Waiting, signal := false, writer := Both,
         writes := s.writes.(started := s.writes.started + 1))
    case EndItem => s.(sender := Top, items := s.items.(ended := s.items.ended + 1))
    case Resume => s.(sender := Sending)
    case Leave => s.(sender := Quit)
    case WriteCounted =>
      s.(onfly := s.onfly + 1, writes := s.writes.(counted := s.writes.counted + 1),
         writer := After(o.countBeforeSignal))
    case WriteFailed => s.(writes := s.writes.(failed := s.writes.failed + 1), writer := After(o.countBeforeSignal))
    case Signal => s.(signal := true, writer := After(!o.countBeforeSignal))
    case Answer => s.(answers := s.answers.(begun := s.answers.begun + 1), reader := Both)
    case ReaderStops => s.(reader := Stopped)
    case HandlerPuts => s.(queue := s.queue + 1, items := OneMore(s.items), reader := After(o.putBeforeDecrement))
    case HandlerPutsNothing => s.(reader := After(o.putBeforeDecrement))
    case Decrement =>
      s.(onfly := s.onfly - 1, answers := s.answers.(settled := s.answers.settled + 1),
         reader := After(!o.putBeforeDecrement))
  }

  predicate Run(o: Order, s: Client, acts: seq<Action>, last: Client)
    requires Proper(o)
    decreases |acts|
  {
    if acts == [] then s == last
    else Can(o, s, acts[0]) && Run(o, Do(o, s, acts[0]), acts[1..], last)
  }

  /** Once the stream is closed, all work is done: nothing queued, every item ever put dealt with, every write
      completed, every completed write answered and its callback past the decrement. */
  predicate AllDone(s: Client) {
    && s.queue == 0 && s.items.put == s.items.ended
    && s.writes.started == s.writes.counted + s.writes.failed
    && s.answers.begun == s.writes.counted && s.answers.settled == s.answers.begun
  }

  predicate Sound(s: Client) { s.sender == Closed ==> AllDone(s) }

  // ---------- the invariant ----------

  /** The orders that work: put before decrement, count before signal, and the size read last. */
  predicate SizeLast(o: Order)
    requires Proper(o)
  {
    o.putBeforeDecrement && o.countBeforeSignal && o.checks[2] == Size
  }

  /** The sender has read this one and gone on. */
  predicate Passed(o: Order, s: Client, check: Check)
    requires Proper(o)
  {
    s.sender == Closed || (s.sender.Checking? && exists j :: 0 <= j < s.sender.passed && j < 3 && o.checks[j] == check)
  }

  /** What the callbacks and the counters agree on. */
  predicate Counts(s: Client) {
    && s.onfly == s.writes.counted - s.answers.settled
    && s.answers.settled <= s.answers.begun && s.answers.begun + s.writes.failed <= s.writes.started
    && (s.reader == Quiet ==> s.answers.settled == s.answers.begun)
    && (s.reader == Both || s.reader == One ==> s.answers.settled + 1 == s.answers.begun)
    && s.writes.started == s.writes.counted + s.writes.failed + (if s.writer == Both then 1 else 0)
    && s.writer != Stopped
  }

  /** An item that was put is queued, in the sender's hands, or dealt with. */
  predicate Kept(s: Client) {
    match s.sender
    case Quit => true
    case Sending => s.items.put == s.queue + 1 + s.items.ended
    case Waiting => s.items.put == s.queue + 1 + s.items.ended
    case _ => s.items.put == s.queue + s.items.ended
  }

  predicate Inv(o: Order, s: Client)
    requires Proper(o)
  {
    && Counts(s)
    && (s.signal ==> s.writer == Quiet)
    && (s.writer != Quiet ==> s.sender == Waiting || s.sender == Quit)
    && (s.sender.Checking? ==> s.sender.passed < 3)
    && (Passed(o, s, Flag) ==> !s.filling)
    && (Passed(o, s, Counter) ==>
          s.answers.settled == s.writes.counted && s.writes.started == s.writes.counted + s.writes.failed)
    && (s.sender == Closed ==> s.queue == 0)
    && Kept(s)
  }

  predicate SenderMoves(a: Action) {
    a.Pop? || a.PopFails? || a.StartWrite? || a.EndItem? || a.Resume? || a.Leave?
  }

  predicate WriterMoves(a: Action) { a.WriteCounted? || a.WriteFailed? || a.Signal? }

  predicate ReaderMoves(a: Action) {
    a.Answer? || a.ReaderStops? || a.HandlerPuts? || a.HandlerPutsNothing? || a.Decrement?
  }

  lemma InvSender(o: Order, s: Client, a: Action)
    requires Proper(o) && SizeLast(o) && Inv(o, s) && Can(o, s, a) && SenderMoves(a)
    ensures Inv(o, Do(o, s, a))
  {
    match a {
      case Pop =>
      case PopFails =>
      case StartWrite =>
      case EndItem =>
      case Resume =>
      case Leave =>
    }
  }

  lemma InvWriter(o: Order, s: Client, a: Action)
    requires Proper(o) && SizeLast(o) && Inv(o, s) && Can(o, s, a) && WriterMoves(a)
    ensures Inv(o, Do(o, s, a))
  {
  }

  /** The sender's place, and with it what it has read, is the same. */
  lemma SamePlace(o: Order, s: Client, t: Client, check: Check)
    requires Proper(o) && t.sender == s.sender
    ensures Passed(o, t, check) <==> Passed(o, s, check)
  {
  }

  lemma InvReader(o: Order, s: Client, a: Action)
    requires Proper(o) && SizeLast(o) && Inv(o, s) && Can(o, s, a) && ReaderMoves(a)
    ensures Inv(o, Do(o, s, a))
  {
    SamePlace(o, s, Do(o, s, a), Flag);
    SamePlace(o, s, Do(o, s, a), Counter);
  }

  lemma OneMoreRead(o: Order, s: Client, check: Check)
    requires Proper(o) && s.sender.Checking? && s.sender.passed < 3
    requires Passed(o, Do(o, s, Read), check)
    ensures Passed(o, s, check) || (o.checks[s.sender.passed] == check && Passes(s, check)) || s.sender.passed == 2
  {
  }

  /** Where the size is read last, the other two have been read by then. */
  lemma BothBefore(o: Order, s: Client)
    requires Proper(o) && o.checks[2] == Size && s.sender == Checking(2)
    ensures Passed(o, s, Flag) && Passed(o, s, Counter)
  {
    assert o.checks[0] == Flag || o.checks[1] == Flag;
    assert o.checks[0] == Counter || o.checks[1] == Counter;
  }

  lemma InvRead(o: Order, s: Client)
    requires Proper(o) && SizeLast(o) && Inv(o, s) && Can(o, s, Read)
    ensures Inv(o, Do(o, s, Read))
  {
    var t := Do(o, s, Read);
    if s.sender.passed == 2 { BothBefore(o, s); }
    if Passed(o, t, Flag) { OneMoreRead(o, s, Flag); }
    if Passed(o, t, Counter) { OneMoreRead(o, s, Counter); }
  }

  lemma InvStep(o: Order, s: Client, a: Action)
    requires Proper(o) && SizeLast(o) && Inv(o, s) && Can(o, s, a)
    ensures Inv(o, Do(o, s, a))
  {
    if SenderMoves(a) {
      InvSender(o, s, a);
    } else if WriterMoves(a) {
      InvWriter(o, s, a);
    } else if ReaderMoves(a) {
      InvReader(o, s, a);
    } else if a.Read? {
      InvRead(o, s);
    } else {
      SamePlace(o, s, Do(o, s, a), Flag);
      SamePlace(o, s, Do(o, s, a), Counter);
    }
  }

  lemma {:induction false} InvRun(o: Order, s: Client, acts: seq<Action>, last: Client)
    requires Proper(o) && SizeLast(o) && Inv(o, s) && Run(o, s, acts, last)
    ensures Inv(o, last)
    decreases |acts|
  {
    if acts != [] {
      InvStep(o, s, acts[0]);
      InvRun(o, Do(o, s, acts[0]), acts[1..], last);
    }
  }

  ghost predicate Reaches(o: Order, s: Client)
    requires Proper(o)
  {
    exists acts: seq<Action> :: Run(o, Fresh, acts, s)
  }

  /** Nothing has happened yet. */
  predicate Unused(s: Client) {
    && s.queue == 0 && s.onfly == 0 && !s.signal && s.sender == Top && s.writer == Quiet && s.reader == Quiet
    && s.writes.started == 0 && s.writes.counted == 0 && s.writes.failed == 0
    && s.answers.begun == 0 && s.answers.settled == 0 && s.items.put == 0 && s.items.ended == 0
  }

  lemma UnusedInv(o: Order, s: Client)
    requires Proper(o) && Unused(s)
    ensures Inv(o, s)
  {
  }

  lemma InvReached(o: Order, s: Client)
    requires Proper(o) && SizeLast(o) && Reaches(o, s)
    ensures Inv(o, s)
  {
    var start := Fresh;
    var acts: seq<Action> :| Run(o, start, acts, s);
    UnusedInv(o, start);
    InvRun(o, start, acts, s);
  }

  lemma InvSound(o: Order, s: Client)
    requires Proper(o) && Inv(o, s)
    ensures Sound(s) && (s.sender == Closed ==> !s.filling && Counts(s))
  {
  }

  /** In every run of the code: when StartWritesDone is called all work is done, and no later step
      queues work or starts a write. */
  lemma StreamClosedOnlyWhenDone(s: Client, a: Action)
    requires Reaches(SourceOrder, s) && s.sender == Closed && Can(SourceOrder, s, a)
    ensures AllDone(s)
    ensures var t := Do(SourceOrder, s, a);
            && t.sender == Closed && t.queue == 0
            && t.writes.started == s.writes.started && t.answers.begun == s.answers.begun
  {
    InvReached(SourceOrder, s);
    InvSound(SourceOrder, s);
    ClosedStays(SourceOrder, s, a);
  }

  /** Closed over finished work, the stream stays that way. */
  lemma ClosedStays(o: Order, s: Client, a: Action)
    requires Proper(o) && Counts(s) && AllDone(s) && s.sender == Closed && !s.filling && Can(o, s, a)
    requires o.putBeforeDecrement
    ensures var t := Do(o, s, a);
            && t.sender == Closed && t.queue == 0
            && t.writes.started == s.writes.started && t.answers.begun == s.answers.begun
  {
  }

  // ---------- all these orders are needed ----------

  lemma {:induction false} RunSnoc(o: Order, s: Client, acts: seq<Action>, m: Client, a: Action)
    requires Proper(o) && Run(o, s, acts, m) && Can(o, m, a)
    ensures Run(o, s, acts + [a], Do(o, m, a))
    decreases |acts|
  {
    if acts == [] {
      assert (acts + [a])[1..] == [];
    } else {
      assert (acts + [a])[1..] == acts[1..] + [a];
      RunSnoc(o, Do(o, s, acts[0]), acts[1..], m, a);
    }
  }

  lemma Reach(o: Order, s: Client, a: Action) returns (t: Client)
    requires Proper(o) && Reaches(o, s) && Can(o, s, a)
    ensures t == Do(o, s, a) && Reaches(o, t)
  {
    t := Do(o, s, a);
    var acts :| Run(o, Fresh, acts, s);
    RunSnoc(o, Fresh, acts, s, a);
  }

  lemma FreshReaches(o: Order)
    requires Proper(o)
    ensures Reaches(o, Fresh)
  {
    assert Run(o, Fresh, [], Fresh);
  }

  lemma FilledOnce(o: Order, s: Client) returns (t: Client)
    requires Proper(o) && Reaches(o, s) && s.filling
    ensures Reaches(o, t) && t == s.(queue := s.queue + 1, items := OneMore(s.items), filling := false)
  {
    t := Reach(o, s, FillPut);
    t := Reach(o, t, FillComplete);
  }

  /** One item sent, its write started, and the fill complete. */
  lemma OneWriteStarted(o: Order) returns (s: Client)
    requires Proper(o)
    ensures Reaches(o, s)
    ensures s == Fresh.(filling := false, sender := Waiting, writer := Both,
                        writes := Writes(1, 0, 0), items := Items(1, 0))
  {
    FreshReaches(o);
    s := FilledOnce(o, Fresh);
    s := Reach(o, s, Pop);
    s := Reach(o, s, StartWrite);
  }

  /** The sender idle again after one completed, unanswered write. */
  lemma OneWriteCounted(o: Order) returns (s: Client)
    requires Proper(o) && o.countBeforeSignal
    ensures Reaches(o, s)
    ensures s == Fresh.(filling := false, signal := true, onfly := 1, writes := Writes(1, 1, 0), items := Items(1, 1))
  {
    s := OneWriteStarted(o);
    s := Reach(o, s, WriteCounted);
    s := Reach(o, s, Signal);
    s := Reach(o, s, Resume);
    s := Reach(o, s, EndItem);
  }

  /** The sender gets through the reads from number n on when all of them pass. */
  lemma ReadsPass(o: Order, s: Client, n: nat) returns (t: Client)
    requires Proper(o) && Reaches(o, s) && n < 3 && s.sender == Checking(n)
    requires forall j :: n <= j < 3 ==> Passes(s, o.checks[j])
    ensures Reaches(o, t) && t == s.(sender := Closed)
    decreases 3 - n
  {
    t := Reach(o, s, Read);
    if n < 2 { t := ReadsPass(o, t, n + 1); }
  }

  /** An idle sender that sees nothing queued and nothing on the fly closes the stream. */
  lemma Closes(o: Order, s: Client) returns (t: Client)
    requires Proper(o) && Reaches(o, s) && s.sender == Top && s.queue == 0 && !s.filling && s.onfly <= 0
    ensures Reaches(o, t) && t == s.(sender := Closed)
  {
    t := Reach(o, s, PopFails);
    t := ReadsPass(o, t, 0);
  }

  /** Signalling before counting: the sender closes the stream over an unanswered write. */
  lemma SignalFirstIsUnsound(o: Order) returns (s: Client)
    requires Proper(o) && !o.countBeforeSignal
    ensures Reaches(o, s) && !Sound(s)
  {
    s := OneWriteStarted(o);
    s := Reach(o, s, Signal);
    s := Reach(o, s, Resume);
    s := Reach(o, s, EndItem);
    s := Closes(o, s);
  }

  function OneAnswer(a: Answers): Answers { Answers(a.begun + 1, a.settled + 1) }

  lemma AnsweredAndDecremented(o: Order, s: Client) returns (t: Client)
    requires Proper(o) && Reaches(o, s) && !o.putBeforeDecrement
    requires s.reader == Quiet && s.answers.begun + s.writes.failed < s.writes.started
    ensures Reaches(o, t)
    ensures t == s.(onfly := s.onfly - 1, answers := OneAnswer(s.answers), reader := One)
  {
    t := Reach(o, s, Answer);
    t := Reach(o, t, Decrement);
  }

  /** Decrementing before putting: work is queued after the stream was closed. */
  lemma DecrementFirstIsUnsound(o: Order) returns (s: Client)
    requires Proper(o) && o.countBeforeSignal && !o.putBeforeDecrement
    ensures Reaches(o, s) && !Sound(s)
  {
    s := OneWriteCounted(o);
    s := AnsweredAndDecremented(o, s);
    s := Closes(o, s);
    s := Reach(o, s, HandlerPuts);
  }

  lemma AnsweredWithWork(o: Order, s: Client) returns (t: Client)
    requires Proper(o) && Reaches(o, s) && o.putBeforeDecrement
    requires s.reader == Quiet && s.answers.begun + s.writes.failed < s.writes.started
    ensures Reaches(o, t)
    ensures t == s.(queue := s.queue + 1, onfly := s.onfly - 1, answers := OneAnswer(s.answers),
                    items := OneMore(s.items))
  {
    t := Reach(o, s, Answer);
    t := Reach(o, t, HandlerPuts);
    t := Reach(o, t, Decrement);
  }

  /** The sender up to the last read, all earlier ones passed. */
  lemma ReadsUpTo(o: Order, s: Client, n: nat, m: nat) returns (t: Client)
    requires Proper(o) && Reaches(o, s) && n <= m < 3 && s.sender == Checking(n)
    requires forall j :: n <= j < m ==> Passes(s, o.checks[j])
    ensures Reaches(o, t) && t == s.(sender := Checking(m))
    decreases m - n
  {
    t := s;
    if n < m {
      t := Reach(o, s, Read);
      t := ReadsUpTo(o, t, n + 1, m);
    }
  }

  /** The counter read after the size: an answer in between leaves its new work behind. */
  lemma CounterLastIsUnsound(o: Order) returns (s: Client)
    requires Proper(o) && o.countBeforeSignal && o.putBeforeDecrement && o.checks[2] == Counter
    ensures Reaches(o, s) && !Sound(s)
  {
    s := OneWriteCounted(o);
    s := Reach(o, s, PopFails);
    s := ReadsUpTo(o, s, 0, 2);
    s := AnsweredWithWork(o, s);
    s := Reach(o, s, Read);
  }

  /** The flag read after the size: the filler puts its last item and completes in between. */
  lemma FlagLastIsUnsound(o: Order) returns (s: Client)
    requires Proper(o) && o.checks[2] == Flag
    ensures Reaches(o, s) && !Sound(s)
  {
    FreshReaches(o);
    s := Reach(o, Fresh, PopFails);
    s := ReadsUpTo(o, s, 0, 2);
    s := FilledOnce(o, s);
    s := Reach(o, s, Read);
  }

  lemma SizeLastIsSound(o: Order, s: Client)
    requires Proper(o) && SizeLast(o) && Reaches(o, s)
    ensures Sound(s)
  {
    InvReached(o, s);
    InvSound(o, s);
  }

  lemma OtherIsUnsound(o: Order) returns (s: Client)
    requires Proper(o) && !SizeLast(o)
    ensures Reaches(o, s) && !Sound(s)
  {
    if !o.countBeforeSignal {
      s := SignalFirstIsUnsound(o);
    } else if !o.putBeforeDecrement {
      s := DecrementFirstIsUnsound(o);
    } else if o.checks[2] == Counter {
      s := CounterLastIsUnsound(o);
    } else {
      s := FlagLastIsUnsound(o);
    }
  }

  /** Termination detection is sound exactly when new work is put before the decrement, writes are counted before
      the signal, and the size of the queue is read last; of the twenty-four orders the code's and one more. */
  lemma SoundExactly(o: Order)
    requires Proper(o)
    ensures (forall s: Client :: Reaches(o, s) ==> Sound(s)) <==> SizeLast(o)
  {
    if SizeLast(o) {
      forall s: Client | Reaches(o, s) ensures Sound(s) { SizeLastIsSound(o, s); }
    } else {
      var s := OtherIsUnsound(o);
      assert Reaches(o, s) && !Sound(s);
    }
  }
}
