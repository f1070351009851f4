/** The upload end to end: the client's slices and marks, the server's writes, and requests and answers
    that may be duplicated, reordered, lost or failed. */
module Transfer {
  import opened Arithmetic
  import opened Options
  import opened Partition
  import opened Upload

  // ---------- client marks ----------

  datatype SendStatus = SUCCESS | RETRYING | TOO_MANY_RETRY

  function StatusOf(mark: seq<int>): SendStatus {
    if exists i :: 0 <= i < |mark| && mark[i] > 1 then TOO_MANY_RETRY
    else if forall i :: 0 <= i < |mark| ==> mark[i] < 0 then SUCCESS
    else RETRYING
  }

  function Acked(mark: seq<int>, part: nat, ok: bool): seq<int>
    requires part < |mark|
  {
    mark[part := if ok then -1 else mark[part] + 1]
  }

  class SendContext {
    var mark: seq<int>

    constructor (size: nat, p: nat)
      requires p > 0 && FilePartitionNum(size, p) >= 0
      ensures mark == seq(FilePartitionNum(size, p), _ => 0)
    {
      mark := seq(FilePartitionNum(size, p), _ => 0);
    }

    /** OnReadDone for a FilePut answer of this request. */
    method OnPutAnswer(part: nat, ok: bool)
      requires part < |mark|
      modifies this
      ensures mark == Acked(old(mark), part, ok)
    {
      if !ok {
        mark := mark[part := mark[part] + 1];
      } else {
        mark := mark[part := -1];
      }
    }

    method GetStatus() returns (st: SendStatus)
      ensures st == StatusOf(mark)
    {
      var success := true;
      for i := 0 to |mark|
        invariant forall k :: 0 <= k < i ==> mark[k] <= 1
        invariant success <==> forall k :: 0 <= k < i ==> mark[k] < 0
      {
        if mark[i] > 1 { return TOO_MANY_RETRY; }
        if mark[i] >= 0 { success := false; }
      }
      return if success then SUCCESS else RETRYING;
    }
  }

  // ---------- the upload, end to end ----------

  /** Where Send is with the file: about to read block `next`, past the read loop, or interrupted. */
  datatype Sender = Cutting(next: nat) | Watching | Interrupted

  /** A request in flight is a part number and its bytes.  `failbit` is the state of the ifstream: set by a read
      that comes up short, never cleared, and with it no read extracts anything. */
  datatype Link = Link(
    file: File, mark: seq<int>, requests: set<(nat, seq<byte>)>, acks: set<(nat, bool)>,
    sender: Sender, failbit: bool)

  /** `again`: the request or the answer may arrive another time. */
  datatype LinkEvent =
    | Send | EndCut | Interrupt
    | Resend(part: nat)
    | Deliver(part: nat, content: seq<byte>, disk: Disk, again: bool)
    | Answer(part: nat, ok: bool, again: bool)

  /** What a read of up to n bytes at an offset extracts. */
  function Extracted(failbit: bool, src: seq<byte>, at: nat, n: nat): seq<byte> {
    if failbit then [] else SliceAt(src, at, n)
  }

  predicate Enabled(l: Link, src: seq<byte>, p: nat, e: LinkEvent)
    requires p > 0
  {
    match e
    case Send => l.sender.Cutting? && Extracted(l.failbit, src, l.sender.next * p, p) != []
    case EndCut => l.sender.Cutting? && Extracted(l.failbit, src, l.sender.next * p, p) == []
    case Interrupt => true
    case Resend(part) => l.sender == Watching && part < |l.mark| && l.mark[part] == 1
    case Deliver(part, content, _, _) => (part, content) in l.requests
    case Answer(part, ok, _) => (part, ok) in l.acks && part < |l.mark|
  }

  function PartRequest(size: nat, p: nat, part: nat, content: seq<byte>): Request {
    Request("id", part, size, p, content)
  }

  /** The read loop cuts the file by the part size p, a resend would by the network buffer size. */
  function LinkStep(l: Link, src: seq<byte>, p: nat, buffer: nat, e: LinkEvent): Link
    requires p > 0 && Enabled(l, src, p, e)
  {
    match e
    case Send =>
      var n, content := l.sender.next, Extracted(l.failbit, src, l.sender.next * p, p);
      l.(requests := l.requests + {(n, content)}, sender := Cutting(n + 1), failbit := |content| < p)
    case EndCut => l.(sender := Watching, failbit := true)
    case Interrupt => l.(sender := Interrupted)
    case Resend(part) =>
      var content := Extracted(l.failbit, src, part * buffer, buffer);
      if content == [] then l else l.(requests := l.requests + {(part, content)})
    case Deliver(part, content, disk, again) =>
      var r := Store(l.file, PartRequest(|src|, p, part, content), disk);
      l.(file := r.file, acks := l.acks + {(part, r.ok)},
         requests := if again then l.requests else l.requests - {(part, content)})
    case Answer(part, ok, again) =>
      l.(mark := Acked(l.mark, part, ok), acks := if again then l.acks else l.acks - {(part, ok)})
  }

  ghost predicate LinkRun(l: Link, src: seq<byte>, p: nat, buffer: nat, es: seq<LinkEvent>, last: Link)
    requires p > 0
    decreases |es|
  {
    if es == [] then l == last
    else Enabled(l, src, p, es[0]) && LinkRun(LinkStep(l, src, p, buffer, es[0]), src, p, buffer, es[1..], last)
  }

  /** One mark per part, and the file just opened. */
  function StartLink(existing: File, src: seq<byte>, p: nat): Link
    requires p > 0
  {
    Link(existing, seq(PartCount(|src|, p), _ => 0), {}, {}, Cutting(0), false)
  }

  predicate Right(file: File, src: seq<byte>, i: nat)
    requires i < |src|
  {
    file.Some? && i < |file.value| && file.value[i] == src[i]
  }

  /** The server file holds the source's bytes of this range. */
  predicate HoldsAt(file: File, src: seq<byte>, at: nat, len: nat) {
    forall i :: at <= i < Min(at + len, |src|) ==> Right(file, src, i)
  }

  predicate Holds(file: File, src: seq<byte>, p: nat, part: nat) { HoldsAt(file, src, part * p, p) }

  predicate Sized(file: File, existing: File, size: nat) {
    && (existing.Some? ==> file.Some? && |existing.value| <= |file.value|)
    && (file.Some? ==> |file.value| <= size || (existing.Some? && |file.value| <= |existing.value|))
  }

  predicate RequestsRight(requests: set<(nat, seq<byte>)>, src: seq<byte>, p: nat)
    requires p > 0
  {
    forall r :: r in requests ==> r.0 < PartCount(|src|, p) && r.1 == Slice(src, p, r.0)
  }

  /** These parts are there. */
  predicate AllHeld(parts: set<nat>, file: File, src: seq<byte>, p: nat) {
    forall i :: i in parts ==> file.Some? && Holds(file, src, p, i)
  }

  predicate MarksRight(mark: seq<int>) { forall i :: 0 <= i < |mark| ==> -1 <= mark[i] }

  /** What holds whatever the disk does; `full` are the parts that reached the file in full at some time. */
  ghost predicate LinkInv(l: Link, existing: File, src: seq<byte>, p: nat, full: set<nat>)
    requires p > 0
  {
    && |l.mark| == PartCount(|src|, p) && MarksRight(l.mark)
    && (l.sender == Watching ==> l.failbit)
    && RequestsRight(l.requests, src, p)
    && AllHeld(full, l.file, src, p)
    && Sized(l.file, existing, |src|)
    && (|src| == 0 ==> l.file == existing)
  }

  // Offsets are variables here, so that nothing multiplies.

  /** Writing source bytes where they belong damages no range that was already right. */
  lemma WriteKeeps(f: seq<byte>, src: seq<byte>, at: nat, n: nat, from: nat, len: nat)
    requires at + n <= |src| && HoldsAt(Some(f), src, from, len)
    ensures HoldsAt(Some(WriteAt(f, at, src[at..at + n])), src, from, len)
  {
    var c := src[at..at + n];
    var g := WriteAt(f, at, c);
    forall i | from <= i < Min(from + len, |src|) ensures Right(Some(g), src, i) {
      assert Right(Some(f), src, i);
      if c != [] && at <= i < at + n { assert c[i - at] == src[i]; }
    }
  }

  lemma WriteHolds(f: seq<byte>, src: seq<byte>, at: nat, p: nat)
    requires at < |src|
    ensures HoldsAt(Some(WriteAt(f, at, SliceAt(src, at, p))), src, at, p)
  {
    var c := SliceAt(src, at, p);
    var g := WriteAt(f, at, c);
    forall i | at <= i < Min(at + p, |src|) ensures Right(Some(g), src, i) {
      assert c != [] && c[i - at] == src[i];
    }
  }

  lemma SlicePrefix(src: seq<byte>, at: nat, p: nat, n: nat)
    requires at < |src| && n <= |SliceAt(src, at, p)|
    ensures at + n <= |src| && SliceAt(src, at, p)[..n] == src[at..at + n]
  {
  }

  /** A slice written at its place, in part or in full. */
  lemma SliceWritten(f: seq<byte>, src: seq<byte>, at: nat, p: nat, n: nat)
    requires at < |src| && n <= |SliceAt(src, at, p)|
    ensures var g := WriteAt(f, at, SliceAt(src, at, p)[..n]);
            && |f| <= |g| && (|g| <= |src| || |g| == |f|)
            && (n == |SliceAt(src, at, p)| ==> HoldsAt(Some(g), src, at, p))
  {
    SlicePrefix(src, at, p, n);
    var c := SliceAt(src, at, p);
    if n == |c| {
      assert c[..n] == c;
      WriteHolds(f, src, at, p);
    }
  }

  lemma SliceKeeps(f: seq<byte>, src: seq<byte>, at: nat, p: nat, n: nat, from: nat, len: nat)
    requires at < |src| && n <= |SliceAt(src, at, p)| && HoldsAt(Some(f), src, from, len)
    ensures HoldsAt(Some(WriteAt(f, at, SliceAt(src, at, p)[..n])), src, from, len)
  {
    SlicePrefix(src, at, p, n);
    WriteKeeps(f, src, at, n, from, len);
  }

  lemma StartInside(size: nat, p: nat, part: nat)
    requires p > 0 && part < PartCount(size, p)
    ensures 0 <= Start(part, p) < size
  {
    EndOfPart(size, p, part);
  }

  /** What one delivered request does to the size of the file and, if all of it got there, to its own part. */
  lemma DeliverOwn(file: File, existing: File, src: seq<byte>, req: Request, disk: Disk)
    requires req.size == |src| && 0 <= Start(req.part, req.partSize) < |src| && Sized(file, existing, |src|)
    requires req.content == SliceAt(src, Start(req.part, req.partSize), req.partSize)
    ensures var r := Store(file, req, disk);
            && Sized(r.file, existing, |src|)
            && (Reaches(file, req, disk) == |req.content| > 0 ==>
                  r.file.Some? && HoldsAt(r.file, src, Start(req.part, req.partSize), req.partSize))
  {
    if file.Some? || disk.created {
      var f := if file.None? then Zeros(|src|) else file.value;
      StoreWrites(f, file, req, disk);
      SliceWritten(f, src, Start(req.part, req.partSize), req.partSize, Reaches(file, req, disk));
    }
  }

  /** A range that was right stays right. */
  lemma DeliverKeeps(f: seq<byte>, src: seq<byte>, req: Request, disk: Disk, from: nat, len: nat)
    requires 0 <= Start(req.part, req.partSize) < |src| && HoldsAt(Some(f), src, from, len)
    requires req.content == SliceAt(src, Start(req.part, req.partSize), req.partSize)
    ensures HoldsAt(Store(Some(f), req, disk).file, src, from, len) && Store(Some(f), req, disk).file.Some?
  {
    StoreWrites(f, Some(f), req, disk);
    SliceKeeps(f, src, Start(req.part, req.partSize), req.partSize, Reaches(Some(f), req, disk), from, len);
  }

  // ---------- one event ----------

  /** The event brings all of this part to the file. */
  predicate BringsAll(l: Link, src: seq<byte>, p: nat, e: LinkEvent, part: nat) {
    && e.Deliver? && e.part == part && e.content == Slice(src, p, part)
    && Reaches(l.file, PartRequest(|src|, p, part, e.content), e.disk) == |e.content|
  }

  /** The parts that have been in full after the event. */
  function FullAfter(l: Link, src: seq<byte>, p: nat, e: LinkEvent, full: set<nat>): set<nat> {
    if e.Deliver? && BringsAll(l, src, p, e, e.part) then full + {e.part} else full
  }

  /** A block that was read is a part of the file. */
  lemma BlockIsPart(src: seq<byte>, p: nat, n: nat)
    requires p > 0 && SliceAt(src, n * p, p) != []
    ensures n < PartCount(|src|, p) && Slice(src, p, n) == SliceAt(src, n * p, p)
  {
    PartBelow(|src|, p, n);
  }

  lemma SendRight(l: Link, src: seq<byte>, p: nat)
    requires p > 0 && RequestsRight(l.requests, src, p) && Enabled(l, src, p, Send)
    ensures RequestsRight(LinkStep(l, src, p, p, Send).requests, src, p)
  {
    BlockIsPart(src, p, l.sender.next);
  }

  lemma AnswerRight(mark: seq<int>, part: nat, ok: bool)
    requires MarksRight(mark) && part < |mark|
    ensures MarksRight(Acked(mark, part, ok))
  {
  }

  lemma DeliverHeld(file: File, src: seq<byte>, p: nat, part: nat, disk: Disk, full: set<nat>)
    requires p > 0 && part < PartCount(|src|, p) && AllHeld(full, file, src, p)
    ensures AllHeld(full, Store(file, PartRequest(|src|, p, part, Slice(src, p, part)), disk).file, src, p)
  {
    var req := PartRequest(|src|, p, part, Slice(src, p, part));
    var after := Store(file, req, disk).file;
    forall i | i in full ensures after.Some? && Holds(after, src, p, i) {
      StartInside(|src|, p, part);
      DeliverKeeps(file.value, src, req, disk, i * p, p);
    }
  }

  lemma DeliverRight(file: File, existing: File, src: seq<byte>, p: nat, part: nat, disk: Disk, full: set<nat>)
    requires p > 0 && part < PartCount(|src|, p) && AllHeld(full, file, src, p) && Sized(file, existing, |src|)
    ensures var req := PartRequest(|src|, p, part, Slice(src, p, part));
            var r := Store(file, req, disk);
            && AllHeld(full, r.file, src, p) && Sized(r.file, existing, |src|)
            && (Reaches(file, req, disk) == |req.content| ==> r.file.Some? && Holds(r.file, src, p, part))
  {
    var req := PartRequest(|src|, p, part, Slice(src, p, part));
    StartInside(|src|, p, part);
    DeliverOwn(file, existing, src, req, disk);
    DeliverHeld(file, src, p, part, disk, full);
  }

  lemma DeliverStepInv(l: Link, existing: File, src: seq<byte>, p: nat, buffer: nat, e: LinkEvent, full: set<nat>)
    requires p > 0 && LinkInv(l, existing, src, p, full) && Enabled(l, src, p, e) && e.Deliver?
    ensures LinkInv(LinkStep(l, src, p, buffer, e), existing, src, p, FullAfter(l, src, p, e, full))
  {
    assert (e.part, e.content).0 < PartCount(|src|, p) && e.content == Slice(src, p, e.part);
    DeliverRight(l.file, existing, src, p, e.part, e.disk, full);
    StartInside(|src|, p, e.part);
  }

  /** No event damages a part that was once there in full, and nothing is ever resent: by the time Send watches the
      marks, the stream has failed. */
  lemma LinkStepInv(l: Link, existing: File, src: seq<byte>, p: nat, buffer: nat, e: LinkEvent, full: set<nat>)
    requires p > 0 && LinkInv(l, existing, src, p, full) && Enabled(l, src, p, e)
    ensures LinkInv(LinkStep(l, src, p, buffer, e), existing, src, p, FullAfter(l, src, p, e, full))
    ensures e.Resend? ==> LinkStep(l, src, p, buffer, e) == l
  {
    match e {
      case Send => SendRight(l, src, p);
      case EndCut =>
      case Interrupt =>
      case Resend(_) =>
      case Answer(part, ok, _) => AnswerRight(l.mark, part, ok);
      case Deliver(_, _, _, _) => DeliverStepInv(l, existing, src, p, buffer, e, full);
    }
  }

  // ---------- whole runs ----------

  /** Some event of the run brings all of this part to the file. */
  ghost predicate InFull(l: Link, src: seq<byte>, p: nat, buffer: nat, es: seq<LinkEvent>, part: nat)
    requires p > 0
    decreases |es|
  {
    && es != [] && Enabled(l, src, p, es[0])
    && (BringsAll(l, src, p, es[0], part) || InFull(LinkStep(l, src, p, buffer, es[0]), src, p, buffer, es[1..], part))
  }

  lemma {:induction false} LinkRunInv(l: Link, existing: File, src: seq<byte>, p: nat, buffer: nat, es: seq<LinkEvent>,
                                      last: Link, full: set<nat>) returns (full': set<nat>)
    requires p > 0
    requires LinkInv(l, existing, src, p, full) && LinkRun(l, src, p, buffer, es, last)
    ensures LinkInv(last, existing, src, p, full') && full <= full'
    ensures forall i: nat :: InFull(l, src, p, buffer, es, i) ==> i in full'
    decreases |es|
  {
    if es == [] {
      full' := full;
    } else {
      LinkStepInv(l, existing, src, p, buffer, es[0], full);
      full' := LinkRunInv(LinkStep(l, src, p, buffer, es[0]), existing, src, p, buffer, es[1..], last,
                          FullAfter(l, src, p, es[0], full));
    }
  }

  /** The target the upload may start from: none, or one not longer than the source; an empty
      source sends nothing, so its target has to be there already. */
  predicate GoodTarget(existing: File, src: seq<byte>) {
    if src == [] then existing == Some([])
    else existing.None? || |existing.value| <= |src|
  }

  lemma HeldIsRight(l: Link, existing: File, src: seq<byte>, p: nat, full: set<nat>, i: nat)
    requires p > 0 && LinkInv(l, existing, src, p, full) && i < |src|
    requires forall k: nat :: k < PartCount(|src|, p) ==> k in full
    ensures Right(l.file, src, i)
  {
    var k := i / p;
    DivIs(i, k, p);
    PartBelow(|src|, p, k);
    assert k in full;
  }

  lemma AllRight(file: File, existing: File, src: seq<byte>)
    requires forall i :: 0 <= i < |src| ==> Right(file, src, i)
    requires Sized(file, existing, |src|) && (src == [] ==> file == existing)
    ensures file == Some(src) <==> GoodTarget(existing, src)
  {
    if src != [] {
      assert Right(file, src, |src| - 1);
      if |file.value| == |src| {
        forall i | 0 <= i < |src| ensures file.value[i] == src[i] { assert Right(file, src, i); }
        assert file.value == src;
      }
    }
  }

  lemma StartInv(existing: File, src: seq<byte>, p: nat)
    requires p > 0
    ensures LinkInv(StartLink(existing, src, p), existing, src, p, {})
  {
  }

  /** Whatever was answered or not: if every part reached the file in full at some time, no later delivery,
      partial or repeated, undoes it, and the file is the source exactly when the target was good. */
  lemma WholeOnceInFull(existing: File, src: seq<byte>, p: nat, buffer: nat, es: seq<LinkEvent>, last: Link)
    requires p > 0
    requires LinkRun(StartLink(existing, src, p), src, p, buffer, es, last)
    requires forall i: nat :: i < PartCount(|src|, p) ==>
               InFull(StartLink(existing, src, p), src, p, buffer, es, i)
    ensures last.file == Some(src) <==> GoodTarget(existing, src)
  {
    StartInv(existing, src, p);
    var full := LinkRunInv(StartLink(existing, src, p), existing, src, p, buffer, es, last, {});
    forall i | 0 <= i < |src| ensures Right(last.file, src, i) {
      HeldIsRight(last, existing, src, p, full, i);
    }
    AllRight(last.file, existing, src);
  }

  // ---------- what an answer means ----------

  predicate NothingLost(es: seq<LinkEvent>) {
    forall k :: 0 <= k < |es| ==> !(es[k].Deliver? && LostAtClose(es[k].disk))
  }

  /** A positive answer for the part is on its way or was counted. */
  predicate Confirmed(l: Link, part: nat) {
    (part, true) in l.acks || (part < |l.mark| && l.mark[part] == -1)
  }

  /** An accepted delivery that loses nothing at close brings all of its part. */
  lemma OkMeansAll(l: Link, existing: File, src: seq<byte>, p: nat, e: LinkEvent, full: set<nat>)
    requires p > 0 && LinkInv(l, existing, src, p, full) && Enabled(l, src, p, e)
    requires e.Deliver? && !LostAtClose(e.disk)
    requires Store(l.file, PartRequest(|src|, p, e.part, e.content), e.disk).ok
    ensures BringsAll(l, src, p, e, e.part)
  {
    assert (e.part, e.content).0 < PartCount(|src|, p) && e.content == Slice(src, p, e.part);
  }

  /** Only a delivery that was stored confirms a part. */
  lemma ConfirmedBy(
      l: Link, existing: File, src: seq<byte>, p: nat, buffer: nat, e: LinkEvent, full: set<nat>, part: nat)
    requires p > 0 && LinkInv(l, existing, src, p, full) && Enabled(l, src, p, e)
    requires !Confirmed(l, part) && Confirmed(LinkStep(l, src, p, buffer, e), part)
    ensures e.Deliver? && e.part == part && Store(l.file, PartRequest(|src|, p, part, e.content), e.disk).ok
  {
  }

  lemma {:induction false} ConfirmedInFull(l: Link, existing: File, src: seq<byte>, p: nat, buffer: nat,
                                           es: seq<LinkEvent>, last: Link, full: set<nat>, part: nat)
    requires p > 0 && NothingLost(es)
    requires LinkInv(l, existing, src, p, full) && LinkRun(l, src, p, buffer, es, last)
    requires !Confirmed(l, part) && Confirmed(last, part)
    ensures InFull(l, src, p, buffer, es, part)
    decreases |es|
  {
    if es != [] {
      var e, l' := es[0], LinkStep(l, src, p, buffer, es[0]);
      LinkStepInv(l, existing, src, p, buffer, e, full);
      if Confirmed(l', part) {
        ConfirmedBy(l, existing, src, p, buffer, e, full, part);
        OkMeansAll(l, existing, src, p, e, full);
      } else {
        assert NothingLost(es[1..]) by {
          assert forall k :: 0 <= k < |es[1..]| ==> es[1..][k] == es[k + 1];
        }
        ConfirmedInFull(l', existing, src, p, buffer, es[1..], last, FullAfter(l, src, p, e, full), part);
      }
    }
  }

  lemma SuccessConfirmed(l: Link, part: nat)
    requires MarksRight(l.mark) && part < |l.mark|
    ensures StatusOf(l.mark) == SUCCESS ==> Confirmed(l, part)
  {
    assert l.mark[part] < 0 || l.mark[part] >= 0;
  }

  /** On every run whose marks say SUCCESS and that loses nothing at close -- whatever was duplicated, reordered,
      lost on the way, refused or partly written -- the server file is the source, byte for byte, exactly
      when the target was good to start from. */
  lemma UploadExact(existing: File, src: seq<byte>, p: nat, buffer: nat, es: seq<LinkEvent>, last: Link)
    requires p > 0 && NothingLost(es) && LinkRun(StartLink(existing, src, p), src, p, buffer, es, last)
    requires StatusOf(last.mark) == SUCCESS
    ensures last.file == Some(src) <==> GoodTarget(existing, src)
  {
    var l := StartLink(existing, src, p);
    StartInv(existing, src, p);
    var full := LinkRunInv(l, existing, src, p, buffer, es, last, {});
    forall i: nat | i < PartCount(|src|, p) ensures InFull(l, src, p, buffer, es, i) {
      SuccessConfirmed(last, i);
      ConfirmedInFull(l, existing, src, p, buffer, es, last, {}, i);
    }
    WholeOnceInFull(existing, src, p, buffer, es, last);
  }

  // ---------- a part that never got there in full ----------

  /** The byte at j, if there is one, is still the zero the file was made with. */
  predicate Untouched(file: File, j: nat) { file.Some? && j < |file.value| ==> file.value[j] == 0 }

  lemma WriteElsewhere(f: seq<byte>, at: nat, c: seq<byte>, j: nat)
    requires Untouched(Some(f), j) && !(at <= j < at + |c|)
    ensures Untouched(Some(WriteAt(f, at, c)), j)
  {
  }

  lemma StoreElsewhere(file: File, req: Request, disk: Disk, j: nat)
    requires Untouched(file, j) && Start(req.part, req.partSize) >= 0
    requires !(Start(req.part, req.partSize) <= j < Start(req.part, req.partSize) + Reaches(file, req, disk))
    ensures Untouched(Store(file, req, disk).file, j)
  {
    if file.Some? || disk.created {
      var f := if file.None? then Zeros(req.size) else file.value;
      StoreWrites(f, file, req, disk);
      WriteElsewhere(f, Start(req.part, req.partSize), req.content[..Reaches(file, req, disk)], j);
    }
  }

  /** The last byte of a part lies in no other part, and in no shorter prefix of its own. */
  lemma LastByteApart(src: seq<byte>, p: nat, part: nat, k: nat, n: nat)
    requires p > 0 && part < PartCount(|src|, p) && k < PartCount(|src|, p) && n <= |Slice(src, p, k)|
    requires k == part ==> n < |Slice(src, p, k)|
    ensures var j := Min(part * p + p, |src|) - 1;
            j >= 0 && !(Start(k, p) <= j < Start(k, p) + n)
  {
    StartInside(|src|, p, part);
    StartInside(|src|, p, k);
    SliceLength(src, k * p, p);
    if k < part { MulStep(k, part, p); } else if part < k { MulStep(part, k, p); }
  }

  lemma {:induction false} StaysUntouched(l: Link, src: seq<byte>, p: nat, buffer: nat, es: seq<LinkEvent>, last: Link,
                                          existing: File, full: set<nat>, part: nat)
    requires p > 0 && part < PartCount(|src|, p)
    requires LinkInv(l, existing, src, p, full) && LinkRun(l, src, p, buffer, es, last)
    requires Min(part * p + p, |src|) >= 1 && Untouched(l.file, Min(part * p + p, |src|) - 1)
    requires !InFull(l, src, p, buffer, es, part)
    ensures Untouched(last.file, Min(part * p + p, |src|) - 1)
    decreases |es|
  {
    if es != [] {
      var e := es[0];
      LinkStepInv(l, existing, src, p, buffer, e, full);
      if e.Deliver? { DeliverElsewhere(l, src, p, e, existing, full, part); }
      var next, after := LinkStep(l, src, p, buffer, e), FullAfter(l, src, p, e, full);
      StaysUntouched(next, src, p, buffer, es[1..], last, existing, after, part);
    }
  }

  lemma DeliverElsewhere(l: Link, src: seq<byte>, p: nat, e: LinkEvent, existing: File, full: set<nat>, part: nat)
    requires p > 0 && part < PartCount(|src|, p) && LinkInv(l, existing, src, p, full)
    requires Enabled(l, src, p, e) && e.Deliver? && !BringsAll(l, src, p, e, part)
    requires Min(part * p + p, |src|) >= 1 && Untouched(l.file, Min(part * p + p, |src|) - 1)
    ensures var after := Store(l.file, PartRequest(|src|, p, e.part, e.content), e.disk).file;
            Untouched(after, Min(part * p + p, |src|) - 1)
  {
    assert (e.part, e.content).0 < PartCount(|src|, p) && e.content == Slice(src, p, e.part);
    var req := PartRequest(|src|, p, e.part, e.content);
    StartInside(|src|, p, e.part);
    LastByteApart(src, p, part, e.part, Reaches(l.file, req, e.disk));
    StoreElsewhere(l.file, req, e.disk, Min(part * p + p, |src|) - 1);
  }

  /** For a new target and a source without zero bytes, the file is the source if and only if every part reached
      it in full at some time: no answer can stand in for that. */
  lemma NewTargetExact(src: seq<byte>, p: nat, buffer: nat, es: seq<LinkEvent>, last: Link)
    requires p > 0 && src != [] && (forall i :: 0 <= i < |src| ==> src[i] != 0)
    requires LinkRun(StartLink(None, src, p), src, p, buffer, es, last)
    ensures last.file == Some(src)
            <==> forall i: nat :: i < PartCount(|src|, p) ==> InFull(StartLink(None, src, p), src, p, buffer, es, i)
  {
    var l := StartLink(None, src, p);
    if i: nat :| i < PartCount(|src|, p) && !InFull(l, src, p, buffer, es, i) {
      StartInv(None, src, p);
      StartInside(|src|, p, i);
      StaysUntouched(l, src, p, buffer, es, last, None, {}, i);
    } else {
      WholeOnceInFull(None, src, p, buffer, es, last);
    }
  }

  // ---------- a refused part ----------

  predicate NoRequest(requests: set<(nat, seq<byte>)>, part: nat) { forall r :: r in requests ==> r.0 != part }

  /** The read loop is past this part. */
  predicate Past(sender: Sender, part: nat) { sender.Cutting? ==> part < sender.next }

  /** Nothing that could still confirm the part is on its way. */
  predicate Lost(l: Link, part: nat) {
    && part < |l.mark| && l.mark[part] != -1
    && Past(l.sender, part) && NoRequest(l.requests, part) && (part, true) !in l.acks
  }

  lemma LostStep(l: Link, existing: File, src: seq<byte>, p: nat, buffer: nat, e: LinkEvent, full: set<nat>, part: nat)
    requires p > 0 && LinkInv(l, existing, src, p, full) && Enabled(l, src, p, e) && Lost(l, part)
    ensures Lost(LinkStep(l, src, p, buffer, e), part)
  {
    if e.Deliver? { assert (e.part, e.content).0 != part; }
  }

  lemma {:induction false} LostRun(l: Link, existing: File, src: seq<byte>, p: nat, buffer: nat, es: seq<LinkEvent>,
                                   last: Link, full: set<nat>, part: nat)
    requires p > 0 && LinkInv(l, existing, src, p, full) && LinkRun(l, src, p, buffer, es, last) && Lost(l, part)
    ensures Lost(last, part)
    decreases |es|
  {
    if es != [] {
      var e := es[0];
      LinkStepInv(l, existing, src, p, buffer, e, full);
      LostStep(l, existing, src, p, buffer, e, full, part);
      var next, after := LinkStep(l, src, p, buffer, e), FullAfter(l, src, p, e, full);
      LostRun(next, existing, src, p, buffer, es[1..], last, after, part);
    }
  }

  /** From such a state SUCCESS is out of reach, however long Send goes on watching and retrying. */
  lemma LostNeverSucceeds(existing: File, src: seq<byte>, p: nat, buffer: nat, before: seq<LinkEvent>, l: Link,
                          after: seq<LinkEvent>, last: Link, part: nat)
    requires p > 0 && LinkRun(StartLink(existing, src, p), src, p, buffer, before, l) && Lost(l, part)
    requires LinkRun(l, src, p, buffer, after, last)
    ensures StatusOf(last.mark) != SUCCESS
  {
    StartInv(existing, src, p);
    var full := LinkRunInv(StartLink(existing, src, p), existing, src, p, buffer, before, l, {});
    var _ := LinkRunInv(l, existing, src, p, buffer, after, last, full);
    LostRun(l, existing, src, p, buffer, after, last, full, part);
  }

  /** Requests and answers arrive at most once. */
  predicate OnlyOnce(es: seq<LinkEvent>) {
    forall k :: 0 <= k < |es| ==> (es[k].Deliver? || es[k].Answer? ==> !es[k].again)
  }

  predicate NoAnswer(l: Link, part: nat) { (part, true) !in l.acks && (part, false) !in l.acks }

  /** A part is unread, or its request is on its way, or one answer is, or that was counted. */
  predicate OneStage(l: Link, part: nat)
    requires part < |l.mark|
  {
    && (!Past(l.sender, part) || !NoRequest(l.requests, part) ==> NoAnswer(l, part) && l.mark[part] == 0)
    && (!Past(l.sender, part) ==> NoRequest(l.requests, part))
    && !((part, true) in l.acks && (part, false) in l.acks)
    && (!NoAnswer(l, part) ==> l.mark[part] == 0)
    && l.mark[part] <= 1
  }

  lemma OneStageStep(
      l: Link, existing: File, src: seq<byte>, p: nat, buffer: nat, e: LinkEvent, full: set<nat>, part: nat)
    requires p > 0 && LinkInv(l, existing, src, p, full) && Enabled(l, src, p, e)
    requires part < |l.mark| && OneStage(l, part) && (e.Deliver? || e.Answer? ==> !e.again)
    ensures part < |LinkStep(l, src, p, buffer, e).mark| && OneStage(LinkStep(l, src, p, buffer, e), part)
  {
    var t := LinkStep(l, src, p, buffer, e);
    if e.Deliver? {
      assert (e.part, e.content).0 < PartCount(|src|, p) && e.content == Slice(src, p, e.part);
      if e.part == part {
        forall r | r in t.requests ensures r.0 != part { assert r in l.requests; }
      } else if !NoRequest(t.requests, part) {
        var r :| r in t.requests && r.0 == part;
        assert r in l.requests;
      }
    } else if e.Send? && l.sender.next != part && !NoRequest(t.requests, part) {
      var r :| r in t.requests && r.0 == part;
      assert r in l.requests;
    }
  }

  lemma {:induction false} OneStageRun(l: Link, existing: File, src: seq<byte>, p: nat, buffer: nat, es: seq<LinkEvent>,
                                       last: Link, full: set<nat>, part: nat)
    requires p > 0 && LinkInv(l, existing, src, p, full) && LinkRun(l, src, p, buffer, es, last)
    requires OnlyOnce(es) && part < |l.mark| && OneStage(l, part)
    ensures part < |last.mark| && OneStage(last, part)
    decreases |es|
  {
    if es != [] {
      var e := es[0];
      LinkStepInv(l, existing, src, p, buffer, e, full);
      OneStageStep(l, existing, src, p, buffer, e, full, part);
      assert OnlyOnce(es[1..]) by { assert forall k :: 0 <= k < |es[1..]| ==> es[1..][k] == es[k + 1]; }
      OneStageRun(LinkStep(l, src, p, buffer, e), existing, src, p, buffer, es[1..], last,
                  FullAfter(l, src, p, e, full), part);
    }
  }

  lemma StartStage(existing: File, src: seq<byte>, p: nat, part: nat)
    requires p > 0 && part < PartCount(|src|, p)
    ensures OneStage(StartLink(existing, src, p), part)
  {
  }

  /** Of a part that was refused nothing is on its way any more. */
  lemma RefusedIsLost(l: Link, part: nat)
    requires part < |l.mark| && OneStage(l, part) && l.mark[part] == 1
    ensures Lost(l, part) && NoAnswer(l, part)
  {
  }

  lemma {:induction false} MarkStays(l: Link, existing: File, src: seq<byte>, p: nat, buffer: nat, es: seq<LinkEvent>,
                                     last: Link, full: set<nat>, part: nat)
    requires p > 0 && LinkInv(l, existing, src, p, full) && LinkRun(l, src, p, buffer, es, last)
    requires OnlyOnce(es) && part < |l.mark| && OneStage(l, part) && l.mark[part] == 1
    ensures part < |last.mark| && last.mark[part] == 1
    decreases |es|
  {
    if es != [] {
      var e := es[0];
      RefusedIsLost(l, part);
      LinkStepInv(l, existing, src, p, buffer, e, full);
      OneStageStep(l, existing, src, p, buffer, e, full, part);
      assert OnlyOnce(es[1..]) by { assert forall k :: 0 <= k < |es[1..]| ==> es[1..][k] == es[k + 1]; }
      MarkStays(LinkStep(l, src, p, buffer, e), existing, src, p, buffer, es[1..], last,
                FullAfter(l, src, p, e, full), part);
    }
  }

  lemma SomeRefused(mark: seq<int>, part: nat)
    requires part < |mark| && mark[part] == 1 && forall i :: 0 <= i < |mark| ==> mark[i] <= 1
    ensures StatusOf(mark) == RETRYING
  {
  }

  /** On a link that duplicates nothing, one refused part keeps Send retrying for good: neither SUCCESS nor
      TOO_MANY_RETRY is ever reached, because nothing is resent. */
  lemma RefusedRetriesForever(existing: File, src: seq<byte>, p: nat, buffer: nat, before: seq<LinkEvent>, l: Link,
                              after: seq<LinkEvent>, last: Link, part: nat)
    requires p > 0 && OnlyOnce(before) && OnlyOnce(after)
    requires LinkRun(StartLink(existing, src, p), src, p, buffer, before, l)
    requires part < |l.mark| && l.mark[part] == 1 && LinkRun(l, src, p, buffer, after, last)
    ensures StatusOf(last.mark) == RETRYING
  {
    var start := StartLink(existing, src, p);
    StartInv(existing, src, p);
    var full := LinkRunInv(start, existing, src, p, buffer, before, l, {});
    forall i | 0 <= i < |l.mark| ensures OneStage(l, i) {
      StartStage(existing, src, p, i);
      OneStageRun(start, existing, src, p, buffer, before, l, {}, i);
    }
    var _ := LinkRunInv(l, existing, src, p, buffer, after, last, full);
    forall i | 0 <= i < |last.mark| ensures last.mark[i] <= 1 {
      OneStageRun(l, existing, src, p, buffer, after, last, full, i);
    }
    MarkStays(l, existing, src, p, buffer, after, last, full, part);
    SomeRefused(last.mark, part);
  }

  // ---------- runs that end badly ----------

  lemma TwoEvents(l: Link, src: seq<byte>, p: nat, buffer: nat, e: LinkEvent, f: LinkEvent)
    requires p > 0 && Enabled(l, src, p, e) && Enabled(LinkStep(l, src, p, buffer, e), src, p, f)
    ensures LinkRun(l, src, p, buffer, [e, f], LinkStep(LinkStep(l, src, p, buffer, e), src, p, buffer, f))
  {
    assert [e, f][1..] == [f] && [f][1..] == [];
    assert LinkRun(LinkStep(l, src, p, buffer, e), src, p, buffer, [f],
                   LinkStep(LinkStep(l, src, p, buffer, e), src, p, buffer, f));
  }

  lemma OneEvent(l: Link, src: seq<byte>, p: nat, buffer: nat, e: LinkEvent, rest: seq<LinkEvent>, last: Link)
    requires p > 0 && Enabled(l, src, p, e) && LinkRun(LinkStep(l, src, p, buffer, e), src, p, buffer, rest, last)
    ensures LinkRun(l, src, p, buffer, [e] + rest, last)
  {
    assert ([e] + rest)[1..] == rest;
  }

  lemma OneDelivery(e: LinkEvent, d: LinkEvent, f: LinkEvent)
    requires !e.Deliver? && d.Deliver? && !f.Deliver?
    ensures NothingLost([e] + [d, f]) <==> !LostAtClose(d.disk)
  {
    var es := [e] + [d, f];
    assert es[0] == e && es[1] == d && es[2] == f;
  }

  /** A file that is one part. */
  predicate OnePart(src: seq<byte>, p: nat) { src != [] && |src| <= p && !(p >= 2 && |src| == p - 1) }

  lemma OnePartFacts(src: seq<byte>, p: nat)
    requires OnePart(src, p)
    ensures p > 0 && PartCount(|src|, p) == 1 && Slice(src, p, 0) == src
    ensures Start(0, p) == 0 && Accepts(|src|, 0, p, |src|)
  {
    PartBelow(|src|, p, 0);
    PartBelow(|src|, p, 1);
    EndOfPart(|src|, p, 0);
    FullEnd(|src|, p, 0);
  }

  lemma OnePartAcked(mark: seq<int>)
    requires |mark| == 1
    ensures StatusOf(Acked(mark, 0, true)) == SUCCESS
  {
    assert Acked(mark, 0, true)[0] == -1;
  }

  lemma OnePartDelivered(l: Link, src: seq<byte>, p: nat, disk: Disk) returns (last: Link)
    requires OnePart(src, p) && p > 0 && disk.wrote && disk.created && (0, src) in l.requests && |l.mark| == 1
    ensures LinkRun(l, src, p, p, [Deliver(0, src, disk, false), Answer(0, true, false)], last)
    ensures StatusOf(last.mark) == SUCCESS
    ensures last.file == Store(l.file, PartRequest(|src|, p, 0, src), disk).file
  {
    OnePartFacts(src, p);
    var d, f := Deliver(0, src, disk, false), Answer(0, true, false);
    var l' := LinkStep(l, src, p, p, d);
    assert (0, true) in l'.acks;
    last := LinkStep(l', src, p, p, f);
    OnePartAcked(l'.mark);
    TwoEvents(l, src, p, p, d, f);
  }

  /** It is sent, delivered with outcome `disk`, and acknowledged. */
  lemma OnePartRun(existing: File, src: seq<byte>, p: nat, disk: Disk) returns (es: seq<LinkEvent>, last: Link)
    requires OnePart(src, p) && p > 0 && disk.wrote && disk.created
    ensures LinkRun(StartLink(existing, src, p), src, p, p, es, last) && StatusOf(last.mark) == SUCCESS
    ensures last.file == Store(existing, PartRequest(|src|, p, 0, src), disk).file
    ensures NothingLost(es) <==> !LostAtClose(disk)
  {
    OnePartFacts(src, p);
    var l := StartLink(existing, src, p);
    assert Extracted(false, src, 0 * p, p) == src;
    var l' := LinkStep(l, src, p, p, Send);
    assert (0, src) in l'.requests;
    last := OnePartDelivered(l', src, p, disk);
    var d, f := Deliver(0, src, disk, false), Answer(0, true, false);
    OneEvent(l, src, p, p, Send, [d, f], last);
    OneDelivery(Send, d, f);
    es := [Send] + [d, f];
  }

  lemma StoreOnePart(f: seq<byte>, file: File, src: seq<byte>, p: nat, disk: Disk)
    requires OnePart(src, p) && disk.wrote && (file == Some(f) || (file.None? && disk.created && f == Zeros(|src|)))
    ensures Store(file, PartRequest(|src|, p, 0, src), disk).file == Some(WriteAt(f, 0, src[..Persists(disk, |src|)]))
  {
    OnePartFacts(src, p);
    StoreWrites(f, file, PartRequest(|src|, p, 0, src), disk);
  }

  /** A target longer than the source keeps its tail although every part is acknowledged. */
  lemma LongerTargetKeepsTail(was: seq<byte>, tail: seq<byte>, src: seq<byte>, p: nat)
    returns (es: seq<LinkEvent>, last: Link)
    requires OnePart(src, p) && p > 0 && |was| == |src|
    ensures LinkRun(StartLink(Some(was + tail), src, p), src, p, p, es, last) && NothingLost(es)
    ensures StatusOf(last.mark) == SUCCESS && last.file == Some(src + tail)
  {
    var disk := Disk(true, false, true, true, 0);
    es, last := OnePartRun(Some(was + tail), src, p, disk);
    StoreOnePart(was + tail, Some(was + tail), src, p, disk);
    assert src[..|src|] == src;
    assert WriteAt(was + tail, 0, src) == src + tail;
  }

  /** The disk fills up when the stream is closed: the part is acknowledged, the target was absent, and the file
      holds zeros where the source has its bytes. */
  lemma LostBytesAcknowledged(src: seq<byte>, p: nat) returns (es: seq<LinkEvent>, last: Link)
    requires OnePart(src, p) && p > 0
    ensures LinkRun(StartLink(None, src, p), src, p, p, es, last) && GoodTarget(None, src) && !NothingLost(es)
    ensures StatusOf(last.mark) == SUCCESS && last.file == Some(Zeros(|src|))
  {
    var disk := Disk(true, false, true, false, 0);
    es, last := OnePartRun(None, src, p, disk);
    StoreOnePart(Zeros(|src|), None, src, p, disk);
  }

  /** A file whose last part is one byte short is never reported as sent. */
  lemma OneShortNeverSucceeds(existing: File, src: seq<byte>, p: nat, buffer: nat, es: seq<LinkEvent>, last: Link)
    requires p > 0 && src != [] && OneShort(|src|, p)
    requires LinkRun(StartLink(existing, src, p), src, p, buffer, es, last)
    ensures StatusOf(last.mark) != SUCCESS
  {
    var l, part := StartLink(existing, src, p), PartCount(|src|, p) - 1;
    LastPart(|src|, p);
    StartInv(existing, src, p);
    NeverConfirmed(l, existing, src, p, buffer, es, last, {});
    var full := LinkRunInv(l, existing, src, p, buffer, es, last, {});
    SuccessConfirmed(last, part);
  }

  lemma LastRefused(l: Link, existing: File, src: seq<byte>, p: nat, e: LinkEvent, full: set<nat>)
    requires p > 0 && src != [] && OneShort(|src|, p) && LinkInv(l, existing, src, p, full)
    requires Enabled(l, src, p, e) && e.Deliver? && e.part == PartCount(|src|, p) - 1
    ensures !Store(l.file, PartRequest(|src|, p, e.part, e.content), e.disk).ok
  {
    assert (e.part, e.content).0 < PartCount(|src|, p) && e.content == Slice(src, p, e.part);
    ChunkAccepted(src, p, e.part);
  }

  lemma {:induction false} NeverConfirmed(l: Link, existing: File, src: seq<byte>, p: nat, buffer: nat,
                                          es: seq<LinkEvent>, last: Link, full: set<nat>)
    requires p > 0 && src != [] && OneShort(|src|, p)
    requires LinkInv(l, existing, src, p, full) && LinkRun(l, src, p, buffer, es, last)
    requires PartCount(|src|, p) >= 1 && !Confirmed(l, PartCount(|src|, p) - 1)
    ensures !Confirmed(last, PartCount(|src|, p) - 1)
    decreases |es|
  {
    if es != [] {
      var e, part := es[0], PartCount(|src|, p) - 1;
      LinkStepInv(l, existing, src, p, buffer, e, full);
      if Confirmed(LinkStep(l, src, p, buffer, e), part) {
        ConfirmedBy(l, existing, src, p, buffer, e, full, part);
        LastRefused(l, existing, src, p, e, full);
      }
      var next, after := LinkStep(l, src, p, buffer, e), FullAfter(l, src, p, e, full);
      NeverConfirmed(next, existing, src, p, buffer, es[1..], last, after);
    }
  }
}
