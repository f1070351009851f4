/** What a run of the upload sends, what its marks count, and which uploads can succeed. */
module TransferRuns {
  import opened Options
  import opened Partition
  import opened Upload
  import opened Transfer

  // ---------- what is sent ----------

  /** The Send events of the run put exactly these requests on the way, in this order, and no other event puts any. */
  ghost predicate Sends(l: Link, src: seq<byte>, p: nat, buffer: nat, es: seq<LinkEvent>, out: seq<(nat, seq<byte>)>)
    requires p > 0
    decreases |es|
  {
    if es == [] then out == []
    else
      && Enabled(l, src, p, es[0])
      && var next := LinkStep(l, src, p, buffer, es[0]);
         if es[0].Send? then
           out != [] && next.requests == l.requests + {out[0]} && Sends(next, src, p, buffer, es[1..], out[1..])
         else next.requests <= l.requests && Sends(next, src, p, buffer, es[1..], out)
  }

  /** The parts of the file from number n on, as requests. */
  function PartsFrom(src: seq<byte>, p: nat, n: nat): seq<(nat, seq<byte>)>
    requires p > 0
    decreases PartCount(|src|, p) - n
  {
    if n < PartCount(|src|, p) then [(n, Slice(src, p, n))] + PartsFrom(src, p, n + 1) else []
  }

  lemma {:induction false} PartsFromAt(src: seq<byte>, p: nat, n: nat, i: nat)
    requires p > 0 && n <= PartCount(|src|, p)
    ensures |PartsFrom(src, p, n)| == PartCount(|src|, p) - n
    ensures n + i < PartCount(|src|, p) ==> PartsFrom(src, p, n)[i] == (n + i, Slice(src, p, n + i))
    decreases PartCount(|src|, p) - n
  {
    if n < PartCount(|src|, p) {
      PartsFromAt(src, p, n + 1, if i > 0 then i - 1 else 0);
    }
  }

  /** The stream has failed only at the end of the file. */
  predicate CutInv(l: Link, src: seq<byte>, p: nat)
    requires p > 0
  {
    match l.sender
    case Cutting(n) => n <= PartCount(|src|, p) && (l.failbit ==> n == PartCount(|src|, p))
    case Watching => l.failbit
    case Interrupted => true
  }

  /** A read at block n finds something exactly if there is such a part, and comes up short only in the last. */
  lemma BlockRead(src: seq<byte>, p: nat, n: nat)
    requires p > 0
    ensures SliceAt(src, n * p, p) != [] <==> n < PartCount(|src|, p)
    ensures n < PartCount(|src|, p) && |SliceAt(src, n * p, p)| < p ==> n + 1 == PartCount(|src|, p)
  {
    if src != [] {
      PartBelow(|src|, p, n);
      PartBelow(|src|, p, n + 1);
      assert (n + 1) * p == n * p + p;
    }
  }

  lemma CutStep(l: Link, src: seq<byte>, p: nat, buffer: nat, e: LinkEvent)
    requires p > 0 && CutInv(l, src, p) && Enabled(l, src, p, e)
    ensures CutInv(LinkStep(l, src, p, buffer, e), src, p)
  {
    if l.sender.Cutting? { BlockRead(src, p, l.sender.next); }
  }

  lemma {:induction false} InterruptedStays(
      l: Link, src: seq<byte>, p: nat, buffer: nat, es: seq<LinkEvent>, last: Link)
    requires p > 0 && l.sender == Interrupted && LinkRun(l, src, p, buffer, es, last)
    ensures last.sender == Interrupted
    decreases |es|
  {
    if es != [] { InterruptedStays(LinkStep(l, src, p, buffer, es[0]), src, p, buffer, es[1..], last); }
  }

  /** What is still to be sent. */
  function Ahead(l: Link, src: seq<byte>, p: nat): seq<(nat, seq<byte>)>
    requires p > 0
  {
    if l.sender.Cutting? then PartsFrom(src, p, l.sender.next) else []
  }

  lemma SendsNext(l: Link, src: seq<byte>, p: nat, buffer: nat, e: LinkEvent)
    requires p > 0 && CutInv(l, src, p) && Enabled(l, src, p, e) && e != Interrupt
    ensures var next, out := LinkStep(l, src, p, buffer, e), Ahead(l, src, p);
            if e.Send? then
              out != [] && next.requests == l.requests + {out[0]} && Ahead(next, src, p) == out[1..]
            else next.requests <= l.requests && Ahead(next, src, p) == out
  {
    if l.sender.Cutting? { BlockRead(src, p, l.sender.next); }
  }

  lemma {:induction false} SendsAhead(l: Link, src: seq<byte>, p: nat, buffer: nat, es: seq<LinkEvent>, last: Link)
    requires p > 0 && CutInv(l, src, p) && LinkRun(l, src, p, buffer, es, last) && last.sender == Watching
    ensures Sends(l, src, p, buffer, es, Ahead(l, src, p))
    decreases |es|
  {
    if es != [] {
      var next := LinkStep(l, src, p, buffer, es[0]);
      if es[0] == Interrupt {
        InterruptedStays(next, src, p, buffer, es[1..], last);
      } else {
        CutStep(l, src, p, buffer, es[0]);
        SendsNext(l, src, p, buffer, es[0]);
        SendsAhead(next, src, p, buffer, es[1..], last);
      }
    }
  }

  /** In every run, by the time Send watches the marks it has put every part of the file on the way once, in order,
      with exactly its bytes, and nothing else. */
  lemma SendsEveryPart(existing: File, src: seq<byte>, p: nat, buffer: nat, es: seq<LinkEvent>, last: Link)
    requires p > 0 && LinkRun(StartLink(existing, src, p), src, p, buffer, es, last) && last.sender == Watching
    ensures |PartsFrom(src, p, 0)| == PartCount(|src|, p)
    ensures forall i: nat :: i < PartCount(|src|, p) ==> PartsFrom(src, p, 0)[i] == (i, Slice(src, p, i))
    ensures Sends(StartLink(existing, src, p), src, p, buffer, es, PartsFrom(src, p, 0))
  {
    PartsFromAt(src, p, 0, 0);
    forall i: nat | i < PartCount(|src|, p) ensures PartsFrom(src, p, 0)[i] == (i, Slice(src, p, i)) {
      PartsFromAt(src, p, 0, i);
    }
    SendsAhead(StartLink(existing, src, p), src, p, buffer, es, last);
  }

  // ---------- what the marks count ----------

  predicate Answers(e: LinkEvent, part: nat, ok: bool) { e.Answer? && e.part == part && e.ok == ok }

  predicate NoneOk(es: seq<LinkEvent>, part: nat) { forall k :: 0 <= k < |es| ==> !Answers(es[k], part, true) }

  function Failures(es: seq<LinkEvent>, part: nat): nat {
    if es == [] then 0 else (if Answers(es[0], part, false) then 1 else 0) + Failures(es[1..], part)
  }

  lemma {:induction false} FailuresCounted(l: Link, src: seq<byte>, p: nat, buffer: nat, es: seq<LinkEvent>, last: Link,
                                           part: nat)
    requires p > 0 && LinkRun(l, src, p, buffer, es, last) && NoneOk(es, part) && part < |l.mark|
    ensures |last.mark| == |l.mark| && last.mark[part] == l.mark[part] + Failures(es, part)
    decreases |es|
  {
    if es != [] {
      assert !Answers(es[0], part, true);
      assert NoneOk(es[1..], part) by { assert forall k :: 0 <= k < |es[1..]| ==> es[1..][k] == es[k + 1]; }
      FailuresCounted(LinkStep(l, src, p, buffer, es[0]), src, p, buffer, es[1..], last, part);
    }
  }

  /** A part's mark is the number of its failed answers since the last positive one, less one if there was one. */
  lemma {:induction false} MarkCounts(l: Link, src: seq<byte>, p: nat, buffer: nat, es: seq<LinkEvent>, last: Link,
                                      part: nat, j: nat)
    requires p > 0 && LinkRun(l, src, p, buffer, es, last) && part < |l.mark|
    requires j < |es| && Answers(es[j], part, true) && NoneOk(es[j + 1..], part)
    ensures |last.mark| == |l.mark| && last.mark[part] == Failures(es[j + 1..], part) - 1
    decreases |es|
  {
    var next := LinkStep(l, src, p, buffer, es[0]);
    if j == 0 {
      FailuresCounted(next, src, p, buffer, es[1..], last, part);
    } else {
      assert es[1..][j - 1 + 1..] == es[j + 1..];
      MarkCounts(next, src, p, buffer, es[1..], last, part, j - 1);
    }
  }

  lemma StartMark(existing: File, src: seq<byte>, p: nat, part: nat)
    requires p > 0 && part < PartCount(|src|, p)
    ensures part < |StartLink(existing, src, p).mark| && StartLink(existing, src, p).mark[part] == 0
  {
  }

  /** Two failed answers for a part and no positive one: too many. */
  lemma TwoRefusals(existing: File, src: seq<byte>, p: nat, buffer: nat, es: seq<LinkEvent>, last: Link, part: nat)
    requires p > 0 && LinkRun(StartLink(existing, src, p), src, p, buffer, es, last)
    requires part < PartCount(|src|, p) && NoneOk(es, part)
    ensures Failures(es, part) >= 2 ==> StatusOf(last.mark) == TOO_MANY_RETRY
    ensures StatusOf(last.mark) != SUCCESS
  {
    StartMark(existing, src, p, part);
    FailuresCounted(StartLink(existing, src, p), src, p, buffer, es, last, part);
    assert last.mark[part] > 1 || last.mark[part] >= 0;
  }

  // ---------- uploads that succeed ----------

  lemma {:induction false} RunConcat(l: Link, src: seq<byte>, p: nat, buffer: nat, a: seq<LinkEvent>, m: Link,
                                     b: seq<LinkEvent>, last: Link)
    requires p > 0 && LinkRun(l, src, p, buffer, a, m) && LinkRun(m, src, p, buffer, b, last)
    ensures LinkRun(l, src, p, buffer, a + b, last)
    decreases |a|
  {
    if a == [] {
      assert a + b == b;
    } else {
      assert (a + b)[1..] == a[1..] + b;
      RunConcat(LinkStep(l, src, p, buffer, a[0]), src, p, buffer, a[1..], m, b, last);
    }
  }

  /** The first n parts are sent and acknowledged, and nothing is on the way. */
  predicate Progress(l: Link, src: seq<byte>, p: nat, n: nat)
    requires p > 0
  {
    && l.sender == Cutting(n) && CutInv(l, src, p) && l.requests == {} && l.acks == {}
    && |l.mark| == PartCount(|src|, p) && (forall i :: 0 <= i < n ==> l.mark[i] == -1)
  }

  lemma PartSent(l: Link, src: seq<byte>, p: nat, buffer: nat, n: nat) returns (m: Link)
    requires p > 0 && Progress(l, src, p, n) && n < PartCount(|src|, p)
    ensures Enabled(l, src, p, Send) && m == LinkStep(l, src, p, buffer, Send)
    ensures m.requests == {(n, Slice(src, p, n))} && m.sender == Cutting(n + 1) && CutInv(m, src, p)
    ensures m.acks == {} && m.mark == l.mark
  {
    BlockRead(src, p, n);
    m := LinkStep(l, src, p, buffer, Send);
    CutStep(l, src, p, buffer, Send);
    assert {} + {(n, Slice(src, p, n))} == {(n, Slice(src, p, n))};
  }

  lemma PartDelivered(l: Link, src: seq<byte>, p: nat, buffer: nat, n: nat) returns (m: Link)
    requires p > 0 && n < PartCount(|src|, p) && !OneShort(|src|, p)
    requires l.requests == {(n, Slice(src, p, n))} && l.acks == {}
    ensures var e := Deliver(n, Slice(src, p, n), GoodDisk, false);
            Enabled(l, src, p, e) && m == LinkStep(l, src, p, buffer, e)
    ensures m.requests == {} && m.acks == {(n, true)} && m.mark == l.mark
    ensures m.sender == l.sender && m.failbit == l.failbit
  {
    var c := Slice(src, p, n);
    m := LinkStep(l, src, p, buffer, Deliver(n, c, GoodDisk, false));
    ChunkAccepted(src, p, n);
    StartInside(|src|, p, n);
    StoreExact(l.file, PartRequest(|src|, p, n, c), GoodDisk);
    assert {} + {(n, true)} == {(n, true)} && {(n, c)} - {(n, c)} == {};
  }

  lemma ThreeEvents(l: Link, src: seq<byte>, p: nat, buffer: nat, e: LinkEvent, f: LinkEvent, g: LinkEvent)
    returns (last: Link)
    requires p > 0 && Enabled(l, src, p, e)
    requires var m := LinkStep(l, src, p, buffer, e);
             Enabled(m, src, p, f) && Enabled(LinkStep(m, src, p, buffer, f), src, p, g)
    ensures LinkRun(l, src, p, buffer, [e, f, g], last)
    ensures last == LinkStep(LinkStep(LinkStep(l, src, p, buffer, e), src, p, buffer, f), src, p, buffer, g)
  {
    var m := LinkStep(l, src, p, buffer, e);
    last := LinkStep(LinkStep(m, src, p, buffer, f), src, p, buffer, g);
    TwoEvents(m, src, p, buffer, f, g);
    assert [e, f, g][1..] == [f, g];
  }

  /** One more part is sent, stored and acknowledged. */
  lemma PartDone(l: Link, src: seq<byte>, p: nat, buffer: nat, n: nat) returns (es: seq<LinkEvent>, last: Link)
    requires p > 0 && Progress(l, src, p, n) && n < PartCount(|src|, p) && !OneShort(|src|, p)
    ensures LinkRun(l, src, p, buffer, es, last) && Transfer.NothingLost(es) && Progress(last, src, p, n + 1)
  {
    var d := Deliver(n, Slice(src, p, n), GoodDisk, false);
    var sent := PartSent(l, src, p, buffer, n);
    var stored := PartDelivered(sent, src, p, buffer, n);
    es := [Send, d, Answer(n, true, false)];
    last := ThreeEvents(l, src, p, buffer, Send, d, Answer(n, true, false));
    assert {(n, true)} - {(n, true)} == {};
  }

  lemma {:induction false} AllPartsDone(l: Link, src: seq<byte>, p: nat, buffer: nat, n: nat)
    returns (es: seq<LinkEvent>, last: Link)
    requires p > 0 && Progress(l, src, p, n) && n <= PartCount(|src|, p) && !OneShort(|src|, p)
    ensures LinkRun(l, src, p, buffer, es, last) && Transfer.NothingLost(es)
    ensures Progress(last, src, p, PartCount(|src|, p))
    decreases PartCount(|src|, p) - n
  {
    es, last := [], l;
    if n < PartCount(|src|, p) {
      var first, m := PartDone(l, src, p, buffer, n);
      var rest;
      rest, last := AllPartsDone(m, src, p, buffer, n + 1);
      RunConcat(l, src, p, buffer, first, m, rest, last);
      es := first + rest;
    }
  }

  lemma CutEnds(l: Link, src: seq<byte>, p: nat, buffer: nat) returns (last: Link)
    requires p > 0 && Progress(l, src, p, PartCount(|src|, p))
    ensures LinkRun(l, src, p, buffer, [EndCut], last)
    ensures last.sender == Watching && last.mark == l.mark && StatusOf(last.mark) == SUCCESS
  {
    BlockRead(src, p, PartCount(|src|, p));
    last := LinkStep(l, src, p, buffer, EndCut);
    assert [EndCut][1..] == [];
    assert LinkRun(last, src, p, buffer, [], last);
  }

  /** Every file that is not one byte short, of any number of parts, has an upload that succeeds: all parts are sent,
      stored and acknowledged, and from a good target the file ends as the source. */
  lemma UploadSucceeds(existing: File, src: seq<byte>, p: nat, buffer: nat) returns (es: seq<LinkEvent>, last: Link)
    requires p > 0 && !OneShort(|src|, p)
    ensures LinkRun(StartLink(existing, src, p), src, p, buffer, es, last) && Transfer.NothingLost(es)
    ensures last.sender == Watching && StatusOf(last.mark) == SUCCESS
    ensures GoodTarget(existing, src) ==> last.file == Some(src)
  {
    var l := StartLink(existing, src, p);
    var first, m := AllPartsDone(l, src, p, buffer, 0);
    last := CutEnds(m, src, p, buffer);
    RunConcat(l, src, p, buffer, first, m, [EndCut], last);
    es := first + [EndCut];
    UploadExact(existing, src, p, buffer, es, last);
  }

  ghost predicate Succeeds(existing: File, src: seq<byte>, p: nat, buffer: nat, es: seq<LinkEvent>, last: Link)
    requires p > 0
  {
    LinkRun(StartLink(existing, src, p), src, p, buffer, es, last) && StatusOf(last.mark) == SUCCESS
  }

  /** An upload can succeed exactly when the file is not one byte short of a full last part. */
  lemma SucceedsExactly(existing: File, src: seq<byte>, p: nat, buffer: nat)
    requires p > 0
    ensures (exists es, last :: Succeeds(existing, src, p, buffer, es, last)) <==> !OneShort(|src|, p)
  {
    if OneShort(|src|, p) {
      forall es, last | Succeeds(existing, src, p, buffer, es, last) ensures false {
        OneShortNeverSucceeds(existing, src, p, buffer, es, last);
      }
    } else {
      var es, last := UploadSucceeds(existing, src, p, buffer);
      assert Succeeds(existing, src, p, buffer, es, last);
    }
  }
}
