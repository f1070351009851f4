/** Storing parts on the server: RepoManager::WriteToFile, and FileProcessManager, which counts the parts
    of a request. */
module Upload {
  import opened Arithmetic
  import opened Options
  import opened Partition

  type File = Option<seq<byte>>

  function Zeros(n: nat): (z: seq<byte>)
    ensures |z| == n
  {
    seq(n, _ => 0)
  }

  /** ofstream::seekp(at) followed by write(c): a gap past the end is filled with zeros, the rest
      of the file is kept. */
  function WriteAt(f: seq<byte>, at: nat, c: seq<byte>): (g: seq<byte>)
    ensures c == [] ==> g == f
    ensures c != [] ==> |g| == (if |f| > at + |c| then |f| else at + |c|)
    ensures forall i :: 0 <= i < |g| && c != [] ==>
              g[i] == (if at <= i < at + |c| then c[i - at] else if i < |f| then f[i] else 0)
  {
    if c == [] then f
    else
      var base := if |f| < at then f + Zeros(at - |f|) else f;
      base[..at] + c + (if |base| > at + |c| then base[at + |c|..] else [])
  }

  /** Outcome of the calls into the file system made for one request: creating the file (which may
      fail with or without leaving an empty file behind), the write, and the close, which nobody looks at.
      When either of the last two fails, only a prefix of the content reached the file. */
  datatype Disk = Disk(created: bool, leftEmpty: bool, wrote: bool, closed: bool, prefix: nat)

  /** The write is reported as done, and what it left in the stream's buffer is lost at close. */
  predicate LostAtClose(disk: Disk) { disk.wrote && !disk.closed }

  /** How much of a content of this length the write and the close bring to the file. */
  function Persists(disk: Disk, len: nat): (n: nat)
    ensures n <= len
  {
    if disk.wrote && disk.closed then len else Min(disk.prefix, len)
  }

  datatype Request = Request(id: string, part: int, size: nat, partSize: nat, content: seq<byte>)

  datatype Stored = Stored(file: File, ok: bool)

  /** RepoManager::WriteToFile on the one file the request names. */
  function Store(file: File, req: Request, disk: Disk): Stored {
    if file.None? && !disk.created then
      Stored(if disk.leftEmpty then Some([]) else None, false)
    else
      var f := if file.None? then Zeros(req.size) else file.value;
      var start := Start(req.part, req.partSize);
      if !Accepts(req.size, req.part, req.partSize, |req.content|) then Stored(Some(f), false)
      else if start < 0 then Stored(Some(f), false)
      else Stored(Some(WriteAt(f, start, req.content[..Persists(disk, |req.content|)])), disk.wrote)
  }

  /** How many bytes of the request reach the file. */
  function Reaches(file: File, req: Request, disk: Disk): (n: nat)
    ensures n <= |req.content|
  {
    if file.None? && !disk.created then 0
    else if !Accepts(req.size, req.part, req.partSize, |req.content|) || Start(req.part, req.partSize) < 0 then 0
    else Persists(disk, |req.content|)
  }

  /** A request is answered with ok exactly when the file is there or can be made, the content has the length of its
      part, and the write is reported as done.  A file once there stays, one that was made is as long as the request
      says, and what is refused is not written. */
  lemma StoreExact(file: File, req: Request, disk: Disk)
    ensures var r := Store(file, req, disk);
            && (r.ok <==>
                  && (file.Some? || disk.created) && disk.wrote
                  && 0 <= Start(req.part, req.partSize)
                  && Accepts(req.size, req.part, req.partSize, |req.content|))
            && (file.Some? || disk.created ==>
                  && r.file.Some?
                  && (Reaches(file, req, disk) == 0 ==>
                        r.file.value == if file.Some? then file.value else Zeros(req.size)))
            && (file.None? && !disk.created ==> r.file == if disk.leftEmpty then Some([]) else None)
  {
  }

  /** A request that finds or makes a file leaves it with those bytes written; with all of them, if it succeeds
      and nothing is lost at close. */
  lemma StoreWrites(f: seq<byte>, file: File, req: Request, disk: Disk)
    requires file == Some(f) || (file.None? && disk.created && f == Zeros(req.size))
    requires Start(req.part, req.partSize) >= 0
    ensures var r, n := Store(file, req, disk), Reaches(file, req, disk);
            && r.file == Some(WriteAt(f, Start(req.part, req.partSize), req.content[..n]))
            && (r.ok && !LostAtClose(disk) ==> n == |req.content|)
  {
  }

  // ---------- FileProcessManager ----------

  datatype Receive = Receive(total: int, parts: set<int>)

  type Shard = map<string, Receive>

  /** A new request's parts are counted by a division. */
  predicate CanPut(q: Shard, req: Request) { req.id in q || req.partSize > 0 }

  function PutSpec(q: Shard, req: Request): Shard
    requires CanPut(q, req)
  {
    if req.id in q then q[req.id := q[req.id].(parts := q[req.id].parts + {req.part})]
    else q[req.id := Receive(FilePartitionNum(req.size, req.partSize), {req.part})]
  }

  predicate Complete(r: Receive) { r.total == |r.parts| }

  function ProcessSpec(q: Shard, meta: set<string>): Shard {
    map id | id in q && !(Complete(q[id]) && id in meta) :: q[id]
  }

  /** The server: the repository file and one shard of the process queue. */
  class RepoManager {
    var file: File
    var queue: Shard

    constructor (existing: File)
      ensures file == existing && queue == map[]
    {
      file, queue := existing, map[];
    }

    /** Put: one more part of a known request, or a new receive context. */
    method Put(req: Request)
      requires CanPut(queue, req)
      modifies this
      ensures queue == PutSpec(old(queue), req) && file == old(file)
    {
      if req.id in queue {
        var ctx := queue[req.id];
        queue := queue[req.id := ctx.(parts := ctx.parts + {req.part})];
      } else {
        var ctx := Receive(FilePartitionNum(req.size, req.partSize), {});
        ctx := ctx.(parts := ctx.parts + {req.part});
        assert ctx.parts == {req.part};
        queue := queue[req.id := ctx];
      }
    }

    method WriteToFile(req: Request, disk: Disk) returns (ok: bool)
      requires Store(file, req, disk).ok ==> CanPut(queue, req)
      modifies this
      ensures Stored(file, ok) == Store(old(file), req, disk)
      ensures queue == if ok then PutSpec(old(queue), req) else old(queue)
    {
      if file.None? {
        if !disk.created {
          if disk.leftEmpty { file := Some([]); }
          return false;
        }
        file := Some(Zeros(req.size));
      }
      var start, end := CalcPartitionStart(req.size, req.part, req.partSize);
      if end - start + 1 != |req.content| { return false; }
      if start < 0 { return false; }
      file := Some(WriteAt(file.value, start, req.content[..Persists(disk, |req.content|)]));
      if !disk.wrote { return false; }
      Put(req);
      return true;
    }

    /** DoProcess: walk the shard once, erasing every complete request whose meta data was written. */
    method DoProcess(meta: set<string>)
      modifies this
      ensures queue == ProcessSpec(old(queue), meta) && file == old(file)
    {
      var todo := queue.Keys;
      while todo != {}
        invariant todo <= old(queue).Keys
        invariant queue == map id | id in old(queue) && (id in todo || !(Complete(old(queue)[id]) && id in meta))
                           :: old(queue)[id]
        invariant file == old(file)
        decreases todo
      {
        var id :| id in todo;
        if Complete(queue[id]) && id in meta {
          queue := queue - {id};
        }
        todo := todo - {id};
      }
    }
  }

  // ---------- completion implies coverage ----------

  /** The server's state with, for the proof, the byte ranges that requests brought to the file. */
  datatype Server = Server(file: File, queue: Shard, written: set<(int, int)>)

  predicate Written(s: Server, off: int) {
    exists w :: w in s.written && w.0 <= off < w.1
  }

  datatype ServerEvent =
    | Arrive(req: Request, disk: Disk)
    | Process(meta: set<string>)

  /** The server does not divide by zero. */
  predicate Divisible(s: Server, e: ServerEvent) {
    e.Arrive? && Store(s.file, e.req, e.disk).ok ==> CanPut(s.queue, e.req)
  }

  function ServerStep(s: Server, e: ServerEvent): Server
    requires Divisible(s, e)
  {
    match e
    case Arrive(req, disk) =>
      var r, start := Store(s.file, req, disk), Start(req.part, req.partSize);
      Server(r.file, if r.ok then PutSpec(s.queue, req) else s.queue,
             s.written + {(start, start + Reaches(s.file, req, disk))})
    case Process(meta) => Server(s.file, ProcessSpec(s.queue, meta), s.written)
  }

  /** Requests with this id agree on the file size and the part size. */
  predicate Agreeing(e: ServerEvent, id: string, size: nat, p: nat) {
    e.Arrive? && e.req.id == id ==> e.req.size == size && e.req.partSize == p
  }

  /** `last` is what such a run of events makes of s. */
  predicate ServerRun(s: Server, es: seq<ServerEvent>, id: string, size: nat, p: nat, last: Server)
    decreases |es|
  {
    if es == [] then s == last
    else
      && Divisible(s, es[0]) && Agreeing(es[0], id, size, p)
      && ServerRun(ServerStep(s, es[0]), es[1..], id, size, p, last)
  }

  /** No request with this id loses anything at close. */
  predicate NothingLost(es: seq<ServerEvent>, id: string) {
    forall k :: 0 <= k < |es| ==> !(es[k].Arrive? && es[k].req.id == id && LostAtClose(es[k].disk))
  }

  /** The counted parts are parts of the file, or the one number behind them. */
  predicate CountInv(s: Server, id: string, size: nat, p: nat)
    requires p > 0
  {
    id in s.queue ==>
      && s.queue[id].total == FilePartitionNum(size, p)
      && forall k :: k in s.queue[id].parts ==> 0 <= k <= PartCount(size, p)
  }

  /** The counted parts of the file were written. */
  predicate WrittenInv(s: Server, id: string, size: nat, p: nat)
    requires p > 0
  {
    id in s.queue ==>
      forall k :: k in s.queue[id].parts && 0 <= k < PartCount(size, p) ==> PartWritten(s.written, size, p, k)
  }

  predicate PartWritten(written: set<(int, int)>, size: nat, p: nat, k: int) {
    exists w :: w in written && w.0 == k * p && w.1 >= Min(k * p + p, size)
  }

  /** An accepted part has a number of the file, and was sent at least in full, or has the number behind them. */
  lemma AcceptedPart(size: nat, p: nat, part: int, len: nat)
    requires p > 0 && Accepts(size, part, p, len) && Start(part, p) >= 0
    ensures 0 <= part <= PartCount(size, p)
    ensures part < PartCount(size, p) ==> part * p + len >= Min(part * p + p, size)
  {
    if part < 0 { MulStep(part, 0, p); }
    assert part * p <= size;
    if part * p == size {
      QuotientIs(part, 0, p, size);
    } else {
      PartBelow(size, p, part);
    }
  }

  lemma CountStep(s: Server, e: ServerEvent, id: string, size: nat, p: nat)
    requires p > 0 && Divisible(s, e) && Agreeing(e, id, size, p) && CountInv(s, id, size, p)
    ensures CountInv(ServerStep(s, e), id, size, p)
  {
    if e.Arrive? && e.req.id == id && Store(s.file, e.req, e.disk).ok {
      AcceptedPart(size, p, e.req.part, |e.req.content|);
    }
  }

  lemma {:induction false} CountRun(s: Server, es: seq<ServerEvent>, id: string, size: nat, p: nat, last: Server)
    requires p > 0 && CountInv(s, id, size, p) && ServerRun(s, es, id, size, p, last)
    ensures CountInv(last, id, size, p)
    decreases |es|
  {
    if es != [] {
      CountStep(s, es[0], id, size, p);
      CountRun(ServerStep(s, es[0]), es[1..], id, size, p, last);
    }
  }

  lemma StillWritten(a: set<(int, int)>, b: set<(int, int)>, size: nat, p: nat, k: int)
    requires a <= b && PartWritten(a, size, p, k)
    ensures PartWritten(b, size, p, k)
  {
    var w :| w in a && w.0 == k * p && w.1 >= Min(k * p + p, size);
    assert w in b;
  }

  /** A stored part that loses nothing at close was written. */
  lemma NowWritten(s: Server, req: Request, disk: Disk)
    requires req.partSize > 0 && Store(s.file, req, disk).ok && !LostAtClose(disk) && Divisible(s, Arrive(req, disk))
    requires 0 <= req.part < PartCount(req.size, req.partSize)
    ensures PartWritten(ServerStep(s, Arrive(req, disk)).written, req.size, req.partSize, req.part)
  {
    AcceptedPart(req.size, req.partSize, req.part, |req.content|);
    var start := Start(req.part, req.partSize);
    var w := (start, start + |req.content|);
    assert w in ServerStep(s, Arrive(req, disk)).written;
  }

  lemma WrittenStep(s: Server, e: ServerEvent, id: string, size: nat, p: nat)
    requires p > 0 && Divisible(s, e) && Agreeing(e, id, size, p) && WrittenInv(s, id, size, p)
    requires e.Arrive? && e.req.id == id ==> !LostAtClose(e.disk)
    ensures WrittenInv(ServerStep(s, e), id, size, p)
  {
    var t := ServerStep(s, e);
    if id in t.queue {
      forall k | k in t.queue[id].parts && 0 <= k < PartCount(size, p) ensures PartWritten(t.written, size, p, k) {
        if id in s.queue && k in s.queue[id].parts {
          StillWritten(s.written, t.written, size, p, k);
        } else {
          NowWritten(s, e.req, e.disk);
        }
      }
    }
  }

  lemma {:induction false} WrittenRun(s: Server, es: seq<ServerEvent>, id: string, size: nat, p: nat, last: Server)
    requires p > 0 && WrittenInv(s, id, size, p) && ServerRun(s, es, id, size, p, last) && NothingLost(es, id)
    ensures WrittenInv(last, id, size, p)
    decreases |es|
  {
    if es != [] {
      assert !(es[0].Arrive? && es[0].req.id == id && LostAtClose(es[0].disk));
      WrittenStep(s, es[0], id, size, p);
      assert NothingLost(es[1..], id) by { assert forall k :: 0 <= k < |es[1..]| ==> es[1..][k] == es[k + 1]; }
      WrittenRun(ServerStep(s, es[0]), es[1..], id, size, p, last);
    }
  }

  lemma {:induction false} Pigeonhole(s: set<int>, n: nat, k: nat)
    requires forall i :: i in s ==> 0 <= i < n
    ensures |s| <= n
    ensures |s| == n && k < n ==> k in s
  {
    if n > 0 {
      var t := s - {n - 1};
      Pigeonhole(t, n - 1, k);
      assert s == t || s == t + {n - 1};
    } else {
      assert forall i :: i in s ==> i !in s;
    }
  }

  lemma {:induction false} AtLeast(s: set<int>, n: nat)
    requires forall k :: 0 <= k < n ==> k in s
    ensures |s| >= n
  {
    if n > 0 {
      AtLeast(s - {n - 1}, n - 1);
      assert s == s - {n - 1} + {n - 1};
    }
  }

  /** n numbers out of 0 .. n are 0 .. n-1 exactly when n is not among them. */
  lemma AllBelow(s: set<int>, n: nat)
    requires |s| == n && forall k :: k in s ==> 0 <= k <= n
    ensures (forall k :: 0 <= k < n ==> k in s) <==> n !in s
  {
    if n in s {
      if forall k :: 0 <= k < n ==> k in s { AtLeast(s, n + 1); }
    } else {
      forall k | 0 <= k < n ensures k in s { Pigeonhole(s, n, k); }
    }
  }

  /** When DoProcess sees as many distinct parts as the file has, they are the parts of the file if and only if the
      number just behind them is not among them. */
  lemma CompletionExact(existing: File, es: seq<ServerEvent>, id: string, size: nat, p: nat, last: Server)
    requires p > 0 && PartCount(size, p) < INT32_LIMIT
    requires ServerRun(Server(existing, map[], {}), es, id, size, p, last)
    requires id in last.queue && Complete(last.queue[id])
    ensures var parts, n := last.queue[id].parts, PartCount(size, p);
            (forall k :: 0 <= k < n ==> k in parts) <==> n !in parts
  {
    CountRun(Server(existing, map[], {}), es, id, size, p, last);
    AsInt32Fits(PartCount(size, p));
    AllBelow(last.queue[id].parts, PartCount(size, p));
  }

  /** Then, if its requests lost nothing at close, every byte of the file was written. */
  lemma CompletionImpliesCoverage(existing: File, es: seq<ServerEvent>, id: string, size: nat, p: nat,
                                  last: Server, off: nat)
    requires p > 0 && PartCount(size, p) < INT32_LIMIT
    requires ServerRun(Server(existing, map[], {}), es, id, size, p, last) && NothingLost(es, id)
    requires id in last.queue && Complete(last.queue[id]) && PartCount(size, p) !in last.queue[id].parts
    requires off < size
    ensures Written(last, off)
  {
    CompletionExact(existing, es, id, size, p, last);
    WrittenRun(Server(existing, map[], {}), es, id, size, p, last);
    var k := off / p;
    DivIs(off, k, p);
    PartBelow(size, p, k);
    assert k in last.queue[id].parts;
    var w :| w in last.written && w.0 == k * p && w.1 >= Min(k * p + p, size);
  }

  // ---------- what is counted ----------

  function FileAfter(f: File, e: ServerEvent): File { if e.Arrive? then Store(f, e.req, e.disk).file else f }

  /** The event is a request with this id that is answered with ok. */
  predicate StoresOk(f: File, e: ServerEvent, id: string) {
    e.Arrive? && e.req.id == id && Store(f, e.req, e.disk).ok
  }

  /** The part numbers of all such requests, starting with this file. */
  function StoredParts(f: File, es: seq<ServerEvent>, id: string): set<int>
    decreases |es|
  {
    if es == [] then {}
    else (if StoresOk(f, es[0], id) then {es[0].req.part} else {}) + StoredParts(FileAfter(f, es[0]), es[1..], id)
  }

  /** A request is erased when it is complete and its meta data was written; otherwise it stays as it is. */
  lemma ProcessExact(s: Server, meta: set<string>, id: string)
    ensures var q := ServerStep(s, Process(meta)).queue;
            if id in s.queue && !(id in meta && |s.queue[id].parts| == s.queue[id].total)
            then id in q && q[id] == s.queue[id]
            else id !in q
  {
  }

  /** What one event does to the count of a request. */
  lemma CountedStep(s: Server, e: ServerEvent, id: string, size: nat, p: nat)
    requires p > 0 && Divisible(s, e) && Agreeing(e, id, size, p)
    ensures var t := ServerStep(s, e);
            && t.file == FileAfter(s.file, e)
            && (id in s.queue && id in t.queue ==>
                  && t.queue[id].parts == s.queue[id].parts + (if StoresOk(s.file, e, id) then {e.req.part} else {})
                  && t.queue[id].total == s.queue[id].total)
            && (id !in s.queue ==>
                  && (id in t.queue <==> StoresOk(s.file, e, id))
                  && (id in t.queue ==> t.queue[id] == Receive(FilePartitionNum(size, p), {e.req.part})))
            && (id in s.queue && id !in t.queue ==> e.Process? && id in e.meta && Complete(s.queue[id]))
            && (e.Process? && id in e.meta && id in s.queue && Complete(s.queue[id]) ==> id !in t.queue)
  {
  }

  lemma RunCons(s: Server, es: seq<ServerEvent>, id: string, size: nat, p: nat, j: nat, mid: Server)
    requires es != [] && j < |es| && Divisible(s, es[0]) && Agreeing(es[0], id, size, p)
    requires ServerRun(ServerStep(s, es[0]), es[1..][..j], id, size, p, mid)
    ensures ServerRun(s, es[..j + 1], id, size, p, mid)
  {
    assert es[..j + 1][1..] == es[1..][..j];
  }

  /** In any run: a request that is in the queue at the end was there all along, or was created by its j-th event
      and has been there since. */
  lemma {:induction false} CountedSince(s: Server, es: seq<ServerEvent>, id: string, size: nat, p: nat, last: Server)
    returns (kept: bool, j: nat, mid: Server)
    requires p > 0 && ServerRun(s, es, id, size, p, last) && id in last.queue
    ensures kept ==>
              && id in s.queue && last.queue[id].total == s.queue[id].total
              && last.queue[id].parts == s.queue[id].parts + StoredParts(s.file, es, id)
    ensures !kept ==>
              && j < |es| && ServerRun(s, es[..j], id, size, p, mid) && ServerRun(mid, es[j..], id, size, p, last)
              && id !in mid.queue && StoresOk(mid.file, es[j], id)
              && last.queue[id] == Receive(FilePartitionNum(size, p), StoredParts(mid.file, es[j..], id))
    decreases |es|
  {
    kept, j, mid := true, 0, s;
    if es != [] {
      var t := ServerStep(s, es[0]);
      CountedStep(s, es[0], id, size, p);
      kept, j, mid := CountedSince(t, es[1..], id, size, p, last);
      if !kept {
        RunCons(s, es, id, size, p, j, mid);
        assert es[1..][j..] == es[j + 1..];
        j := j + 1;
      } else if id in s.queue {
        assert s.queue[id].parts + StoredParts(s.file, es, id) == t.queue[id].parts + StoredParts(t.file, es[1..], id);
      } else {
        kept, j, mid := false, 0, s;
        assert es[..0] == [] && es[0..] == es;
      }
    }
  }

  /** So the counted parts of a request are exactly the numbers of the parts stored ok since it was created. */
  lemma CountedExactly(existing: File, es: seq<ServerEvent>, id: string, size: nat, p: nat, last: Server)
    returns (j: nat, mid: Server)
    requires p > 0 && ServerRun(Server(existing, map[], {}), es, id, size, p, last) && id in last.queue
    ensures j < |es| && ServerRun(Server(existing, map[], {}), es[..j], id, size, p, mid)
    ensures id !in mid.queue && StoresOk(mid.file, es[j], id) && ServerRun(mid, es[j..], id, size, p, last)
    ensures last.queue[id] == Receive(FilePartitionNum(size, p), StoredParts(mid.file, es[j..], id))
  {
    var kept;
    kept, j, mid := CountedSince(Server(existing, map[], {}), es, id, size, p, last);
  }

  /** No processing gets to this request. */
  predicate Unprocessed(es: seq<ServerEvent>, id: string) {
    forall k :: 0 <= k < |es| ==> !(es[k].Process? && id in es[k].meta)
  }

  lemma {:induction false} CountedUnprocessed(
      s: Server, es: seq<ServerEvent>, id: string, size: nat, p: nat, last: Server)
    requires p > 0 && ServerRun(s, es, id, size, p, last) && Unprocessed(es, id)
    ensures id in last.queue <==> id in s.queue || StoredParts(s.file, es, id) != {}
    ensures id in last.queue ==>
              last.queue[id].parts == (if id in s.queue then s.queue[id].parts else {}) + StoredParts(s.file, es, id)
    decreases |es|
  {
    if es != [] {
      CountedStep(s, es[0], id, size, p);
      assert Unprocessed(es[1..], id) by { assert forall k :: 0 <= k < |es[1..]| ==> es[1..][k] == es[k + 1]; }
      assert !(es[0].Process? && id in es[0].meta);
      CountedUnprocessed(ServerStep(s, es[0]), es[1..], id, size, p, last);
    }
  }

  lemma FullCount(parts: set<int>, n: nat)
    requires n !in parts && forall k :: k in parts ==> 0 <= k <= n
    ensures |parts| == n <==> forall k :: 0 <= k < n ==> k in parts
  {
    if |parts| == n {
      AllBelow(parts, n);
    } else if forall k :: 0 <= k < n ==> k in parts {
      AtLeast(parts, n);
      Pigeonhole(parts, n, 0);
    }
  }

  lemma CompleteWhenFull(q: Shard, id: string, stored: set<int>, n: nat)
    requires n > 0 && n !in stored && (id in q <==> stored != {})
    requires id in q ==> q[id] == Receive(n, stored) && forall k :: k in stored ==> 0 <= k <= n
    ensures id in q && Complete(q[id]) <==> forall k :: 0 <= k < n ==> k in stored
  {
    if id in q { FullCount(stored, n); } else { assert 0 !in stored; }
  }

  /** A request is complete once every part of its file was stored ok, in any order and however often, and not before;
      the number behind the parts aside. */
  lemma CompleteExactly(existing: File, es: seq<ServerEvent>, id: string, size: nat, p: nat, last: Server)
    requires p > 0 && size > 0 && PartCount(size, p) < INT32_LIMIT
    requires ServerRun(Server(existing, map[], {}), es, id, size, p, last) && Unprocessed(es, id)
    requires PartCount(size, p) !in StoredParts(existing, es, id)
    ensures id in last.queue && Complete(last.queue[id])
            <==> forall k :: 0 <= k < PartCount(size, p) ==> k in StoredParts(existing, es, id)
  {
    var s, n, stored := Server(existing, map[], {}), PartCount(size, p), StoredParts(existing, es, id);
    CountedUnprocessed(s, es, id, size, p, last);
    CountRun(s, es, id, size, p, last);
    AsInt32Fits(n);
    assert {} + stored == stored;
    LastPart(size, p);
    CompleteWhenFull(last.queue, id, stored, n);
  }

  /** Which part with the number just behind the file is taken. */
  lemma BehindExact(size: nat, p: nat, len: nat)
    requires p > 0
    ensures Accepts(size, PartCount(size, p), p, len) <==> size % p == 0 && len == if p == 1 then 1 else 0
  {
    var d, n := size / p, PartCount(size, p);
    assert size == d * p + size % p;
    if size % p > 0 { assert n * p == d * p + p; }
  }

  // ---------- without these conditions ----------

  const GoodDisk := Disk(true, false, true, true, 0)

  const FullAtClose := Disk(true, false, true, false, 0)

  function AfterFirst(req: Request, disk: Disk): Server
    requires req.partSize > 0
  {
    ServerStep(Server(None, map[], {}), Arrive(req, disk))
  }

  lemma OneRange(s: Server, start: nat, n: nat)
    requires s.written == {(start, start + n)}
    ensures Written(s, 0) <==> start == 0 && n > 0
  {
    if start == 0 && n > 0 { assert (start, start + n) in s.written; }
  }

  lemma CountsAtOnce(req: Request)
    requires req.partSize > 0 && PartCount(req.size, req.partSize) == 1
    ensures var q := PutSpec(map[], req);
            req.id in q && Complete(q[req.id])
  {
    AsInt32Fits(1);
    assert |{req.part}| == 1;
  }

  /** What one request for an absent file leaves behind: its id counted as complete, and the byte at offset 0
      written only if it is in the range that reached the file. */
  lemma CompleteAtOnce(req: Request, disk: Disk)
    requires req.partSize > 0 && PartCount(req.size, req.partSize) == 1 && disk.created && disk.wrote
    requires Accepts(req.size, req.part, req.partSize, |req.content|) && Start(req.part, req.partSize) >= 0
    ensures var start, s := Start(req.part, req.partSize), AfterFirst(req, disk);
            && req.id in s.queue && Complete(s.queue[req.id])
            && (Written(s, 0) <==> start == 0 && Persists(disk, |req.content|) > 0)
  {
    var start, n := Start(req.part, req.partSize), Persists(disk, |req.content|);
    var s := AfterFirst(req, disk);
    CountsAtOnce(req);
    assert s.queue == PutSpec(map[], req);
    assert s.written == {(start, start + n)} by { assert {} + {(start, start + n)} == {(start, start + n)}; }
    OneRange(s, start, n);
  }

  /** Bytes lost at close: the only part is counted, and nothing of it was written. */
  lemma LostPartIsCounted(id: string, a: byte, b: byte)
    ensures var s := AfterFirst(Request(id, 0, 2, 2, [a, b]), FullAtClose);
            id in s.queue && Complete(s.queue[id]) && !Written(s, 0)
  {
    CompleteAtOnce(Request(id, 0, 2, 2, [a, b]), FullAtClose);
  }

  /** Parts of one byte: part number `size` is taken although the file has no such part. */
  lemma PartSizeOneMiscounts(id: string, a: byte)
    ensures var s := AfterFirst(Request(id, 1, 1, 1, [a]), GoodDisk);
            id in s.queue && Complete(s.queue[id]) && !Written(s, 0)
  {
    CompleteAtOnce(Request(id, 1, 1, 1, [a]), GoodDisk);
  }

  /** An empty part just behind a file that the part size divides is taken too. */
  lemma EmptyPartMiscounts(id: string)
    ensures var s := AfterFirst(Request(id, 1, 2, 2, []), GoodDisk);
            id in s.queue && Complete(s.queue[id]) && !Written(s, 0)
  {
    CompleteAtOnce(Request(id, 1, 2, 2, []), GoodDisk);
  }
}
