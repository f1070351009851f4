/** The workers of SyncLocal at once (src/impl/sync_manager.h): each goes through the files of its own
    directories, and every access to the shared counters is one step.  However the steps interleave, the
    workers end with the counters they would have had one after the other. */
module SyncShards {
  import opened Sync

  // ---------- what files are worth ----------

  /** One of the counters, or how often one path is in the list of failed files. */
  datatype Measure = Success | Fail | Skipped | Listed(path: string)

  function Worth(t: Tally, m: Measure): nat {
    match m
    case Success => t.success
    case Fail => t.fail
    case Skipped => t.skipped
    case Listed(path) => multiset(t.failed)[path]
  }

  predicate Unusable(f: FileRec) { !f.srcExists || f.time == -1 }
  predicate UpToDate(f: FileRec) { f.dstTime != -1 && f.dstTime == f.time && f.dstSize == f.size }
  predicate Uncopied(f: FileRec) { !f.copied || !f.stamped }

  /** What one file will have added once it is settled. */
  function ScoreOf(f: FileRec, m: Measure): nat {
    match m
    case Success => if !Unusable(f) && (UpToDate(f) || !Uncopied(f)) then 1 else 0
    case Fail => if Unusable(f) || (!UpToDate(f) && Uncopied(f)) then 1 else 0
    case Skipped => if !Unusable(f) && UpToDate(f) then 1 else 0
    case Listed(path) => if !Unusable(f) && !UpToDate(f) && Uncopied(f) && f.path == path then 1 else 0
  }

  function ScoreAll(fs: seq<FileRec>, m: Measure): nat {
    if fs == [] then 0 else ScoreOf(fs[0], m) + ScoreAll(fs[1..], m)
  }

  lemma {:induction false} ScoreSnoc(fs: seq<FileRec>, f: FileRec, m: Measure)
    ensures ScoreAll(fs + [f], m) == ScoreAll(fs, m) + ScoreOf(f, m)
  {
    if fs == [] {
      assert fs + [f] == [f] && [f][1..] == [];
    } else {
      assert (fs + [f])[1..] == fs[1..] + [f];
      ScoreSnoc(fs[1..], f, m);
    }
  }

  lemma {:induction false} ScoreConcat(a: seq<FileRec>, b: seq<FileRec>, m: Measure)
    ensures ScoreAll(a + b, m) == ScoreAll(a, m) + ScoreAll(b, m)
  {
    if a == [] {
      assert a + b == b;
    } else {
      assert (a + b)[1..] == a[1..] + b;
      ScoreConcat(a[1..], b, m);
    }
  }

  lemma ListedOne(failed: seq<string>, x: string, path: string)
    ensures multiset(failed + [x])[path] == multiset(failed)[path] + if x == path then 1 else 0
  {
    assert multiset(failed + [x]) == multiset(failed) + multiset{x};
  }

  lemma SyncOneWorth(t: Tally, f: FileRec, m: Measure)
    ensures Worth(SyncOne(t, f), m) == Worth(t, m) + ScoreOf(f, m)
  {
    if m.Listed? { ListedOne(t.failed, f.path, m.path); }
  }

  lemma {:induction false} SyncFilesWorth(t: Tally, fs: seq<FileRec>, m: Measure)
    ensures Worth(SyncFiles(t, fs), m) == Worth(t, m) + ScoreAll(fs, m)
    decreases |fs|
  {
    if fs != [] {
      var n := |fs| - 1;
      SyncFilesWorth(t, fs[..n], m);
      SyncOneWorth(SyncFiles(t, fs[..n]), fs[n], m);
      assert fs == fs[..n] + [fs[n]];
      ScoreSnoc(fs[..n], fs[n], m);
    }
  }

  /** The files one worker goes through. */
  function WorkOf(ds: seq<DirRec>, worker: nat, threads: nat): seq<FileRec>
    requires threads > 0
    decreases |ds|
  {
    if ds == [] then []
    else
      WorkOf(ds[..|ds| - 1], worker, threads)
      + (if Takes(ds[|ds| - 1], worker, threads) then ds[|ds| - 1].files else [])
  }

  lemma {:induction false} SyncDirsWorth(t: Tally, ds: seq<DirRec>, worker: nat, threads: nat, m: Measure)
    requires threads > 0
    ensures Worth(SyncDirs(t, ds, worker, threads), m)
            == Worth(t, m) + ScoreAll(WorkOf(ds, worker, threads), m)
    decreases |ds|
  {
    if ds != [] {
      var n := |ds| - 1;
      SyncDirsWorth(t, ds[..n], worker, threads, m);
      if Takes(ds[n], worker, threads) {
        SyncFilesWorth(SyncDirs(t, ds[..n], worker, threads), ds[n].files, m);
        ScoreConcat(WorkOf(ds[..n], worker, threads), ds[n].files, m);
      } else {
        assert WorkOf(ds[..n], worker, threads) + [] == WorkOf(ds[..n], worker, threads);
      }
    }
  }

  // ---------- all workers at once ----------

  /** Between two files; success counted, skipped not yet; listed as failed, not yet counted. */
  datatype Stage = Ready | SkipDue | FailDue

  datatype Shards = Shards(todo: seq<seq<FileRec>>, stage: seq<Stage>, tally: Tally)

  predicate CanMove(s: Shards, i: nat) {
    |s.stage| == |s.todo| && i < |s.todo| && (s.stage[i] == Ready ==> s.todo[i] != [])
  }

  function Next(s: Shards, i: nat): Shards
    requires CanMove(s, i)
  {
    var t := s.tally;
    match s.stage[i]
    case SkipDue => s.(stage := s.stage[i := Ready], tally := t.(skipped := t.skipped + 1))
    case FailDue => s.(stage := s.stage[i := Ready], tally := t.(fail := t.fail + 1))
    case Ready =>
      var f, rest := s.todo[i][0], s.todo[i := s.todo[i][1..]];
      if Unusable(f) then s.(todo := rest, tally := t.(fail := t.fail + 1))
      else if UpToDate(f) then
        Shards(rest, s.stage[i := SkipDue], t.(success := t.success + 1))
      else if Uncopied(f) then
        Shards(rest, s.stage[i := FailDue], t.(failed := t.failed + [f.path]))
      else s.(todo := rest, tally := t.(success := t.success + 1))
  }

  /** A run is the sequence of workers that take a step. */
  predicate ShardRun(s: Shards, moves: seq<nat>, last: Shards)
    decreases |moves|
  {
    if moves == [] then s == last else CanMove(s, moves[0]) && ShardRun(Next(s, moves[0]), moves[1..], last)
  }

  predicate ShardsStart(s: Shards, ds: seq<DirRec>, threads: nat)
    requires threads > 0
  {
    && |s.todo| == threads && |s.stage| == threads && s.tally == Tally(0, 0, 0, [])
    && forall i :: 0 <= i < threads ==> s.todo[i] == WorkOf(ds, i, threads) && s.stage[i] == Ready
  }

  predicate ShardsDone(s: Shards) {
    |s.stage| == |s.todo| && forall i :: 0 <= i < |s.todo| ==> s.todo[i] == [] && s.stage[i] == Ready
  }

  // ---------- conservation ----------

  function DueOf(stage: Stage, m: Measure): nat {
    if (stage == SkipDue && m == Skipped) || (stage == FailDue && m == Fail) then 1 else 0
  }

  /** What a worker at this stage with these files has still to add. */
  function Owes(stage: Stage, todo: seq<FileRec>, m: Measure): nat { DueOf(stage, m) + ScoreAll(todo, m) }

  function OwedBy(stage: seq<Stage>, todo: seq<seq<FileRec>>, m: Measure): nat
    requires |stage| == |todo|
  {
    if todo == [] then 0 else Owes(stage[0], todo[0], m) + OwedBy(stage[1..], todo[1..], m)
  }

  /** What was counted, and what is still to come. */
  function InAll(s: Shards, m: Measure): nat
    requires |s.todo| == |s.stage|
  {
    Worth(s.tally, m) + OwedBy(s.stage, s.todo, m)
  }

  /** Only worker i's share changes, by what it has just added. */
  lemma {:induction false} OwedUpdate(stage: seq<Stage>, todo: seq<seq<FileRec>>, i: nat, st: Stage, fs: seq<FileRec>,
                                      added: nat, m: Measure)
    requires i < |stage| == |todo| && Owes(st, fs, m) + added == Owes(stage[i], todo[i], m)
    ensures OwedBy(stage[i := st], todo[i := fs], m) + added == OwedBy(stage, todo, m)
  {
    if i == 0 {
      assert stage[i := st][1..] == stage[1..] && todo[i := fs][1..] == todo[1..];
    } else {
      assert stage[i := st][1..] == stage[1..][i - 1 := st] && todo[i := fs][1..] == todo[1..][i - 1 := fs];
      OwedUpdate(stage[1..], todo[1..], i - 1, st, fs, added, m);
    }
  }

  /** What a step adds to the counters. */
  function Added(s: Shards, i: nat, m: Measure): nat
    requires CanMove(s, i)
  {
    if s.stage[i] != Ready then DueOf(s.stage[i], m)
    else if m == Skipped || (m == Fail && !Unusable(s.todo[i][0])) then 0
    else ScoreOf(s.todo[i][0], m)
  }

  lemma AddsUp(s: Shards, i: nat, m: Measure)
    requires CanMove(s, i)
    ensures Worth(Next(s, i).tally, m) == Worth(s.tally, m) + Added(s, i, m)
  {
    if s.stage[i] == Ready && m.Listed? { ListedOne(s.tally.failed, s.todo[i][0].path, m.path); }
  }

  lemma StillOwes(s: Shards, i: nat, m: Measure)
    requires CanMove(s, i)
    ensures var t := Next(s, i);
            && |t.todo| == |t.stage| == |s.todo|
            && t.stage == s.stage[i := t.stage[i]] && t.todo == s.todo[i := t.todo[i]]
            && Owes(t.stage[i], t.todo[i], m) + Added(s, i, m) == Owes(s.stage[i], s.todo[i], m)
  {
  }

  lemma InAllStep(s: Shards, i: nat, m: Measure)
    requires CanMove(s, i)
    ensures |Next(s, i).todo| == |Next(s, i).stage| && InAll(Next(s, i), m) == InAll(s, m)
  {
    var t := Next(s, i);
    AddsUp(s, i, m);
    StillOwes(s, i, m);
    OwedUpdate(s.stage, s.todo, i, t.stage[i], t.todo[i], Added(s, i, m), m);
  }

  lemma {:induction false} InAllRun(s: Shards, moves: seq<nat>, last: Shards, m: Measure)
    requires |s.todo| == |s.stage| && ShardRun(s, moves, last)
    ensures |last.todo| == |last.stage| && InAll(last, m) == InAll(s, m)
    decreases |moves|
  {
    if moves != [] {
      InAllStep(s, moves[0], m);
      InAllRun(Next(s, moves[0]), moves[1..], last, m);
    }
  }

  lemma {:induction false} NothingOwed(stage: seq<Stage>, todo: seq<seq<FileRec>>, m: Measure)
    requires |stage| == |todo| && forall i :: 0 <= i < |todo| ==> todo[i] == [] && stage[i] == Ready
    ensures OwedBy(stage, todo, m) == 0
  {
    if todo != [] { NothingOwed(stage[1..], todo[1..], m); }
  }

  lemma {:induction false} OwedSnoc(stage: seq<Stage>, todo: seq<seq<FileRec>>, st: Stage, fs: seq<FileRec>, m: Measure)
    requires |stage| == |todo|
    ensures OwedBy(stage + [st], todo + [fs], m) == OwedBy(stage, todo, m) + Owes(st, fs, m)
  {
    if todo == [] {
      assert stage + [st] == [st] && todo + [fs] == [fs] && [st][1..] == [] && [fs][1..] == [];
    } else {
      assert (stage + [st])[1..] == stage[1..] + [st] && (todo + [fs])[1..] == todo[1..] + [fs];
      OwedSnoc(stage[1..], todo[1..], st, fs, m);
    }
  }

  lemma OneWorkerMoreOwes(s: Shards, ds: seq<DirRec>, threads: nat, k: nat, n: nat, m: Measure)
    requires threads > 0 && ShardsStart(s, ds, threads) && k < threads && n == k + 1
    ensures OwedBy(s.stage[..n], s.todo[..n], m)
            == OwedBy(s.stage[..k], s.todo[..k], m) + ScoreAll(WorkOf(ds, k, threads), m)
  {
    assert s.stage[..n] == s.stage[..k] + [s.stage[k]] && s.todo[..n] == s.todo[..k] + [s.todo[k]];
    OwedSnoc(s.stage[..k], s.todo[..k], s.stage[k], s.todo[k], m);
  }

  /** What the files of the usable directories add whose hash selects one of the workers 0 .. below-1. */
  function ScoreTaken(ds: seq<DirRec>, threads: nat, below: nat, m: Measure): nat
    requires threads > 0
    decreases |ds|
  {
    if ds == [] then 0
    else
      var d := ds[|ds| - 1];
      ScoreTaken(ds[..|ds| - 1], threads, below, m)
      + (if d.usable && 0 <= WorkerOf(d.hash, threads) < below then ScoreAll(d.files, m) else 0)
  }

  lemma WorkSnoc(ds: seq<DirRec>, threads: nat, k: nat, m: Measure)
    requires threads > 0 && ds != []
    ensures var d := ds[|ds| - 1];
            ScoreAll(WorkOf(ds, k, threads), m)
            == ScoreAll(WorkOf(ds[..|ds| - 1], k, threads), m)
               + if Takes(d, k, threads) then ScoreAll(d.files, m) else 0
  {
    var work := WorkOf(ds[..|ds| - 1], k, threads);
    ScoreConcat(work, ds[|ds| - 1].files, m);
    ScoreConcat(work, [], m);
  }

  /** One worker more takes the files of its own directories too. */
  lemma {:induction false} OneWorkerMore(ds: seq<DirRec>, threads: nat, k: nat, n: nat, m: Measure)
    requires threads > 0 && n == k + 1
    ensures ScoreTaken(ds, threads, n, m) == ScoreTaken(ds, threads, k, m) + ScoreAll(WorkOf(ds, k, threads), m)
    decreases |ds|
  {
    if ds != [] {
      OneWorkerMore(ds[..|ds| - 1], threads, k, n, m);
      WorkSnoc(ds, threads, k, m);
    }
  }

  lemma {:induction false} NoneTaken(ds: seq<DirRec>, threads: nat, m: Measure)
    requires threads > 0
    ensures ScoreTaken(ds, threads, 0, m) == 0
    decreases |ds|
  {
    if ds != [] { NoneTaken(ds[..|ds| - 1], threads, m); }
  }

  lemma OneWorkerMoreAdds(t: Tally, ds: seq<DirRec>, threads: nat, k: nat, n: nat, m: Measure)
    requires threads > 0 && n == k + 1
    ensures Worth(SyncWorkers(t, ds, n, threads), m)
            == Worth(SyncWorkers(t, ds, k, threads), m) + ScoreAll(WorkOf(ds, k, threads), m)
  {
    SyncDirsWorth(SyncWorkers(t, ds, k, threads), ds, k, threads, m);
  }

  /** What workers 0 .. n-1 have to add before they start. */
  lemma {:induction false} OwedAtStart(s: Shards, ds: seq<DirRec>, threads: nat, n: nat, m: Measure)
    requires threads > 0 && ShardsStart(s, ds, threads) && n <= threads
    ensures OwedBy(s.stage[..n], s.todo[..n], m) == ScoreTaken(ds, threads, n, m)
  {
    if n == 0 {
      NoneTaken(ds, threads, m);
    } else {
      OwedAtStart(s, ds, threads, n - 1, m);
      OneWorkerMoreOwes(s, ds, threads, n - 1, n, m);
      OneWorkerMore(ds, threads, n - 1, n, m);
    }
  }

  /** And have added when they ran one after the other. */
  lemma {:induction false} AddedInTurn(t: Tally, ds: seq<DirRec>, threads: nat, n: nat, m: Measure)
    requires threads > 0
    ensures Worth(SyncWorkers(t, ds, n, threads), m) == Worth(t, m) + ScoreTaken(ds, threads, n, m)
  {
    if n == 0 {
      NoneTaken(ds, threads, m);
    } else {
      AddedInTurn(t, ds, threads, n - 1, m);
      AddedStep(t, ds, threads, n - 1, n, m);
    }
  }

  lemma AddedStep(t: Tally, ds: seq<DirRec>, threads: nat, k: nat, n: nat, m: Measure)
    requires threads > 0 && n == k + 1
    ensures Worth(SyncWorkers(t, ds, n, threads), m) + ScoreTaken(ds, threads, k, m)
            == Worth(SyncWorkers(t, ds, k, threads), m) + ScoreTaken(ds, threads, n, m)
  {
    OneWorkerMoreAdds(t, ds, threads, k, n, m);
    OneWorkerMore(ds, threads, k, n, m);
  }

  lemma NothingWorth(m: Measure)
    ensures Worth(Tally(0, 0, 0, []), m) == 0
  {
  }

  /** Every file of every directory with a worker adds exactly its outcome: a success if it is usable and up to date or
      copied and stamped, a failure otherwise; skipped if it was up to date; listed if copying or stamping failed. */
  lemma OutcomesExact(ds: seq<DirRec>, threads: nat, s: Shards, moves: seq<nat>, last: Shards, m: Measure)
    requires threads > 0 && ShardsStart(s, ds, threads) && ShardRun(s, moves, last) && ShardsDone(last)
    ensures Worth(last.tally, m) == ScoreTaken(ds, threads, threads, m)
  {
    InAllRun(s, moves, last, m);
    NothingOwed(last.stage, last.todo, m);
    OwedAtStart(s, ds, threads, threads, m);
    NothingWorth(m);
    assert s.stage[..threads] == s.stage && s.todo[..threads] == s.todo;
  }

  lemma SameWorth(ds: seq<DirRec>, threads: nat, s: Shards, moves: seq<nat>, last: Shards, m: Measure)
    requires threads > 0 && ShardsStart(s, ds, threads) && ShardRun(s, moves, last) && ShardsDone(last)
    ensures Worth(last.tally, m) == Worth(SyncWorkers(Tally(0, 0, 0, []), ds, threads, threads), m)
  {
    OutcomesExact(ds, threads, s, moves, last, m);
    AddedInTurn(Tally(0, 0, 0, []), ds, threads, threads, m);
    NothingWorth(m);
  }

  /** For every interleaving of the workers' accesses: when all are done, the counters are those of the workers
      one after the other, and the failed files are the same up to their order. */
  lemma ShardsLikeSequential(ds: seq<DirRec>, threads: nat, s: Shards, moves: seq<nat>, last: Shards)
    requires threads > 0 && ShardsStart(s, ds, threads) && ShardRun(s, moves, last) && ShardsDone(last)
    ensures var t := SyncWorkers(Tally(0, 0, 0, []), ds, threads, threads);
            && last.tally.success == t.success && last.tally.fail == t.fail && last.tally.skipped == t.skipped
            && multiset(last.tally.failed) == multiset(t.failed)
  {
    var t := SyncWorkers(Tally(0, 0, 0, []), ds, threads, threads);
    SameWorth(ds, threads, s, moves, last, Success);
    SameWorth(ds, threads, s, moves, last, Fail);
    SameWorth(ds, threads, s, moves, last, Skipped);
    forall path ensures multiset(last.tally.failed)[path] == multiset(t.failed)[path] {
      SameWorth(ds, threads, s, moves, last, Listed(path));
    }
  }

  /** So the sharded sync settles every file of every directory that passes the existence checks exactly when
      each of those has a worker, however the workers interleave. */
  lemma ShardedSyncAccounts(ds: seq<DirRec>, threads: nat, s: Shards, moves: seq<nat>, last: Shards)
    requires threads > 0 && ShardsStart(s, ds, threads) && ShardRun(s, moves, last) && ShardsDone(last)
    ensures Consistent(last.tally) && last.tally.success + last.tally.fail <= UsableFiles(ds)
    ensures last.tally.success + last.tally.fail == UsableFiles(ds) <==> AllTaken(ds, threads)
  {
    ShardsLikeSequential(ds, threads, s, moves, last);
    var t := SyncWorkers(Tally(0, 0, 0, []), ds, threads, threads);
    SequentialSyncAccounts(ds, threads);
    assert |multiset(last.tally.failed)| == |last.tally.failed| && |multiset(t.failed)| == |t.failed|;
  }

  // ---------- the workers come to their end ----------

  lemma {:induction false} ShardConcat(s: Shards, a: seq<nat>, mid: Shards, b: seq<nat>, last: Shards)
    requires ShardRun(s, a, mid) && ShardRun(mid, b, last)
    ensures ShardRun(s, a + b, last)
    decreases |a|
  {
    if a == [] {
      assert a + b == b;
    } else {
      assert (a + b)[1..] == a[1..] + b;
      ShardConcat(Next(s, a[0]), a[1..], mid, b, last);
    }
  }

  predicate DoneAt(s: Shards, i: nat)
    requires |s.todo| == |s.stage| && i < |s.todo|
  {
    s.todo[i] == [] && s.stage[i] == Ready
  }

  /** A step of worker i is one of this worker alone, and brings it nearer to its end. */
  lemma WorkerStep(s: Shards, i: nat)
    requires CanMove(s, i)
    ensures var t := Next(s, i);
            && |t.todo| == |t.stage| == |s.todo|
            && (forall j :: 0 <= j < |s.todo| && j != i ==> t.todo[j] == s.todo[j] && t.stage[j] == s.stage[j])
            && (if s.stage[i] == Ready then |t.todo[i]| < |s.todo[i]|
                else t.todo[i] == s.todo[i] && t.stage[i] == Ready)
  {
  }

  lemma {:induction false} WorkerFinishes(s: Shards, i: nat) returns (moves: seq<nat>, last: Shards)
    requires |s.todo| == |s.stage| && i < |s.todo|
    ensures ShardRun(s, moves, last) && |last.todo| == |last.stage| == |s.todo| && DoneAt(last, i)
    ensures forall j :: 0 <= j < |s.todo| && j != i ==> last.todo[j] == s.todo[j] && last.stage[j] == s.stage[j]
    decreases |s.todo[i]|, if s.stage[i] == Ready then 0 else 1
  {
    moves, last := [], s;
    if !DoneAt(s, i) {
      WorkerStep(s, i);
      moves, last := WorkerFinishes(Next(s, i), i);
      assert ([i] + moves)[1..] == moves;
      moves := [i] + moves;
    }
  }

  lemma {:induction false} WorkersFinish(s: Shards, n: nat) returns (moves: seq<nat>, last: Shards)
    requires |s.todo| == |s.stage| && n <= |s.todo| && forall j :: n <= j < |s.todo| ==> DoneAt(s, j)
    ensures ShardRun(s, moves, last) && ShardsDone(last)
    decreases n
  {
    if n == 0 {
      moves, last := [], s;
      forall j | 0 <= j < |s.todo| ensures s.todo[j] == [] && s.stage[j] == Ready { assert DoneAt(s, j); }
    } else {
      var first, mid := WorkerFinishes(s, n - 1);
      var more;
      forall j | n - 1 <= j < |s.todo| ensures DoneAt(mid, j) {
        if j >= n { assert DoneAt(s, j); }
      }
      more, last := WorkersFinish(mid, n - 1);
      ShardConcat(s, first, mid, more, last);
      moves := first + more;
    }
  }

  /** The workers can always get to the end. */
  lemma ShardsCanFinish(ds: seq<DirRec>, threads: nat, s: Shards) returns (moves: seq<nat>, last: Shards)
    requires threads > 0 && ShardsStart(s, ds, threads)
    ensures ShardRun(s, moves, last) && ShardsDone(last)
  {
    moves, last := WorkersFinish(s, threads);
  }
}
