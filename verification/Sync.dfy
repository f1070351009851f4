/** The sharded sync of src/impl/sync_manager.h: every directory of a scan status goes to the worker its hash
    selects.  Here the workers run one after the other. */
module Sync {
  import opened Arithmetic

  const INT64_MIN: int := -0x8000_0000_0000_0000

  /** std::abs on int64, where the most negative value is its own absolute value. */
  function AbsInt64(h: int): int { if h == INT64_MIN then h else if h < 0 then -h else h }

  /** C++ `%`: the remainder has the sign of the dividend. */
  function Rem(a: int, m: nat): int
    requires m > 0
    decreases if a < 0 then -a else a
  {
    if a >= m then Rem(a - m, m) else if a + m <= 0 then Rem(a + m, m) else a
  }

  lemma Shifted(a: nat, m: nat)
    requires 0 < m <= a
    ensures a % m == (a - m) % m
  {
    var b := a - m;
    assert b == (b / m) * m + b % m;
    QuotientIs(b / m + 1, b % m, m, a);
  }

  lemma Unshifted(a: nat, m: nat)
    requires a < m
    ensures a % m == a
  {
    QuotientIs(0, a, m, a);
  }

  lemma {:induction false} RemIs(a: nat, m: nat)
    requires m > 0
    ensures Rem(a, m) == a % m && Rem(0 - a, m) == 0 - a % m
  {
    if a >= m {
      RemIs(a - m, m);
      Shifted(a, m);
    } else {
      Unshifted(a, m);
    }
  }

  function WorkerOf(hash: int, threads: nat): int
    requires threads > 0
  {
    Rem(AbsInt64(hash), threads)
  }

  /** Exactly one of the workers takes a directory, except for the hash INT64_MIN, which is taken only
      when its negative remainder happens to be zero. */
  lemma TakenExactly(hash: int, threads: nat)
    requires threads > 0
    ensures 0 <= WorkerOf(hash, threads) < threads <==> hash != INT64_MIN || (-INT64_MIN) % threads == 0
  {
    RemIs(if hash < 0 then -hash else hash, threads);
  }

  /** With three threads the hash INT64_MIN selects worker -2. */
  lemma NoWorkerForMinimum(threads: nat)
    requires threads == 3
    ensures WorkerOf(INT64_MIN, threads) == -2
  {
    RemIs(-INT64_MIN, threads);
  }

  /** Hashes are spread over the workers in turn, those of opposite sign alike. */
  lemma WorkersInTurn(hash: int, threads: nat)
    requires threads > 0 && hash >= 0
    ensures hash < threads ==> WorkerOf(hash, threads) == hash
    ensures WorkerOf(hash + threads, threads) == WorkerOf(hash, threads)
    ensures -hash != INT64_MIN ==> WorkerOf(-hash, threads) == WorkerOf(hash, threads)
  {
    assert AbsInt64(hash + threads) == hash + threads && AbsInt64(hash) == hash;
    assert -hash != INT64_MIN ==> AbsInt64(-hash) == hash;
  }

  /** What the library calls say about one file of the status. */
  datatype FileRec = FileRec(
    path: string, srcExists: bool, time: int, size: int, dstTime: int, dstSize: int, copied: bool, stamped: bool)

  datatype DirRec = DirRec(hash: int, usable: bool, files: seq<FileRec>)

  datatype Tally = Tally(success: nat, fail: nat, skipped: nat, failed: seq<string>)

  /** LocalSyncWorker on one file. */
  function SyncOne(t: Tally, f: FileRec): Tally {
    if !f.srcExists || f.time == -1 then t.(fail := t.fail + 1)
    else if f.dstTime != -1 && f.dstTime == f.time && f.dstSize == f.size then
      t.(success := t.success + 1, skipped := t.skipped + 1)
    else if !f.copied || !f.stamped then t.(fail := t.fail + 1, failed := t.failed + [f.path])
    else t.(success := t.success + 1)
  }

  /** Exactly one of success and fail is counted: success if the file is there with a valid time and is up to date or
      could be copied and stamped; skipped if it was up to date; listed if copying or stamping failed. */
  lemma FileOutcome(t: Tally, f: FileRec)
    ensures var r := SyncOne(t, f);
            var usable := f.srcExists && f.time != -1;
            var same := f.dstTime != -1 && f.dstTime == f.time && f.dstSize == f.size;
            var synced := usable && (same || (f.copied && f.stamped));
            && r.success == t.success + (if synced then 1 else 0)
            && r.fail == t.fail + (if synced then 0 else 1)
            && r.skipped == t.skipped + (if usable && same then 1 else 0)
            && r.failed == t.failed + (if usable && !synced then [f.path] else [])
  {
  }

  function SyncFiles(t: Tally, fs: seq<FileRec>): Tally
    decreases |fs|
  {
    if fs == [] then t else SyncOne(SyncFiles(t, fs[..|fs| - 1]), fs[|fs| - 1])
  }

  function Takes(d: DirRec, worker: nat, threads: nat): bool
    requires threads > 0
  {
    WorkerOf(d.hash, threads) == worker && d.usable
  }

  function SyncDirs(t: Tally, ds: seq<DirRec>, worker: nat, threads: nat): Tally
    requires threads > 0
    decreases |ds|
  {
    if ds == [] then t
    else
      var before := SyncDirs(t, ds[..|ds| - 1], worker, threads);
      var d := ds[|ds| - 1];
      if Takes(d, worker, threads) then SyncFiles(before, d.files) else before
  }

  /** Workers 0 .. n-1, one after the other. */
  function SyncWorkers(t: Tally, ds: seq<DirRec>, n: nat, threads: nat): Tally
    requires threads > 0
  {
    if n == 0 then t else SyncDirs(SyncWorkers(t, ds, n - 1, threads), ds, n - 1, threads)
  }

  /** The number of files in the usable directories whose hash selects one of the workers 0 .. below-1. */
  function FilesIn(ds: seq<DirRec>, threads: nat, below: nat): nat
    requires threads > 0
    decreases |ds|
  {
    if ds == [] then 0
    else
      var d := ds[|ds| - 1];
      FilesIn(ds[..|ds| - 1], threads, below)
      + (if d.usable && 0 <= WorkerOf(d.hash, threads) < below then |d.files| else 0)
  }

  lemma {:induction false} FilesAccount(t: Tally, fs: seq<FileRec>)
    ensures var r := SyncFiles(t, fs);
            && r.success + r.fail == t.success + t.fail + |fs|
            && r.skipped - t.skipped <= r.success - t.success
            && t.success <= r.success && t.fail <= r.fail && t.skipped <= r.skipped
            && t.failed <= r.failed && |r.failed| - |t.failed| <= r.fail - t.fail
    decreases |fs|
  {
    if fs != [] { FilesAccount(t, fs[..|fs| - 1]); }
  }

  function TakenBy(ds: seq<DirRec>, worker: nat, threads: nat): nat
    requires threads > 0
    decreases |ds|
  {
    if ds == [] then 0
    else TakenBy(ds[..|ds| - 1], worker, threads)
         + (if Takes(ds[|ds| - 1], worker, threads) then |ds[|ds| - 1].files| else 0)
  }

  predicate Consistent(t: Tally) { t.skipped <= t.success && |t.failed| <= t.fail }

  lemma {:induction false} DirsAccount(t: Tally, ds: seq<DirRec>, worker: nat, threads: nat)
    requires threads > 0 && Consistent(t)
    ensures var r := SyncDirs(t, ds, worker, threads);
            Consistent(r) && r.success + r.fail == t.success + t.fail + TakenBy(ds, worker, threads)
    decreases |ds|
  {
    if ds != [] {
      var rest := ds[..|ds| - 1];
      DirsAccount(t, rest, worker, threads);
      FilesAccount(SyncDirs(t, rest, worker, threads), ds[|ds| - 1].files);
    }
  }

  lemma {:induction false} OneMoreWorker(ds: seq<DirRec>, worker: nat, threads: nat)
    requires threads > 0
    ensures FilesIn(ds, threads, worker + 1) == FilesIn(ds, threads, worker) + TakenBy(ds, worker, threads)
    decreases |ds|
  {
    if ds != [] { OneMoreWorker(ds[..|ds| - 1], worker, threads); }
  }

  lemma {:induction false} NoWorker(ds: seq<DirRec>, threads: nat)
    requires threads > 0
    ensures FilesIn(ds, threads, 0) == 0
    decreases |ds|
  {
    if ds != [] { NoWorker(ds[..|ds| - 1], threads); }
  }

  /** After workers 0 .. n-1, the successes and failures together are exactly the files in the usable
      directories those workers were selected for. */
  lemma {:induction false} WorkersAccount(ds: seq<DirRec>, n: nat, threads: nat)
    requires threads > 0
    ensures var r := SyncWorkers(Tally(0, 0, 0, []), ds, n, threads);
            Consistent(r) && r.success + r.fail == FilesIn(ds, threads, n)
  {
    if n == 0 {
      NoWorker(ds, threads);
    } else {
      WorkersAccount(ds, n - 1, threads);
      DirsAccount(SyncWorkers(Tally(0, 0, 0, []), ds, n - 1, threads), ds, n - 1, threads);
      OneMoreWorker(ds, n - 1, threads);
    }
  }

  function UsableFiles(ds: seq<DirRec>): nat
    decreases |ds|
  {
    if ds == [] then 0
    else UsableFiles(ds[..|ds| - 1]) + (if ds[|ds| - 1].usable then |ds[|ds| - 1].files| else 0)
  }

  /** No usable directory with files falls through the shards. */
  predicate AllTaken(ds: seq<DirRec>, threads: nat)
    requires threads > 0
  {
    forall i :: 0 <= i < |ds| && ds[i].usable && ds[i].files != [] ==>
      ds[i].hash != INT64_MIN || (-INT64_MIN) % threads == 0
  }

  lemma {:induction false} FilesInAll(ds: seq<DirRec>, threads: nat)
    requires threads > 0
    ensures FilesIn(ds, threads, threads) <= UsableFiles(ds)
    ensures FilesIn(ds, threads, threads) == UsableFiles(ds) <==> AllTaken(ds, threads)
    decreases |ds|
  {
    if ds != [] {
      var n := |ds| - 1;
      FilesInAll(ds[..n], threads);
      TakenExactly(ds[n].hash, threads);
      assert AllTaken(ds, threads) ==> AllTaken(ds[..n], threads) by {
        assert forall i :: 0 <= i < n ==> ds[..n][i] == ds[i];
      }
      if AllTaken(ds[..n], threads) {
        assert forall i :: 0 <= i < n ==> ds[i] == ds[..n][i];
      }
    }
  }

  /** One worker after the other, the sharded sync settles every file of every directory that passes the
      existence checks exactly when none of them has the hash INT64_MIN, unless the thread count divides
      2^63. */
  lemma SequentialSyncAccounts(ds: seq<DirRec>, threads: nat)
    requires threads > 0
    ensures var r := SyncWorkers(Tally(0, 0, 0, []), ds, threads, threads);
            && Consistent(r) && r.success + r.fail <= UsableFiles(ds)
            && (r.success + r.fail == UsableFiles(ds) <==> AllTaken(ds, threads))
  {
    WorkersAccount(ds, threads, threads);
    FilesInAll(ds, threads);
  }

  class SyncContext {
    var success: nat
    var fail: nat
    var skipped: nat
    var failed: seq<string>

    ghost function View(): Tally
      reads this
    {
      Tally(success, fail, skipped, failed)
    }

    constructor ()
      ensures View() == Tally(0, 0, 0, [])
    {
      success, fail, skipped, failed := 0, 0, 0, [];
    }

    method SyncFile(f: FileRec)
      modifies this
      ensures View() == SyncOne(old(View()), f)
    {
      if !f.srcExists { fail := fail + 1; return; }
      if f.time == -1 { fail := fail + 1; return; }
      if f.dstTime != -1 && f.dstTime == f.time && f.dstSize == f.size {
        success := success + 1;
        skipped := skipped + 1;
        return;
      }
      if !f.copied {
        failed := failed + [f.path];
        fail := fail + 1;
        return;
      }
      if !f.stamped {
        failed := failed + [f.path];
        fail := fail + 1;
        return;
      }
      success := success + 1;
    }

    method LocalSyncWorker(worker: nat, ds: seq<DirRec>, threads: nat)
      requires threads > 0
      modifies this
      ensures View() == SyncDirs(old(View()), ds, worker, threads)
    {
      ghost var start := View();
      for k := 0 to |ds|
        invariant View() == SyncDirs(start, ds[..k], worker, threads)
      {
        assert ds[..k + 1][..k] == ds[..k];
        var d := ds[k];
        if WorkerOf(d.hash, threads) == worker && d.usable {
          ghost var before := View();
          for j := 0 to |d.files|
            invariant View() == SyncFiles(before, d.files[..j])
          {
            assert d.files[..j + 1][..j] == d.files[..j];
            SyncFile(d.files[j]);
          }
          assert d.files[..|d.files|] == d.files;
        }
      }
      assert ds[..|ds|] == ds;
    }

    /** SyncLocal's workers, one after the other. */
    method SyncLocal(ds: seq<DirRec>, threads: nat)
      requires threads > 0
      modifies this
      ensures View() == SyncWorkers(old(View()), ds, threads, threads)
    {
      ghost var start := View();
      for i := 0 to threads
        invariant View() == SyncWorkers(start, ds, i, threads)
      {
        LocalSyncWorker(i, ds, threads);
      }
    }
  }
}
