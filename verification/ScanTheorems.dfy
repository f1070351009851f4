/** The results about scans: no directory is lost, every run ends in a completed scan, and an
    incremental scan ends like a scan from scratch. */
module ScanTheorems {
  import W = Worklist
  import opened Scan
  import opened ScanProof

  // ---------- the scan follows the worklist protocol ----------

  function Abstract(pc: Pc): W.Pc {
    match pc
    case Off => W.Off
    case Look(t) => W.Look(t)
    case Leaving => W.Leaving
    case _ => W.Busy
  }

  function AbstractState(s: State): W.State {
    W.State(|s.queue|, seq(|s.workers|, i requires 0 <= i < |s.workers| => Abstract(s.workers[i])), s.launched)
  }

  function AbstractAct(c: Ctx, s: State, i: nat, a: Act): W.Act
    requires Can(c, s, i, a)
  {
    var pc := s.workers[i];
    match a
    case Launch => W.Launch
    case PopOk => W.PopOk
    case PopEmpty => W.PopEmpty
    case Exit => W.Exit
    case Check => if DoCheck(c, s, i, pc.dir).workers[i].Add? then W.Stutter else W.EndDir
    case Visit(n) => if c.fs[pc.dir].listing[n] == Directory then W.Push else W.Stutter
    case Restamp => W.EndDir
    case _ => W.Stutter
  }

  /** Every step of a scan is a step of the worklist protocol. */
  lemma Refines(c: Ctx, s: State, i: nat, a: Act)
    requires Can(c, s, i, a)
    ensures var w, b := AbstractState(s), AbstractAct(c, s, i, a);
            W.Can(w, i, b) && AbstractState(Do(c, s, i, a)) == W.Do(w, i, b)
  {
    var w, b := AbstractState(s), AbstractAct(c, s, i, a);
    assert w.workers[i] == Abstract(s.workers[i]);
    assert AbstractState(Do(c, s, i, a)).workers == W.Do(w, i, b).workers;
  }

  lemma {:induction false} AttendedRun(c: Ctx, s: State, moves: seq<Move>, last: State)
    requires Run(c, s, moves, last) && W.Attended(AbstractState(s))
    ensures W.Attended(AbstractState(last))
    decreases |moves|
  {
    if moves != [] {
      var i, a := moves[0].worker, moves[0].act;
      Refines(c, s, i, a);
      W.AttendedStep(AbstractState(s), i, AbstractAct(c, s, i, a));
      AttendedRun(c, Do(c, s, i, a), moves[1..], last);
    }
  }

  /** Whatever the interleaving of pops, pushes, exits and relaunches: when running_mark is zero again
      the directory queue is empty. */
  lemma ScanQuiescence(c: Ctx, s: State, moves: seq<Move>, last: State)
    requires Initial(c, s) && Run(c, s, moves, last) && Quiescent(last)
    ensures last.queue == []
  {
    AttendedRun(c, s, moves, last);
    var w := AbstractState(last);
    assert forall j :: 0 <= j < |w.workers| ==> w.workers[j] == Abstract(last.workers[j]);
    W.QuiescentIsEmpty(w);
  }

  // ---------- a finished scan is complete ----------

  lemma {:induction false} InvRun(c: Ctx, s: State, moves: seq<Move>, last: State)
    requires Setting(c) && Inv(c, s) && Run(c, s, moves, last)
    ensures Inv(c, last)
    decreases |moves|
  {
    if moves != [] {
      Step(c, s, moves[0].worker, moves[0].act);
      InvRun(c, Do(c, s, moves[0].worker, moves[0].act), moves[1..], last);
    }
  }

  predicate AtRest(s: State) {
    s.queue == [] && forall i :: 0 <= i < |s.workers| ==> s.workers[i] == Off
  }

  lemma NothingOwed(s: State, p: Path, n: Name)
    requires AtRest(s)
    ensures !Pending(s, p) && !Todo(s, p, n)
  {
    forall i | 0 <= i < |s.workers| ensures !Carries(s.workers[i], p) && !Lists(s.workers[i], p, n) {
      assert s.workers[i] == Off;
    }
  }

  lemma ChildIsScanned(c: Ctx, s: State, q: Path, n: Name)
    requires AtRest(s) && q in s.scanned && q in c.fs && DirOk(c, s, q)
    requires n in c.fs[q].listing && c.fs[q].listing[n] == Directory && q + [n] !in c.ignored
    ensures q + [n] in s.scanned
  {
    NothingOwed(s, q, n);
    NothingOwed(s, q + [n], n);
    assert NameOk(c, s, q, n);
  }

  lemma UnignoredParent(ignored: set<Path>, p: Path)
    requires Unignored(ignored, p) && p != []
    ensures Unignored(ignored, p[..|p| - 1])
  {
    var q := p[..|p| - 1];
    forall k | 0 <= k <= |q| ensures q[..k] !in ignored { assert q[..k] == p[..k]; }
  }

  /** A visible directory other than the root is listed by a visible one. */
  lemma ParentVisible(fs: Tree, ignored: set<Path>, p: Path) returns (q: Path, n: Name)
    requires TreeOk(fs) && Visible(fs, ignored, p) && p != []
    ensures p == q + [n] && Visible(fs, ignored, q) && n in fs[q].listing && fs[q].listing[n] == Directory
  {
    q, n := p[..|p| - 1], p[|p| - 1];
    UnignoredParent(ignored, p);
    assert ListedByParent(fs, p);
  }

  lemma RootIsScanned(c: Ctx, s: State)
    requires Inv(c, s) && AtRest(s) && [] !in c.ignored
    ensures [] in s.scanned
  {
    NothingOwed(s, [], "");
    assert Known(c, s, []);
  }

  lemma ChildOfScanned(c: Ctx, s: State, q: Path, n: Name)
    requires Inv(c, s) && AtRest(s) && q in s.scanned && q in c.fs
    requires n in c.fs[q].listing && c.fs[q].listing[n] == Directory && q + [n] !in c.ignored
    ensures q + [n] in s.scanned
  {
    assert DirOk(c, s, q);
    ChildIsScanned(c, s, q, n);
  }

  lemma VisibleNotIgnored(fs: Tree, ignored: set<Path>, p: Path)
    requires Visible(fs, ignored, p)
    ensures p !in ignored
  {
    assert p[..|p|] == p;
  }

  lemma {:induction false} VisibleIsScanned(c: Ctx, s: State, p: Path)
    requires Setting(c) && Inv(c, s) && AtRest(s) && Visible(c.fs, c.ignored, p)
    ensures p in s.scanned
    decreases |p|
  {
    VisibleNotIgnored(c.fs, c.ignored, p);
    if p == [] {
      RootIsScanned(c, s);
    } else {
      var q, n := ParentVisible(c.fs, c.ignored, p);
      VisibleIsScanned(c, s, q);
      ChildOfScanned(c, s, q, n);
    }
  }

  lemma AtRestLists(c: Ctx, s: State, p: Path)
    requires Setting(c) && Inv(c, s) && AtRest(s) && p in s.scanned
    ensures Visible(c.fs, c.ignored, p) && ListsWell(s.scanned, c.fs, p)
  {
    assert DirOk(c, s, p);
    NothingOwed(s, p, "");
    IsDirOf(c, s, p);
    var e, listing := s.scanned[p], c.fs[p].listing;
    forall n | n in listing && IsFile(listing[n]) ensures n in e.files && e.files[n] == listing[n] {
      NothingOwed(s, p, n);
      assert NameOk(c, s, p, n);
    }
    assert e.files == FileView(listing);
  }

  /** From a usable cache, for every interleaving of workers -- several on one directory included -- a
      scan that ran to the end holds exactly the visible directories, each with exactly its regular
      files and symlinks. */
  lemma ScanCompletes(c: Ctx, s: State, moves: seq<Move>, last: State)
    requires Setting(c) && Initial(c, s) && Run(c, s, moves, last) && Quiescent(last)
    ensures Complete(last.scanned, c.fs, c.ignored)
  {
    Initially(c, s);
    InvRun(c, s, moves, last);
    ScanQuiescence(c, s, moves, last);
    forall p ensures p in last.scanned <==> Visible(c.fs, c.ignored, p) {
      if p in last.scanned { AtRestLists(c, last, p); }
      if Visible(c.fs, c.ignored, p) { VisibleIsScanned(c, last, p); }
    }
    forall p | p in last.scanned && p in c.fs ensures ListsWell(last.scanned, c.fs, p) {
      AtRestLists(c, last, p);
    }
  }

  /** What that means for one directory: its time, and of its entries the regular files and the symlinks, with their
      types. */
  lemma EntriesRecorded(c: Ctx, s: State, moves: seq<Move>, last: State, p: Path, n: Name)
    requires Setting(c) && Initial(c, s) && Run(c, s, moves, last) && Quiescent(last)
    requires Visible(c.fs, c.ignored, p)
    ensures p in last.scanned && last.scanned[p].path == p && last.scanned[p].mtime == c.fs[p].mtime
    ensures var files, listing := last.scanned[p].files, c.fs[p].listing;
            && (n in files <==> n in listing && (listing[n] == Regular || listing[n] == Symlink))
            && (n in files ==> files[n] == listing[n])
  {
    ScanCompletes(c, s, moves, last);
    assert p in last.scanned && ListsWell(last.scanned, c.fs, p);
  }

  // ---------- incremental scans ----------

  /** An unchanged directory mtime means an unchanged listing. */
  predicate Faithful(older: Tree, newer: Tree) {
    forall p ::
      (p in older && p in newer && older[p].isDir && newer[p].isDir && older[p].mtime == newer[p].mtime)
      ==> older[p].listing == newer[p].listing
  }

  /** A cached path that no scan gets rid of although it does not belong: it now exists as something else, or
      below an ignored directory, or is itself ignored. */
  predicate Leftover(c: Ctx, p: Path) {
    p in c.cache && ((p in c.fs && !(c.fs[p].isDir && Unignored(c.ignored, p))) || p in c.ignored)
  }

  predicate NoLeftovers(c: Ctx) { forall p :: p in c.cache ==> !Leftover(c, p) }

  /** The status of a completed scan of an older tree that ignored no more than this one. */
  ghost predicate FromOlder(c: Ctx, older: Tree, ignored: set<Path>) {
    && TreeOk(older) && ignored <= c.ignored
    && Complete(c.cache, older, ignored) && Faithful(older, c.fs)
  }

  /** With the same ignored directories only a path that exists as something else is left over. */
  lemma LeftoverSameIgnored(c: Ctx, older: Tree, p: Path)
    requires FromOlder(c, older, c.ignored) && p in c.cache
    ensures Leftover(c, p) <==> p in c.fs && !c.fs[p].isDir
  {
    assert Visible(older, c.ignored, p);
    assert p[..|p|] == p;
  }

  lemma OlderChild(older: Tree, ignored: set<Path>, p: Path, n: Name)
    requires TreeOk(older) && Visible(older, ignored, p) && n in older[p].listing && older[p].listing[n] == Directory
    requires p + [n] !in ignored
    ensures Visible(older, ignored, p + [n])
  {
    ListedIsDir(older, p, n);
    UnignoredChild(ignored, p, n);
  }

  lemma OlderIsCurrent(c: Ctx, older: Tree, ignored: set<Path>, p: Path)
    requires FromOlder(c, older, ignored) && NoLeftovers(c)
    requires p in c.cache && p in c.fs && c.cache[p].mtime == c.fs[p].mtime
    ensures Current(c, p)
  {
    assert Visible(older, ignored, p) && !Leftover(c, p) && ListsWell(c.cache, older, p);
    forall n | n in c.fs[p].listing && c.fs[p].listing[n] == Directory
      ensures p + [n] in c.cache || p + [n] in c.ignored
    {
      if p + [n] !in ignored { OlderChild(older, ignored, p, n); }
    }
  }

  lemma OlderIsUsable(c: Ctx, older: Tree, ignored: set<Path>)
    requires FromOlder(c, older, ignored) && NoLeftovers(c)
    ensures Usable(c)
  {
    forall p | p in c.cache ensures p !in c.ignored && (p in c.fs ==> c.fs[p].isDir && Unignored(c.ignored, p)) {
      assert !Leftover(c, p);
    }
    forall p | p in c.cache && p in c.fs && c.cache[p].mtime == c.fs[p].mtime ensures Current(c, p) {
      OlderIsCurrent(c, older, ignored, p);
    }
  }

  lemma {:induction false} CachedSurvive(c: Ctx, s: State, moves: seq<Move>, last: State, p: Path)
    requires Run(c, s, moves, last) && (p in c.fs || p in c.ignored) && p in s.scanned
    ensures p in last.scanned
    decreases |moves|
  {
    if moves != [] {
      CachedSurvive(c, Do(c, s, moves[0].worker, moves[0].act), moves[1..], last, p);
    }
  }

  /** A scan that starts from the status of an older completed scan ends complete exactly when no cached path is
      left over. */
  lemma IncrementalExact(c: Ctx, older: Tree, ignored: set<Path>, s: State, moves: seq<Move>, last: State)
    requires TreeOk(c.fs) && FromOlder(c, older, ignored)
    requires Initial(c, s) && Run(c, s, moves, last) && Quiescent(last)
    ensures Complete(last.scanned, c.fs, c.ignored) <==> NoLeftovers(c)
  {
    if NoLeftovers(c) {
      OlderIsUsable(c, older, ignored);
      ScanCompletes(c, s, moves, last);
    } else {
      var p :| p in c.cache && Leftover(c, p);
      CachedSurvive(c, s, moves, last, p);
      assert p[..|p|] == p;
      assert !Visible(c.fs, c.ignored, p);
    }
  }

  /** A root with one entry "d", which is a directory or not. */
  function OneEntry(kind: Kind, mtime: int): Tree {
    map[[] := Node(true, mtime, map["d" := kind]), ["d"] := Node(kind == Directory, mtime, map[])]
  }

  function OneEntryStatus(): Status { map[[] := Entry([], 0, map[]), ["d"] := Entry(["d"], 0, map[])] }

  lemma OneEntryOk(kind: Kind, mtime: int)
    ensures TreeOk(OneEntry(kind, mtime))
  {
    var fs := OneEntry(kind, mtime);
    assert ["d"] == [] + ["d"] && ["d"][..0] == [];
    forall p | p in fs && fs[p].isDir && p != [] ensures ListedByParent(fs, p) { assert p == ["d"]; }
  }

  lemma OneEntryComplete()
    ensures Complete(OneEntryStatus(), OneEntry(Directory, 0), {})
  {
    var m, fs := OneEntryStatus(), OneEntry(Directory, 0);
    assert FileView(map["d" := Directory]) == map[] && FileView(map[]) == map[];
    forall p | p in m && p in fs ensures ListsWell(m, fs, p) { assert p == [] || p == ["d"]; }
  }

  lemma OneEntryFaithful(kind: Kind)
    ensures Faithful(OneEntry(Directory, 0), OneEntry(kind, 1))
  {
  }

  /** A directory "d" is replaced by a file or a link "d" between two scans. */
  lemma ReplacedIsLeftOver(kind: Kind) returns (c: Ctx, older: Tree)
    requires kind != Directory
    ensures TreeOk(c.fs) && FromOlder(c, older, c.ignored) && Leftover(c, ["d"])
  {
    older, c := OneEntry(Directory, 0), Ctx(OneEntry(kind, 1), {}, true, OneEntryStatus());
    OneEntryOk(Directory, 0);
    OneEntryOk(kind, 1);
    OneEntryComplete();
    OneEntryFaithful(kind);
  }

  /** A directory "d" is ignored from the second scan on. */
  lemma NewlyIgnoredIsLeftOver() returns (c: Ctx, older: Tree)
    ensures TreeOk(c.fs) && FromOlder(c, older, {}) && Leftover(c, ["d"])
  {
    older, c := OneEntry(Directory, 0), Ctx(OneEntry(Directory, 0), {["d"]}, true, OneEntryStatus());
    OneEntryOk(Directory, 0);
    OneEntryComplete();
  }

  /** A scan without a cache. */
  lemma FullScanCompletes(c: Ctx, s: State, moves: seq<Move>, last: State)
    requires TreeOk(c.fs) && c.cache == map[] && Initial(c, s) && Run(c, s, moves, last) && Quiescent(last)
    ensures Complete(last.scanned, c.fs, c.ignored)
  {
    ScanCompletes(c, s, moves, last);
  }

  lemma CompleteIsUnique(a: Status, b: Status, fs: Tree, ignored: set<Path>)
    requires Complete(a, fs, ignored) && Complete(b, fs, ignored)
    ensures a == b
  {
    forall p ensures p in a <==> p in b {
      assert p in a <==> Visible(fs, ignored, p);
      assert p in b <==> Visible(fs, ignored, p);
    }
    forall p | p in a ensures a[p] == b[p] {
      assert p in b && Visible(fs, ignored, p);
      assert ListsWell(a, fs, p) && ListsWell(b, fs, p);
    }
  }

  /** The incremental scan equals the scan from scratch: same directories, same file names and types,
      whatever the two schedules, thread counts and hash settings were. */
  lemma IncrementalEqualsFull(c: Ctx, older: Tree, ignored: set<Path>, s: State, moves: seq<Move>, last: State,
                              full: Ctx, s0: State, moves0: seq<Move>, last0: State)
    requires TreeOk(c.fs) && FromOlder(c, older, ignored) && NoLeftovers(c)
    requires Initial(c, s) && Run(c, s, moves, last) && Quiescent(last)
    requires full.fs == c.fs && full.ignored == c.ignored && full.cache == map[]
    requires Initial(full, s0) && Run(full, s0, moves0, last0) && Quiescent(last0)
    ensures last.scanned == last0.scanned
  {
    IncrementalExact(c, older, ignored, s, moves, last);
    FullScanCompletes(full, s0, moves0, last0);
    CompleteIsUnique(last.scanned, last0.scanned, c.fs, c.ignored);
  }
}
