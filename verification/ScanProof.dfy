/** Every interleaving of scan workers ends with the status of a completed scan. */
module ScanProof {
  import opened Scan

  // ---------- what the workers still owe ----------

  predicate Carries(pc: Pc, p: Path) { (pc.Got? || pc.Add?) && pc.dir == p }

  predicate Lists(pc: Pc, p: Path, n: Name) { pc.List? && pc.dir == p && n in pc.todo }

  /** The path is queued or in the hands of a worker that has not listed it yet. */
  predicate Pending(s: State, p: Path) {
    p in s.queue || exists i :: 0 <= i < |s.workers| && Carries(s.workers[i], p)
  }

  predicate Todo(s: State, p: Path, n: Name) {
    exists i :: 0 <= i < |s.workers| && Lists(s.workers[i], p, n)
  }

  /** A directory is accounted for. */
  predicate Known(c: Ctx, s: State, p: Path) {
    p in c.ignored || p in s.scanned || Pending(s, p)
  }

  predicate NameDone(c: Ctx, s: State, p: Path, n: Name)
    requires p in c.fs && p in s.scanned && n in c.fs[p].listing
  {
    var k := c.fs[p].listing[n];
    if IsFile(k) then n in s.scanned[p].files && s.scanned[p].files[n] == k
    else k == Directory ==> Known(c, s, p + [n])
  }

  predicate NameOk(c: Ctx, s: State, p: Path, n: Name)
    requires p in c.fs && p in s.scanned && n in c.fs[p].listing
  {
    NameDone(c, s, p, n) || Todo(s, p, n)
  }

  /** Nothing false is recorded about p. */
  predicate Truthful(c: Ctx, s: State, p: Path)
    requires p in c.fs && p in s.scanned
  {
    var e, node := s.scanned[p], c.fs[p];
    && e.path == p && e.mtime == node.mtime
    && forall n :: n in e.files ==> n in node.listing && IsFile(node.listing[n]) && e.files[n] == node.listing[n]
  }

  /** Everything about p is recorded or still owed by a worker listing it. */
  predicate Covered(c: Ctx, s: State, p: Path)
    requires p in c.fs && p in s.scanned
  {
    Truthful(c, s, p) && forall n :: n in c.fs[p].listing ==> NameOk(c, s, p, n)
  }

  predicate Untouched(c: Ctx, s: State, p: Path)
    requires p in s.scanned
  {
    p in c.cache && s.scanned[p] == c.cache[p] && Pending(s, p)
  }

  predicate Legit(c: Ctx, p: Path) {
    p in c.cache || (p in c.fs && c.fs[p].isDir && (p in c.ignored || Unignored(c.ignored, p)))
  }

  predicate PcOk(c: Ctx, s: State, pc: Pc) {
    && (pc.Got? || pc.Add? ==> Legit(c, pc.dir))
    && (pc.Add? ==> pc.dir in c.fs && pc.dir !in c.ignored)
    && (pc.List? || pc.Pruning? || pc.Stamping? ==>
          pc.dir in c.fs && pc.dir in s.scanned && Covered(c, s, pc.dir))
  }

  predicate DirOk(c: Ctx, s: State, p: Path)
    requires p in s.scanned
  {
    && (p in c.cache || Visible(c.fs, c.ignored, p))
    && (p !in c.fs ==> Pending(s, p))
    && (p in c.fs ==> Covered(c, s, p) || Untouched(c, s, p))
  }

  predicate Inv(c: Ctx, s: State) {
    && (forall i :: 0 <= i < |s.workers| ==> PcOk(c, s, s.workers[i]))
    && (forall p :: p in s.queue ==> Legit(c, p))
    && (forall p :: p in s.scanned ==> DirOk(c, s, p))
    && (forall p :: p in c.cache && p in c.fs ==> p in s.scanned)
    && Known(c, s, [])
  }

  predicate Setting(c: Ctx) { TreeOk(c.fs) && Usable(c) }

  lemma Initially(c: Ctx, s: State)
    requires Setting(c) && Initial(c, s)
    ensures Inv(c, s)
  {
  }

  // ---------- frames ----------

  /** Nothing that was accounted for is lost, and the records of existing directories other than
      `except` are the same. */
  ghost predicate Frame(c: Ctx, s: State, t: State, except: set<Path>) {
    && (forall q :: q in c.fs && Known(c, s, q) ==> Known(c, t, q))
    && (forall q :: q in c.fs && q in s.scanned ==> q in t.scanned)
    && (forall q :: q in c.fs && q in s.scanned && q !in except ==> t.scanned[q] == s.scanned[q])
    && (forall q, n :: q !in except && Todo(s, q, n) ==> Todo(t, q, n))
  }

  lemma CoveredFrame(c: Ctx, s: State, t: State, except: set<Path>, p: Path)
    requires TreeOk(c.fs) && Frame(c, s, t, except)
    requires p in c.fs && c.fs[p].isDir && p in s.scanned && p !in except && Covered(c, s, p)
    ensures p in t.scanned && Covered(c, t, p)
  {
    forall n | n in c.fs[p].listing ensures NameOk(c, t, p, n) {
      assert NameOk(c, s, p, n);
      if c.fs[p].listing[n] == Directory { assert p + [n] in c.fs; }
    }
  }

  lemma ScannedUnignored(c: Ctx, s: State, p: Path)
    requires Setting(c) && Inv(c, s) && p in s.scanned
    ensures p !in c.ignored && (p in c.fs ==> Unignored(c.ignored, p))
  {
    assert DirOk(c, s, p);
    assert p[..|p|] == p;
  }

  lemma IsDirOf(c: Ctx, s: State, p: Path)
    requires Setting(c) && Inv(c, s) && p in s.scanned && p in c.fs
    ensures c.fs[p].isDir && p !in c.ignored && Visible(c.fs, c.ignored, p)
  {
    assert DirOk(c, s, p);
    ScannedUnignored(c, s, p);
  }

  lemma PendingWith(s: State, i: nat, pc: Pc, p: Path)
    requires i < |s.workers|
    ensures Pending(With(s, i, pc), p) ==> Pending(s, p) || Carries(pc, p)
    ensures Pending(s, p) ==> Pending(With(s, i, pc), p) || Carries(s.workers[i], p)
    ensures Carries(pc, p) ==> Pending(With(s, i, pc), p)
  {
    var t := With(s, i, pc);
    if j :| 0 <= j < |s.workers| && Carries(s.workers[j], p) {
      if j != i { assert Carries(t.workers[j], p); }
    }
    if j :| 0 <= j < |t.workers| && Carries(t.workers[j], p) {
      if j != i { assert Carries(s.workers[j], p); }
    }
    if Carries(pc, p) { assert Carries(t.workers[i], p); }
  }

  lemma TodoWith(s: State, i: nat, pc: Pc, p: Path, n: Name)
    requires i < |s.workers|
    ensures Todo(s, p, n) ==> Todo(With(s, i, pc), p, n) || Lists(s.workers[i], p, n)
    ensures Lists(pc, p, n) ==> Todo(With(s, i, pc), p, n)
  {
    var t := With(s, i, pc);
    if j :| 0 <= j < |s.workers| && Lists(s.workers[j], p, n) {
      if j != i { assert Lists(t.workers[j], p, n); }
    }
    if Lists(pc, p, n) { assert Lists(t.workers[i], p, n); }
  }

  /** Rebuilding the invariant from the parts a step may have changed. */
  lemma Rebuild(c: Ctx, s: State, t: State, except: set<Path>, i: nat)
    requires Setting(c) && Inv(c, s) && Frame(c, s, t, except)
    requires |t.workers| == |s.workers| && i < |s.workers|
    requires forall j :: 0 <= j < |s.workers| && j != i ==> t.workers[j] == s.workers[j]
    requires PcOk(c, t, t.workers[i])
    requires forall p :: p in t.queue ==> p in s.queue || Legit(c, p)
    requires forall p :: p in t.scanned && (p in except || p !in s.scanned) ==> DirOk(c, t, p)
    requires forall p :: p in except ==> p in c.fs && p in t.scanned && Covered(c, t, p)
    requires forall p :: p in t.scanned && p in s.scanned && p !in except ==>
               (p !in c.fs ==> Pending(t, p)) && (p in c.fs && Untouched(c, s, p) ==> Pending(t, p) || Covered(c, t, p))
    ensures Inv(c, t)
  {
    forall j | 0 <= j < |t.workers| ensures PcOk(c, t, t.workers[j]) {
      if j != i {
        var pc := s.workers[j];
        assert PcOk(c, s, pc);
        if (pc.List? || pc.Pruning? || pc.Stamping?) && pc.dir !in except {
          IsDirOf(c, s, pc.dir);
          CoveredFrame(c, s, t, except, pc.dir);
        }
      }
    }
    forall p | p in t.scanned ensures DirOk(c, t, p) {
      if p in s.scanned && p !in except {
        assert DirOk(c, s, p);
        if p in c.fs && Covered(c, s, p) {
          IsDirOf(c, s, p);
          CoveredFrame(c, s, t, except, p);
        }
      }
    }
  }

  /** The same for a step that touches the record of one existing directory. */
  lemma RebuildOne(c: Ctx, s: State, t: State, p: Path, i: nat)
    requires Setting(c) && Inv(c, s) && Frame(c, s, t, {p})
    requires |t.workers| == |s.workers| && i < |s.workers|
    requires forall j :: 0 <= j < |s.workers| && j != i ==> t.workers[j] == s.workers[j]
    requires PcOk(c, t, t.workers[i])
    requires forall q :: q in t.queue ==> q in s.queue || Legit(c, q)
    requires forall q :: q in t.scanned ==> q in s.scanned || q == p
    requires p in c.fs && p in t.scanned && Covered(c, t, p) && DirOk(c, t, p)
    requires forall q :: q in s.scanned && q != p && (q !in c.fs || Untouched(c, s, q)) ==> Pending(t, q)
    ensures Inv(c, t)
  {
    Rebuild(c, s, t, {p}, i);
  }

  // ---------- the steps ----------

  /** A worker may let go of p. */
  predicate Settled(c: Ctx, s: State, p: Path) {
    if p in s.scanned then p in c.fs && Covered(c, s, p) else p in c.ignored
  }

  /** A step that only moves worker i, dropping neither a directory nor a name. */
  lemma PcStep(c: Ctx, s: State, i: nat, pc: Pc, launched: bool)
    requires Setting(c) && Inv(c, s) && i < |s.workers|
    requires forall p :: Carries(s.workers[i], p) ==> Carries(pc, p) || Settled(c, s, p)
    requires forall p, n :: Lists(s.workers[i], p, n) ==> Lists(pc, p, n)
    requires PcOk(c, s, pc)
    ensures Inv(c, With(s, i, pc).(launched := launched))
  {
    var t := With(s, i, pc).(launched := launched);
    forall p ensures Pending(s, p) ==> Pending(t, p) || Carries(s.workers[i], p) {
      PendingWith(s, i, pc, p);
      if Pending(With(s, i, pc), p) { assert Pending(t, p); }
    }
    forall p ensures Carries(pc, p) ==> Pending(t, p) {
      if Carries(pc, p) { assert Carries(t.workers[i], p); }
    }
    forall p, n | Todo(s, p, n) ensures Todo(t, p, n) {
      TodoWith(s, i, pc, p, n);
      assert Todo(With(s, i, pc), p, n) ==> Todo(t, p, n);
    }
    assert Frame(c, s, t, {});
    if (pc.List? || pc.Pruning? || pc.Stamping?) {
      IsDirOf(c, s, pc.dir);
      CoveredFrame(c, s, t, {}, pc.dir);
    }
    forall p | p in s.scanned && p in c.fs && Untouched(c, s, p) ensures Pending(t, p) || Covered(c, t, p) {
      if Covered(c, s, p) {
        IsDirOf(c, s, p);
        CoveredFrame(c, s, t, {}, p);
      }
    }
    Rebuild(c, s, t, {}, i);
  }

  lemma PopPending(c: Ctx, s: State, i: nat, q: Path)
    requires Can(c, s, i, PopOk) && Pending(s, q)
    ensures Pending(Do(c, s, i, PopOk), q)
  {
    var t := Do(c, s, i, PopOk);
    var p := s.queue[|s.queue| - 1];
    assert s.queue == t.queue + [p];
    assert Carries(t.workers[i], p);
    if j :| 0 <= j < |s.workers| && Carries(s.workers[j], q) {
      assert Carries(t.workers[j], q);
    }
  }

  lemma PopFrame(c: Ctx, s: State, i: nat)
    requires Can(c, s, i, PopOk)
    ensures Frame(c, s, Do(c, s, i, PopOk), {})
  {
    var t := Do(c, s, i, PopOk);
    forall q | Pending(s, q) ensures Pending(t, q) { PopPending(c, s, i, q); }
    forall q, m | Todo(s, q, m) ensures Todo(t, q, m) {
      var j :| 0 <= j < |s.workers| && Lists(s.workers[j], q, m);
      assert Lists(t.workers[j], q, m);
    }
  }

  lemma PopStep(c: Ctx, s: State, i: nat)
    requires Setting(c) && Inv(c, s) && Can(c, s, i, PopOk)
    ensures Inv(c, Do(c, s, i, PopOk))
  {
    var t := Do(c, s, i, PopOk);
    PopFrame(c, s, i);
    assert s.queue[|s.queue| - 1] in s.queue;
    forall q | q in s.scanned && q !in c.fs ensures Pending(t, q) {
      assert DirOk(c, s, q);
      PopPending(c, s, i, q);
    }
    forall q | q in s.scanned && Untouched(c, s, q) ensures Pending(t, q) { PopPending(c, s, i, q); }
    Rebuild(c, s, t, {}, i);
  }

  lemma SkipCovered(c: Ctx, s: State, p: Path)
    requires Setting(c) && Inv(c, s) && p in c.fs && Skips(c, s.scanned, p)
    ensures Covered(c, s, p)
  {
    assert DirOk(c, s, p);
    if Untouched(c, s, p) {
      assert Current(c, p);
      IsDirOf(c, s, p);
      forall n | n in c.fs[p].listing ensures NameOk(c, s, p, n) {
        if c.fs[p].listing[n] == Directory { assert p + [n] in c.fs; }
      }
    }
  }

  lemma GoneStep(c: Ctx, s: State, i: nat, p: Path)
    requires Setting(c) && Inv(c, s) && i < |s.workers| && s.workers[i] == Got(p) && p !in c.fs
    ensures Inv(c, With(s.(scanned := DropDir(s.scanned, p)), i, Look(0)))
  {
    var t := With(s.(scanned := DropDir(s.scanned, p)), i, Look(0));
    forall q | Pending(s, q) && q != p ensures Pending(t, q) {
      if j :| 0 <= j < |s.workers| && Carries(s.workers[j], q) {
        assert Carries(t.workers[j], q);
      }
    }
    forall q, m | Todo(s, q, m) ensures Todo(t, q, m) {
      var j :| 0 <= j < |s.workers| && Lists(s.workers[j], q, m);
      assert Lists(t.workers[j], q, m);
    }
    Rebuild(c, s, t, {}, i);
  }

  lemma CheckStep(c: Ctx, s: State, i: nat)
    requires Setting(c) && Inv(c, s) && Can(c, s, i, Check)
    ensures Inv(c, Do(c, s, i, Check))
  {
    var p := s.workers[i].dir;
    assert PcOk(c, s, s.workers[i]);
    assert p[..|p|] == p;
    if p in c.ignored {
      if p in s.scanned { ScannedUnignored(c, s, p); }
      PcStep(c, s, i, Look(0), s.launched);
    } else if p !in c.fs {
      GoneStep(c, s, i, p);
    } else if Skips(c, s.scanned, p) {
      SkipCovered(c, s, p);
      PcStep(c, s, i, Look(0), s.launched);
    } else {
      PcStep(c, s, i, Add(p), s.launched);
    }
  }

  lemma ResetPending(c: Ctx, s: State, i: nat, q: Path)
    requires Can(c, s, i, Reset) && Pending(s, q) && q != s.workers[i].dir
    ensures Pending(Do(c, s, i, Reset), q)
  {
    var t := Do(c, s, i, Reset);
    if j :| 0 <= j < |s.workers| && Carries(s.workers[j], q) {
      assert Carries(t.workers[j], q);
    }
  }

  lemma ResetFrame(c: Ctx, s: State, i: nat)
    requires Can(c, s, i, Reset)
    ensures Frame(c, s, Do(c, s, i, Reset), {s.workers[i].dir})
  {
    var t := Do(c, s, i, Reset);
    forall q | Pending(s, q) && q != s.workers[i].dir ensures Pending(t, q) { ResetPending(c, s, i, q); }
    forall q, m | Todo(s, q, m) ensures Todo(t, q, m) {
      var j :| 0 <= j < |s.workers| && Lists(s.workers[j], q, m);
      assert Lists(t.workers[j], q, m);
    }
  }

  lemma ResetCovered(c: Ctx, s: State, i: nat)
    requires Can(c, s, i, Reset)
    ensures Covered(c, Do(c, s, i, Reset), s.workers[i].dir)
  {
    var p := s.workers[i].dir;
    var t := Do(c, s, i, Reset);
    forall n | n in c.fs[p].listing ensures NameOk(c, t, p, n) {
      assert Lists(t.workers[i], p, n);
    }
  }

  lemma ResetOthers(c: Ctx, s: State, i: nat, q: Path)
    requires Inv(c, s) && Can(c, s, i, Reset) && q in s.scanned && q != s.workers[i].dir
    requires q !in c.fs || Untouched(c, s, q)
    ensures Pending(Do(c, s, i, Reset), q)
  {
    assert DirOk(c, s, q);
    ResetPending(c, s, i, q);
  }

  lemma ResetDirOk(c: Ctx, s: State, i: nat)
    requires Setting(c) && Inv(c, s) && Can(c, s, i, Reset)
    ensures var p := s.workers[i].dir; var t := Do(c, s, i, Reset);
            p in t.scanned && Covered(c, t, p) && DirOk(c, t, p) && PcOk(c, t, t.workers[i])
  {
    assert PcOk(c, s, s.workers[i]);
    ResetCovered(c, s, i);
  }

  lemma ResetStep(c: Ctx, s: State, i: nat)
    requires Setting(c) && Inv(c, s) && Can(c, s, i, Reset)
    ensures Inv(c, Do(c, s, i, Reset))
  {
    var p := s.workers[i].dir;
    var t := Do(c, s, i, Reset);
    ResetFrame(c, s, i);
    ResetDirOk(c, s, i);
    forall q | q in s.scanned && q != p && (q !in c.fs || Untouched(c, s, q)) ensures Pending(t, q) {
      ResetOthers(c, s, i, q);
    }
    RebuildOne(c, s, t, p, i);
  }

  lemma VisitName(c: Ctx, s: State, i: nat, n: Name, m: Name)
    requires Can(c, s, i, Visit(n)) && PcOk(c, s, s.workers[i])
    requires m in c.fs[s.workers[i].dir].listing
    ensures var p := s.workers[i].dir; var t := Do(c, s, i, Visit(n));
            p in t.scanned && NameOk(c, t, p, m)
  {
    var p := s.workers[i].dir;
    var t := Do(c, s, i, Visit(n));
    assert NameOk(c, s, p, m);
    var k := c.fs[p].listing[m];
    if m == n {
      if k == Directory { assert t.queue[|s.queue|] == p + [n]; }
    } else if Todo(s, p, m) {
      var j :| 0 <= j < |s.workers| && Lists(s.workers[j], p, m);
      assert Lists(t.workers[j], p, m);
    } else if k == Directory && Pending(s, p + [m]) {
      VisitPending(c, s, i, n, p + [m]);
    }
  }

  lemma VisitCovered(c: Ctx, s: State, i: nat, n: Name)
    requires Can(c, s, i, Visit(n)) && PcOk(c, s, s.workers[i])
    ensures var p := s.workers[i].dir; var t := Do(c, s, i, Visit(n));
            p in t.scanned && Covered(c, t, p)
  {
    var p := s.workers[i].dir;
    var t := Do(c, s, i, Visit(n));
    forall m | m in c.fs[p].listing ensures NameOk(c, t, p, m) {
      VisitName(c, s, i, n, m);
    }
  }

  lemma VisitPending(c: Ctx, s: State, i: nat, n: Name, q: Path)
    requires Can(c, s, i, Visit(n)) && Pending(s, q)
    ensures Pending(Do(c, s, i, Visit(n)), q)
  {
    var t := Do(c, s, i, Visit(n));
    if j :| 0 <= j < |s.workers| && Carries(s.workers[j], q) {
      assert Carries(t.workers[j], q);
    }
  }

  lemma UnignoredChild(ignored: set<Path>, p: Path, n: Name)
    requires Unignored(ignored, p) && p + [n] !in ignored
    ensures Unignored(ignored, p + [n])
  {
    var q := p + [n];
    forall k | 0 <= k <= |q| ensures q[..k] !in ignored {
      if k <= |p| { assert q[..k] == p[..k]; } else { assert q[..k] == q; }
    }
  }

  lemma ListedIsDir(fs: Tree, p: Path, n: Name)
    requires TreeOk(fs) && p in fs && fs[p].isDir && n in fs[p].listing && fs[p].listing[n] == Directory
    ensures p + [n] in fs && fs[p + [n]].isDir
  {
  }

  lemma ChildLegit(c: Ctx, s: State, p: Path, n: Name)
    requires Setting(c) && Inv(c, s) && p in c.fs && p in s.scanned
    requires n in c.fs[p].listing && c.fs[p].listing[n] == Directory
    ensures Legit(c, p + [n])
  {
    IsDirOf(c, s, p);
    ListedIsDir(c.fs, p, n);
    if p + [n] !in c.ignored { UnignoredChild(c.ignored, p, n); }
  }

  lemma VisitFrame(c: Ctx, s: State, i: nat, n: Name)
    requires Can(c, s, i, Visit(n))
    ensures Frame(c, s, Do(c, s, i, Visit(n)), {s.workers[i].dir})
  {
    var p := s.workers[i].dir;
    var t := Do(c, s, i, Visit(n));
    forall q | Pending(s, q) ensures Pending(t, q) { VisitPending(c, s, i, n, q); }
    forall q, m | q != p && Todo(s, q, m) ensures Todo(t, q, m) {
      var j :| 0 <= j < |s.workers| && Lists(s.workers[j], q, m);
      assert Lists(t.workers[j], q, m);
    }
  }

  lemma VisitDirOk(c: Ctx, s: State, i: nat, n: Name)
    requires Setting(c) && Inv(c, s) && Can(c, s, i, Visit(n))
    ensures var p := s.workers[i].dir; var t := Do(c, s, i, Visit(n));
            p in c.fs && p in t.scanned && Covered(c, t, p) && DirOk(c, t, p) && PcOk(c, t, t.workers[i])
  {
    var p := s.workers[i].dir;
    assert PcOk(c, s, s.workers[i]);
    VisitCovered(c, s, i, n);
    assert DirOk(c, s, p);
  }

  lemma VisitLegit(c: Ctx, s: State, i: nat, n: Name)
    requires Setting(c) && Inv(c, s) && Can(c, s, i, Visit(n))
    ensures forall q :: q in Do(c, s, i, Visit(n)).queue ==> q in s.queue || Legit(c, q)
  {
    var p := s.workers[i].dir;
    assert PcOk(c, s, s.workers[i]);
    if c.fs[p].listing[n] == Directory { ChildLegit(c, s, p, n); }
  }

  /** Who was owed a visit still is. */
  lemma VisitOthers(c: Ctx, s: State, i: nat, n: Name, q: Path)
    requires Inv(c, s) && Can(c, s, i, Visit(n)) && q in s.scanned && (q !in c.fs || Untouched(c, s, q))
    ensures Pending(Do(c, s, i, Visit(n)), q)
  {
    assert DirOk(c, s, q);
    VisitPending(c, s, i, n, q);
  }

  lemma VisitStep(c: Ctx, s: State, i: nat, n: Name)
    requires Setting(c) && Inv(c, s) && Can(c, s, i, Visit(n))
    ensures Inv(c, Do(c, s, i, Visit(n)))
  {
    var p := s.workers[i].dir;
    var t := Do(c, s, i, Visit(n));
    VisitFrame(c, s, i, n);
    VisitDirOk(c, s, i, n);
    VisitLegit(c, s, i, n);
    forall q | q in s.scanned && q != p && (q !in c.fs || Untouched(c, s, q)) ensures Pending(t, q) {
      VisitOthers(c, s, i, n, q);
    }
    RebuildOne(c, s, t, p, i);
  }

  /** RemoveFile and the final time stamp find nothing to change. */
  lemma TidyUpIsNoOp(c: Ctx, s: State, p: Path)
    requires p in c.fs && p in s.scanned && Truthful(c, s, p)
    ensures DropFiles(s.scanned, p, c.fs[p].listing.Keys) == s.scanned
    ensures Stamp(s.scanned, p, c.fs[p].mtime) == s.scanned
  {
    assert KeepFiles(s.scanned[p].files, c.fs[p].listing.Keys) == s.scanned[p].files;
  }

  lemma TidyUpStep(c: Ctx, s: State, i: nat, pc: Pc)
    requires Setting(c) && Inv(c, s) && i < |s.workers|
    requires s.workers[i].Pruning? || s.workers[i].Stamping?
    requires pc == Look(0) || pc == Stamping(s.workers[i].dir)
    ensures var p := s.workers[i].dir;
            && p in c.fs
            && DropFiles(s.scanned, p, c.fs[p].listing.Keys) == s.scanned
            && Stamp(s.scanned, p, c.fs[p].mtime) == s.scanned
    ensures Inv(c, With(s, i, pc))
  {
    assert PcOk(c, s, s.workers[i]);
    TidyUpIsNoOp(c, s, s.workers[i].dir);
    PcStep(c, s, i, pc, s.launched);
  }

  /** A worker that carries nothing and lists nothing goes on to carry and list nothing. */
  lemma IdleStep(c: Ctx, s: State, i: nat, pc: Pc, launched: bool)
    requires Setting(c) && Inv(c, s) && i < |s.workers|
    requires s.workers[i].Off? || s.workers[i].Look? || s.workers[i].Leaving?
    requires pc.Off? || pc.Look? || pc.Leaving?
    ensures Inv(c, With(s, i, pc).(launched := launched))
  {
    PcStep(c, s, i, pc, launched);
  }

  lemma EndListStep(c: Ctx, s: State, i: nat)
    requires Setting(c) && Inv(c, s) && Can(c, s, i, EndList)
    ensures Inv(c, Do(c, s, i, EndList))
  {
    assert PcOk(c, s, s.workers[i]);
    PcStep(c, s, i, Pruning(s.workers[i].dir), s.launched);
    assert Do(c, s, i, EndList) == With(s, i, Pruning(s.workers[i].dir)).(launched := s.launched);
  }

  lemma PruneStep(c: Ctx, s: State, i: nat)
    requires Setting(c) && Inv(c, s) && Can(c, s, i, Prune)
    ensures Inv(c, Do(c, s, i, Prune))
  {
    TidyUpStep(c, s, i, Stamping(s.workers[i].dir));
    assert Do(c, s, i, Prune) == With(s, i, Stamping(s.workers[i].dir));
  }

  lemma RestampStep(c: Ctx, s: State, i: nat)
    requires Setting(c) && Inv(c, s) && Can(c, s, i, Restamp)
    ensures Inv(c, Do(c, s, i, Restamp))
  {
    TidyUpStep(c, s, i, Look(0));
    assert Do(c, s, i, Restamp) == With(s, i, Look(0));
  }

  lemma LookStep(c: Ctx, s: State, i: nat, a: Act)
    requires Setting(c) && Inv(c, s) && Can(c, s, i, a) && (a == Launch || a == PopEmpty || a == Exit)
    ensures Inv(c, Do(c, s, i, a))
  {
    var t := Do(c, s, i, a);
    IdleStep(c, s, i, t.workers[i], t.launched);
    assert t == With(s, i, t.workers[i]).(launched := t.launched);
  }

  lemma Step(c: Ctx, s: State, i: nat, a: Act)
    requires Setting(c) && Inv(c, s) && Can(c, s, i, a)
    ensures Inv(c, Do(c, s, i, a))
  {
    match a {
      case Launch => LookStep(c, s, i, a);
      case PopOk => PopStep(c, s, i);
      case PopEmpty => LookStep(c, s, i, a);
      case Exit => LookStep(c, s, i, a);
      case Check => CheckStep(c, s, i);
      case Reset => ResetStep(c, s, i);
      case Visit(n) => VisitStep(c, s, i, n);
      case EndList => EndListStep(c, s, i);
      case Prune => PruneStep(c, s, i);
      case Restamp => RestampStep(c, s, i);
    }
  }
}
