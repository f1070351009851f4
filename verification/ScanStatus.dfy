/** The scan status as the object the workers update under its lock, and as the file that is dumped,
    reloaded and validated (src/impl/scan_manager.h). */
module ScanStatus {
  import Paths
  import opened Scan

  // ---------- counting ----------

  predicate Counts(k: Kind, regular: bool) { (k == Regular) == regular }

  /** Names of the regular files, or of the other entries. */
  function NamesOf(files: map<Name, Kind>, regular: bool): set<Name> {
    set n | n in files && Counts(files[n], regular)
  }

  /** Files of the given directories, as pairs of directory and name. */
  function FilesOf(m: Status, dirs: set<Path>, regular: bool): set<(Path, Name)> {
    set p, n | p in dirs && p in m && n in m[p].files && Counts(m[p].files[n], regular) :: (p, n)
  }

  function Pairs(p: Path, names: set<Name>): set<(Path, Name)> { set n | n in names :: (p, n) }

  lemma {:induction false} PairsCount(p: Path, names: set<Name>)
    ensures |Pairs(p, names)| == |names|
    decreases |names|
  {
    if names == {} {
      assert Pairs(p, names) == {};
    } else {
      var n :| n in names;
      var rest := names - {n};
      PairsCount(p, rest);
      assert Pairs(p, names) == Pairs(p, rest) + {(p, n)};
      assert (p, n) !in Pairs(p, rest);
    }
  }

  lemma AddDirCount(m: Status, dirs: set<Path>, p: Path, regular: bool)
    requires p in m && p !in dirs
    ensures |FilesOf(m, dirs + {p}, regular)| == |FilesOf(m, dirs, regular)| + |NamesOf(m[p].files, regular)|
  {
    var a, b := FilesOf(m, dirs, regular), Pairs(p, NamesOf(m[p].files, regular));
    assert FilesOf(m, dirs + {p}, regular) == a + b;
    assert a !! b;
    PairsCount(p, NamesOf(m[p].files, regular));
  }

  /** How many of the names still to be visited are to be counted. */
  function Left(files: map<Name, Kind>, todo: set<Name>, regular: bool): nat {
    |todo * NamesOf(files, regular)|
  }

  lemma LeftVisit(files: map<Name, Kind>, todo: set<Name>, n: Name, regular: bool)
    requires n in files && n in todo
    ensures Left(files, todo, regular)
            == Left(files, todo - {n}, regular) + (if Counts(files[n], regular) then 1 else 0)
  {
    var of := NamesOf(files, regular);
    if n in of {
      assert todo * of == (todo - {n}) * of + {n};
    } else {
      assert todo * of == (todo - {n}) * of;
    }
  }

  lemma LeftAtStart(files: map<Name, Kind>, regular: bool)
    ensures Left(files, files.Keys, regular) == |NamesOf(files, regular)|
  {
    assert files.Keys * NamesOf(files, regular) == NamesOf(files, regular);
  }

  /** One directory: regular entries and the rest. */
  method CountFiles(files: map<Name, Kind>) returns (regular: nat, others: nat)
    ensures regular == |NamesOf(files, true)| && others == |NamesOf(files, false)|
  {
    regular, others := 0, 0;
    var todo := files.Keys;
    LeftAtStart(files, true);
    LeftAtStart(files, false);
    while todo != {}
      invariant todo <= files.Keys
      invariant regular + Left(files, todo, true) == |NamesOf(files, true)|
      invariant others + Left(files, todo, false) == |NamesOf(files, false)|
      decreases todo
    {
      var n :| n in todo;
      LeftVisit(files, todo, n, true);
      LeftVisit(files, todo, n, false);
      if files[n] == Regular {
        regular := regular + 1;
      } else {
        others := others + 1;
      }
      todo := todo - {n};
    }
  }

  /** The loops of SumStatus and of ValidateScanStatus over all directories. */
  method CountAll(m: Status) returns (regular: nat, others: nat)
    ensures regular == |FilesOf(m, m.Keys, true)| && others == |FilesOf(m, m.Keys, false)|
  {
    regular, others := 0, 0;
    var todo := m.Keys;
    ghost var seen: set<Path> := {};
    assert FilesOf(m, {}, true) == {} && FilesOf(m, {}, false) == {};
    while todo != {}
      invariant todo <= m.Keys && seen == m.Keys - todo
      invariant regular == |FilesOf(m, seen, true)| && others == |FilesOf(m, seen, false)|
      decreases todo
    {
      var p :| p in todo;
      var r, o := CountFiles(m[p].files);
      AddDirCount(m, seen, p, true);
      AddDirCount(m, seen, p, false);
      regular, others := regular + r, others + o;
      todo := todo - {p};
      seen := seen + {p};
    }
    assert seen == m.Keys;
  }

  /** Regular files are counted apart, and every entry once. */
  lemma FilesOfExact(m: Status, p: Path, n: Name)
    ensures (p, n) in FilesOf(m, m.Keys, true) <==> p in m && n in m[p].files && m[p].files[n] == Regular
    ensures (p, n) in FilesOf(m, m.Keys, false) <==> p in m && n in m[p].files && m[p].files[n] != Regular
  {
  }

  // ---------- dump and validate ----------

  /** What is written to the status file. */
  datatype Saved = Saved(path: string, dirs: Status, fileNum: int, symlinkNum: int)

  function Dumped(src: string, m: Status): Saved {
    Saved(src, m, |FilesOf(m, m.Keys, true)|, |FilesOf(m, m.Keys, false)|)
  }

  predicate KeyOk(m: Status, p: Path)
    requires p in m
  {
    m[p].path == p && !Paths.IsAbsolute(Paths.Join(p))
  }

  predicate Accepted(v: Saved, src: string) {
    && v.path == src
    && (forall p :: p in v.dirs ==> KeyOk(v.dirs, p))
    && v.fileNum == |FilesOf(v.dirs, v.dirs.Keys, true)|
    && v.symlinkNum == |FilesOf(v.dirs, v.dirs.Keys, false)|
  }

  /** ValidateScanStatus: the source directory exists, the status file could be loaded, and what it
      says is consistent. */
  method ValidateScanStatus(src: string, exists_: bool, loaded: bool, v: Saved) returns (ok: bool)
    ensures ok <==> exists_ && loaded && Accepted(v, src)
  {
    if !exists_ || !loaded || v.path != src { return false; }
    var todo := v.dirs.Keys;
    while todo != {}
      invariant todo <= v.dirs.Keys
      invariant forall p :: p in v.dirs && p !in todo ==> KeyOk(v.dirs, p)
      decreases todo
    {
      var p :| p in todo;
      if v.dirs[p].path != p { return false; }
      if Paths.IsAbsolute(Paths.Join(p)) { return false; }
      todo := todo - {p};
    }
    var fileNum, symlinkNum := CountAll(v.dirs);
    return fileNum == v.fileNum && symlinkNum == v.symlinkNum;
  }

  function RegularFiles(m: Status): set<(Path, Name)> {
    set p, n | p in m && n in m[p].files && m[p].files[n] == Regular :: (p, n)
  }

  function OtherFiles(m: Status): set<(Path, Name)> {
    set p, n | p in m && n in m[p].files && m[p].files[n] != Regular :: (p, n)
  }

  /** What is accepted: the status of the source, every record filed under its own relative path, and both counters
      right. */
  lemma AcceptedExactly(v: Saved, src: string)
    ensures Accepted(v, src)
            <==> && v.path == src
                 && (forall p :: p in v.dirs ==>
                       v.dirs[p].path == p && (Paths.Join(p) != "" ==> Paths.Join(p)[0] != '/'))
                 && v.fileNum == |RegularFiles(v.dirs)| && v.symlinkNum == |OtherFiles(v.dirs)|
  {
    assert FilesOf(v.dirs, v.dirs.Keys, true) == RegularFiles(v.dirs);
    assert FilesOf(v.dirs, v.dirs.Keys, false) == OtherFiles(v.dirs);
  }

  /** Every record is filed under its own path, and every path is made of file names. */
  predicate Filed(m: Status) { forall p :: p in m ==> m[p].path == p && Paths.Names(p) }

  lemma {:induction false} FiledRun(c: Ctx, s: State, moves: seq<Move>, last: State)
    requires TreeOk(c.fs) && Filed(s.scanned) && Run(c, s, moves, last)
    ensures Filed(last.scanned)
    decreases |moves|
  {
    if moves != [] {
      FiledRun(c, Do(c, s, moves[0].worker, moves[0].act), moves[1..], last);
    }
  }

  /** Whatever a scan has reached when it is dumped -- finished or not, for any tree, any cache that was
      itself filed correctly and any interleaving -- its own validator accepts it after an exact reload, if and
      only if the status path is the source. */
  lemma DumpIsAccepted(c: Ctx, s: State, moves: seq<Move>, last: State, path: string, src: string)
    requires TreeOk(c.fs) && Filed(c.cache) && Initial(c, s) && Run(c, s, moves, last)
    ensures Accepted(Dumped(path, last.scanned), src) <==> path == src
  {
    FiledRun(c, s, moves, last);
    forall p | p in last.scanned ensures KeyOk(last.scanned, p) {
      Paths.JoinTidy(p);
    }
  }

  // ---------- the locked regions ----------

  /** The two statuses differ at most in the record of p. */
  ghost predicate SameElsewhere(m: Status, m': Status, p: Path) {
    forall q :: q != p ==> (q in m' <==> q in m) && (q in m ==> m'[q] == m[q])
  }

  /** Each region works on the record of one directory. */
  lemma RegionsFrame(m: Status, p: Path, mtime: int, n: Name, k: Kind, names: set<Name>)
    ensures SameElsewhere(m, AddDir(m, p, mtime), p) && SameElsewhere(m, DropDir(m, p), p)
    ensures SameElsewhere(m, AddFile(m, p, n, k), p) && SameElsewhere(m, DropFiles(m, p, names), p)
    ensures SameElsewhere(m, Stamp(m, p, mtime), p)
  {
  }

  /** What becomes of that record: it is there afresh, or gone. */
  lemma RegionsReplace(m: Status, p: Path, mtime: int)
    ensures p in AddDir(m, p, mtime) && p !in DropDir(m, p)
    ensures AddDir(m, p, mtime)[p].path == p && AddDir(m, p, mtime)[p].mtime == mtime
    ensures AddDir(m, p, mtime)[p].files == map[]
  {
  }

  /** Or, if it is there, one thing about it changes: one file, the files that are not named, or the time. */
  lemma RegionsUpdate(m: Status, p: Path, mtime: int, n: Name, k: Kind, names: set<Name>, x: Name)
    ensures p in AddFile(m, p, n, k) <==> p in m
    ensures p in DropFiles(m, p, names) <==> p in m
    ensures p in Stamp(m, p, mtime) <==> p in m
    ensures p in m ==>
              && AddFile(m, p, n, k)[p].files == m[p].files[n := k]
              && AddFile(m, p, n, k)[p].mtime == m[p].mtime && AddFile(m, p, n, k)[p].path == m[p].path
    ensures p in m ==>
              var after := DropFiles(m, p, names)[p];
              && (x in after.files <==> x in m[p].files && x in names)
              && (x in after.files ==> after.files[x] == m[p].files[x])
              && after.mtime == m[p].mtime && after.path == m[p].path
    ensures p in m ==> Stamp(m, p, mtime)[p] == Entry(m[p].path, mtime, m[p].files)
  {
  }

  // ---------- the object the workers share ----------

  class ScanContext {
    const src: string
    var scanned: Status
    var fileNum: int
    var symlinkNum: int

    constructor (src: string, cached: Status)
      ensures this.src == src && scanned == cached
    {
      this.src, scanned := src, cached;
    }

    ghost function View(): Saved
      reads this
    {
      Saved(src, scanned, fileNum, symlinkNum)
    }

    /** AddDirItem: a fresh record replaces the old one or is inserted; nothing happens when the
        directory cannot be examined. */
    method AddDirItem(p: Path, examined: bool, mtime: int) returns (ok: bool)
      modifies this`scanned
      ensures ok == examined
      ensures scanned == if ok then AddDir(old(scanned), p, mtime) else old(scanned)
    {
      if !examined { return false; }
      var dir := Entry(p, mtime, map[]);
      scanned := scanned[p := dir];
      return true;
    }

    /** AddFileItem: recorded in its directory's record, refused when that is missing. */
    method AddFileItem(p: Path, n: Name, k: Kind, examined: bool) returns (ok: bool)
      modifies this`scanned
      ensures ok <==> examined && p in old(scanned)
      ensures scanned == if ok then AddFile(old(scanned), p, n, k) else old(scanned)
    {
      if !examined || p !in scanned { return false; }
      var dir := scanned[p];
      scanned := scanned[p := dir.(files := dir.files[n := k])];
      return true;
    }

    method RemoveDir(p: Path)
      modifies this`scanned
      ensures scanned == DropDir(old(scanned), p)
    {
      scanned := scanned - {p};
    }

    /** RemoveFile: one pass over the recorded files, erasing those not listed. */
    method RemoveFile(p: Path, names: set<Name>) returns (ok: bool)
      modifies this`scanned
      ensures ok <==> p in old(scanned)
      ensures scanned == DropFiles(old(scanned), p, names)
    {
      if p !in scanned { return false; }
      var files := scanned[p].files;
      var todo := files.Keys;
      ghost var before := files;
      while todo != {}
        invariant todo <= before.Keys
        invariant files == map n | n in before && (n in todo || n in names) :: before[n]
        decreases todo
      {
        var n :| n in todo;
        if n !in names { files := files - {n}; }
        todo := todo - {n};
      }
      assert files == KeepFiles(before, names);
      scanned := scanned[p := scanned[p].(files := files)];
      return true;
    }

    method SetUpdateTime(p: Path, mtime: int)
      modifies this`scanned
      ensures scanned == Stamp(old(scanned), p, mtime)
    {
      if p in scanned {
        scanned := scanned[p := scanned[p].(mtime := mtime)];
      }
    }

    /** SumStatus before serializing: what is dumped is consistent with the records. */
    method SumStatus()
      modifies this`fileNum, this`symlinkNum
      ensures View() == Dumped(src, scanned)
    {
      var f, l := CountAll(scanned);
      fileNum, symlinkNum := f, l;
    }
  }
}
