/** ParallelScan and its workers (src/impl/scan_manager.h) as a machine over atomic steps: every
    locked region and every queue access is one step of one worker.

    A path relative to the scanned root is its list of names ([] is the root); RelativePaths shows that
    Util::Relative recovers that list from the absolute path a worker pops.  The tree does not change
    while a scan runs. */
module Scan {
  import Paths

  type Name = string
  type Path = seq<Name>

  /** How a directory entry is classified: symlinks first, then regular files, then directories. */
  datatype Kind = Regular | Symlink | Directory | Other

  /** What lstat and the directory iterator say about an existing path.  `isDir`: a directory of the tree itself.
      A symbolic link to a directory, and what is reached through one, is none, although the iterator follows
      the link and lists it. */
  datatype Node = Node(isDir: bool, mtime: int, listing: map<Name, Kind>)

  type Tree = map<Path, Node>

  datatype Entry = Entry(path: Path, mtime: int, files: map<Name, Kind>)

  type Status = map<Path, Entry>

  predicate IsFile(k: Kind) { k == Regular || k == Symlink }

  // ---------- the locked regions ----------

  function AddDir(m: Status, p: Path, mtime: int): Status { m[p := Entry(p, mtime, map[])] }

  function AddFile(m: Status, p: Path, n: Name, k: Kind): Status {
    if p in m then m[p := m[p].(files := m[p].files[n := k])] else m
  }

  function DropDir(m: Status, p: Path): Status { m - {p} }

  function KeepFiles(files: map<Name, Kind>, names: set<Name>): map<Name, Kind> {
    map n | n in files && n in names :: files[n]
  }

  function DropFiles(m: Status, p: Path, names: set<Name>): Status {
    if p in m then m[p := m[p].(files := KeepFiles(m[p].files, names))] else m
  }

  function Stamp(m: Status, p: Path, mtime: int): Status {
    if p in m then m[p := m[p].(mtime := mtime)] else m
  }

  // ---------- the machine ----------

  /** What stays fixed during a scan: the tree, the ignored directories, whether the cached status was
      made with the same hash method, and the cached status itself. */
  datatype Ctx = Ctx(fs: Tree, ignored: set<Path>, sameHash: bool, cache: Status)

  datatype Pc =
    | Off | Look(tries: nat) | Leaving
    | Got(dir: Path)
    | Add(dir: Path)
    | List(dir: Path, todo: set<Name>)
    | Pruning(dir: Path)
    | Stamping(dir: Path)

  datatype State = State(scanned: Status, queue: seq<Path>, workers: seq<Pc>, launched: bool)

  datatype Act =
    | Launch | PopOk | PopEmpty | Exit
    | Check | Reset | Visit(name: Name) | EndList | Prune | Restamp

  predicate Can(c: Ctx, s: State, i: nat, a: Act) {
    && i < |s.workers|
    && var pc := s.workers[i];
       match a
       case Launch => pc == Off
       case PopOk => pc.Look? && s.queue != []
       case PopEmpty => pc.Look? && s.queue == []
       case Exit => pc == Leaving
       case Check => pc.Got?
       case Reset => pc.Add? && pc.dir in c.fs
       case Visit(n) => pc.List? && pc.dir in c.fs && n in pc.todo && n in c.fs[pc.dir].listing
       case EndList => pc.List? && pc.todo == {}
       case Prune => pc.Pruning? && pc.dir in c.fs
       case Restamp => pc.Stamping? && pc.dir in c.fs
  }

  predicate Skips(c: Ctx, m: Status, p: Path)
    requires p in c.fs
  {
    p in m && m[p].mtime == c.fs[p].mtime && c.sameHash
  }

  function With(s: State, i: nat, pc: Pc): State
    requires i < |s.workers|
  {
    s.(workers := s.workers[i := pc])
  }

  function DoCheck(c: Ctx, s: State, i: nat, p: Path): State
    requires i < |s.workers|
  {
    if p in c.ignored then With(s, i, Look(0))
    else if p !in c.fs then With(s.(scanned := DropDir(s.scanned, p)), i, Look(0))
    else if Skips(c, s.scanned, p) then With(s, i, Look(0))
    else With(s, i, Add(p))
  }

  function DoVisit(s: State, i: nat, p: Path, todo: set<Name>, n: Name, k: Kind): State
    requires i < |s.workers|
  {
    var s' := With(s, i, List(p, todo - {n}));
    if IsFile(k) then s'.(scanned := AddFile(s.scanned, p, n, k))
    else if k == Directory then s'.(queue := s.queue + [p + [n]])
    else s'
  }

  function Do(c: Ctx, s: State, i: nat, a: Act): State
    requires Can(c, s, i, a)
  {
    var pc := s.workers[i];
    match a
    case Launch => With(s, i, Look(0)).(launched := true)
    case PopOk => With(s, i, Got(s.queue[|s.queue| - 1])).(queue := s.queue[..|s.queue| - 1])
    case PopEmpty => With(s, i, if pc.tries + 1 < 3 then Look(pc.tries + 1) else Leaving)
    case Exit => With(s, i, Off)
    case Check => DoCheck(c, s, i, pc.dir)
    case Reset =>
      var node := c.fs[pc.dir];
      With(s, i, List(pc.dir, node.listing.Keys)).(scanned := AddDir(s.scanned, pc.dir, node.mtime))
    case Visit(n) => DoVisit(s, i, pc.dir, pc.todo, n, c.fs[pc.dir].listing[n])
    case EndList => With(s, i, Pruning(pc.dir))
    case Prune =>
      With(s, i, Stamping(pc.dir)).(scanned := DropFiles(s.scanned, pc.dir, c.fs[pc.dir].listing.Keys))
    case Restamp => With(s, i, Look(0)).(scanned := Stamp(s.scanned, pc.dir, c.fs[pc.dir].mtime))
  }

  /** The start of ParallelScan: the root and every cached directory are queued, nobody runs yet. */
  predicate Initial(c: Ctx, s: State) {
    && s.scanned == c.cache && !s.launched
    && [] in s.queue
    && (forall p :: p in c.cache ==> p in s.queue)
    && (forall p :: p in s.queue ==> p == [] || p in c.cache)
    && (forall i :: 0 <= i < |s.workers| ==> s.workers[i] == Off)
  }

  datatype Move = Move(worker: nat, act: Act)

  predicate Run(c: Ctx, s: State, moves: seq<Move>, last: State)
    decreases |moves|
  {
    if moves == [] then s == last
    else Can(c, s, moves[0].worker, moves[0].act)
         && Run(c, Do(c, s, moves[0].worker, moves[0].act), moves[1..], last)
  }

  /** running_mark is zero again. */
  predicate Quiescent(s: State) {
    s.launched && forall i :: 0 <= i < |s.workers| ==> s.workers[i] == Off
  }

  // ---------- what a scan is for ----------

  function FileView(listing: map<Name, Kind>): map<Name, Kind> {
    map n | n in listing && IsFile(listing[n]) :: listing[n]
  }

  /** The root is a directory; a name is listed as a directory exactly when its path is one; names are
      file names. */
  predicate TreeOk(fs: Tree) {
    && [] in fs && fs[[]].isDir
    && (forall p, n :: p in fs && fs[p].isDir && n in fs[p].listing && fs[p].listing[n] == Directory
          ==> p + [n] in fs && fs[p + [n]].isDir)
    && (forall p :: p in fs && fs[p].isDir && p != [] ==> ListedByParent(fs, p))
    && (forall p :: p in fs ==> Paths.Names(p))
  }

  predicate ListedByParent(fs: Tree, p: Path)
    requires p != []
  {
    var q, n := p[..|p| - 1], p[|p| - 1];
    q in fs && fs[q].isDir && n in fs[q].listing && fs[q].listing[n] == Directory
  }

  predicate Unignored(ignored: set<Path>, p: Path) {
    forall k :: 0 <= k <= |p| ==> p[..k] !in ignored
  }

  /** The directories a scan has to list: those with no ignored directory on their path. */
  predicate Visible(fs: Tree, ignored: set<Path>, p: Path) {
    p in fs && fs[p].isDir && Unignored(ignored, p)
  }

  predicate ListsWell(m: Status, fs: Tree, p: Path)
    requires p in m && p in fs
  {
    m[p] == Entry(p, fs[p].mtime, FileView(fs[p].listing))
  }

  /** The status of a completed scan: exactly the visible directories, each with its regular files and
      symlinks and their types. */
  ghost predicate Complete(m: Status, fs: Tree, ignored: set<Path>) {
    && (forall p :: p in m <==> Visible(fs, ignored, p))
    && (forall p :: p in m && p in fs ==> ListsWell(m, fs, p))
  }

  /** A cached status that a scan of fs may build on: its directories are visible as far as they still
      exist, none is ignored, and an entry with the current mtime is right and knows the subdirectories. */
  predicate Usable(c: Ctx) {
    && (forall p :: p in c.cache ==> p !in c.ignored && (p in c.fs ==> c.fs[p].isDir && Unignored(c.ignored, p)))
    && (forall p :: p in c.cache && p in c.fs && c.cache[p].mtime == c.fs[p].mtime ==> Current(c, p))
  }

  predicate Current(c: Ctx, p: Path)
    requires p in c.cache && p in c.fs
  {
    && ListsWell(c.cache, c.fs, p)
    && forall n :: n in c.fs[p].listing && c.fs[p].listing[n] == Directory ==>
         p + [n] in c.cache || p + [n] in c.ignored
  }
}
