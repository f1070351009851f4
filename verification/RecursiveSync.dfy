/** SyncLocalRecursive of src/impl/sync_manager.h: workers on a shared queue go through a directory tree and update
    shared counters one atomic access at a time.

    The source tree does not change during the sync; it and the paths are those of the scan.  What the library calls
    make of a file is the choice of the step: synced, up to date, failed, or an exception. */
module RecursiveSync {
  import S = Scan
  import W = Worklist

  type Path = S.Path
  type Name = S.Name

  // ---------- the machine ----------

  datatype Ctx = Ctx(fs: S.Tree, ignored: set<Path>)

  /** Something the sync has to deal with. */
  datatype Target = Dir(path: Path) | File(path: Path, name: Name)

  /** `InDir`: in the loop over a directory, with these entries to come.  `InFile`: counted in total, outcome open.
      `Skipping`: counted as success, not yet as skipped.  `Failing`: listed as failed, not yet counted. */
  datatype Pc =
    | Off | Look(tries: nat) | Leaving
    | Got(dir: Path)
    | InDir(dir: Path, todo: set<Name>)
    | InFile(dir: Path, todo: set<Name>, name: Name)
    | Skipping(dir: Path, todo: set<Name>)
    | Failing(dir: Path, todo: set<Name>)

  /** `log` is history: every directory entered and every file begun, in order. */
  datatype State = State(
    queue: seq<Path>, workers: seq<Pc>, launched: bool,
    dirs: nat, total: nat, success: nat, fail: nat, skipped: nat, failed: seq<Target>, log: seq<Target>)

  datatype Act =
    | Launch | PopOk | PopEmpty | Exit
    | Ignore                      // an ignored or vanished directory
    | Enter | PushDir(name: Name) | EndDir
    | BeginFile(name: Name) | Sync | Skip | CountSkip | ListFailed | CountFail
    | Throw                       // a library call throws in the middle of a file
    | Abandon                     // or between two entries: the rest of the directory is abandoned either way

  predicate Lists(c: Ctx, pc: Pc, n: Name) { pc.InDir? && pc.dir in c.fs && n in pc.todo && n in c.fs[pc.dir].listing }

  predicate Can(c: Ctx, s: State, i: nat, a: Act) {
    && i < |s.workers|
    && var pc := s.workers[i];
       match a
       case Launch => pc == Off
       case PopOk => pc.Look? && s.queue != []
       case PopEmpty => pc.Look? && s.queue == []
       case Exit => pc == Leaving
       case Ignore => pc.Got? && (pc.dir in c.ignored || pc.dir !in c.fs)
       case Enter => pc.Got? && pc.dir !in c.ignored && pc.dir in c.fs
       case PushDir(n) => Lists(c, pc, n) && c.fs[pc.dir].listing[n] == S.Directory
       case BeginFile(n) => Lists(c, pc, n) && c.fs[pc.dir].listing[n] != S.Directory
       case EndDir => pc.InDir? && pc.todo == {}
       case Sync => pc.InFile?
       case Skip => pc.InFile?
       case CountSkip => pc.Skipping?
       case ListFailed => pc.InFile?
       case CountFail => pc.Failing?
       case Throw => pc.InFile?
       case Abandon => pc.InDir?
  }

  function With(s: State, i: nat, pc: Pc): State
    requires i < |s.workers|
  {
    s.(workers := s.workers[i := pc])
  }

  function Do(c: Ctx, s: State, i: nat, a: Act): State
    requires Can(c, s, i, a)
  {
    var pc := s.workers[i];
    match a
    case Launch => With(s, i, Look(0)).(launched := true)
    case PopOk => With(s, i, Got(s.queue[|s.queue| - 1])).(queue := s.queue[..|s.queue| - 1])
    case PopEmpty => With(s, i, if pc.tries + 1 < 3 then Look(pc.tries + 1) else Leaving)
    case Exit => With(s, i, Off)
    case Ignore => With(s, i, Look(0))
    case Enter =>
      With(s, i, InDir(pc.dir, c.fs[pc.dir].listing.Keys)).(dirs := s.dirs + 1, log := s.log + [Dir(pc.dir)])
    case PushDir(n) => With(s, i, InDir(pc.dir, pc.todo - {n})).(queue := s.queue + [pc.dir + [n]])
    case BeginFile(n) =>
      With(s, i, InFile(pc.dir, pc.todo - {n}, n)).(total := s.total + 1, log := s.log + [File(pc.dir, n)])
    case EndDir => With(s, i, Look(0))
    case Sync => With(s, i, InDir(pc.dir, pc.todo)).(success := s.success + 1)
    case Skip => With(s, i, Skipping(pc.dir, pc.todo)).(success := s.success + 1)
    case CountSkip => With(s, i, InDir(pc.dir, pc.todo)).(skipped := s.skipped + 1)
    case ListFailed => With(s, i, Failing(pc.dir, pc.todo)).(failed := s.failed + [File(pc.dir, pc.name)])
    case CountFail => With(s, i, InDir(pc.dir, pc.todo)).(fail := s.fail + 1)
    case Throw => With(s, i, Look(0))
    case Abandon => With(s, i, Look(0))
  }

  datatype Move = Move(worker: nat, act: Act)

  predicate Run(c: Ctx, s: State, moves: seq<Move>, last: State)
    decreases |moves|
  {
    if moves == [] then s == last
    else Can(c, s, moves[0].worker, moves[0].act)
         && Run(c, Do(c, s, moves[0].worker, moves[0].act), moves[1..], last)
  }

  /** After Reset: only the source directory is queued and no counter has moved. */
  predicate Initial(s: State) {
    && s.queue == [[]] && !s.launched && (forall i :: 0 <= i < |s.workers| ==> s.workers[i] == Off)
    && s.dirs == 0 && s.total == 0 && s.success == 0 && s.fail == 0 && s.skipped == 0 && s.failed == [] && s.log == []
  }

  predicate Quiescent(s: State) {
    s.launched && forall i :: 0 <= i < |s.workers| ==> s.workers[i] == Off
  }

  // ---------- the worklist protocol ----------

  function Abstract(pc: Pc): W.Pc {
    match pc
    case Off => W.Off
    case Look(t) => W.Look(t)
    case Leaving => W.Leaving
    case _ => W.Busy
  }

  function AbstractState(s: State): W.State {
    W.State(|s.queue|, seq(|s.workers|, i requires 0 <= i < |s.workers| => Abstract(s.workers[i])), s.launched)
  }

  function AbstractAct(a: Act): W.Act {
    match a
    case Launch => W.Launch
    case PopOk => W.PopOk
    case PopEmpty => W.PopEmpty
    case Exit => W.Exit
    case Ignore => W.EndDir
    case EndDir => W.EndDir
    case Throw => W.EndDir
    case Abandon => W.EndDir
    case PushDir(_) => W.Push
    case _ => W.Stutter
  }

  lemma Refines(c: Ctx, s: State, i: nat, a: Act)
    requires Can(c, s, i, a)
    ensures var w, b := AbstractState(s), AbstractAct(a);
            W.Can(w, i, b) && AbstractState(Do(c, s, i, a)) == W.Do(w, i, b)
  {
    var w, b := AbstractState(s), AbstractAct(a);
    assert w.workers[i] == Abstract(s.workers[i]);
    assert AbstractState(Do(c, s, i, a)).workers == W.Do(w, i, b).workers;
  }

  lemma {:induction false} AttendedRun(c: Ctx, s: State, moves: seq<Move>, last: State)
    requires Run(c, s, moves, last) && W.Attended(AbstractState(s))
    ensures W.Attended(AbstractState(last))
    decreases |moves|
  {
    if moves != [] {
      var i, a := moves[0].worker, moves[0].act;
      Refines(c, s, i, a);
      W.AttendedStep(AbstractState(s), i, AbstractAct(a));
      AttendedRun(c, Do(c, s, i, a), moves[1..], last);
    }
  }

  lemma RestIsEmpty(c: Ctx, s: State, moves: seq<Move>, last: State)
    requires Initial(s) && Run(c, s, moves, last) && Quiescent(last)
    ensures last.queue == []
  {
    AttendedRun(c, s, moves, last);
    var w := AbstractState(last);
    assert forall j :: 0 <= j < |w.workers| ==> w.workers[j] == Abstract(last.workers[j]);
    W.QuiescentIsEmpty(w);
  }

  // ---------- the counters ----------

  datatype Stage = AtFile | AtSkip | AtFail

  predicate IsAt(pc: Pc, stage: Stage) {
    match stage
    case AtFile => pc.InFile?
    case AtSkip => pc.Skipping?
    case AtFail => pc.Failing?
  }

  /** How many workers are at this stage. */
  function Count(ws: seq<Pc>, stage: Stage): nat {
    if ws == [] then 0 else (if IsAt(ws[0], stage) then 1 else 0) + Count(ws[1..], stage)
  }

  lemma {:induction false} CountUpdate(ws: seq<Pc>, i: nat, now: Pc, stage: Stage)
    requires i < |ws|
    ensures Count(ws[i := now], stage) + (if IsAt(ws[i], stage) then 1 else 0)
            == Count(ws, stage) + (if IsAt(now, stage) then 1 else 0)
  {
    if i == 0 {
      assert ws[i := now][1..] == ws[1..];
    } else {
      assert ws[i := now][1..] == ws[1..][i - 1 := now];
      CountUpdate(ws[1..], i - 1, now, stage);
    }
  }

  lemma {:induction false} CountNone(ws: seq<Pc>, stage: Stage)
    requires forall i :: 0 <= i < |ws| ==> ws[i] == Off
    ensures Count(ws, stage) == 0
  {
    if ws != [] { CountNone(ws[1..], stage); }
  }

  /** How often the run takes this step. */
  function Times(moves: seq<Move>, a: Act): nat {
    if moves == [] then 0 else (if moves[0].act == a then 1 else 0) + Times(moves[1..], a)
  }

  /** What the counters say, against what happens in the rest of the run. */
  predicate Tallied(s: State, moves: seq<Move>, last: State) {
    && last.success == s.success + Times(moves, Sync) + Times(moves, Skip)
    && last.skipped + Count(last.workers, AtSkip) == s.skipped + Count(s.workers, AtSkip) + Times(moves, Skip)
    && last.fail + Count(last.workers, AtFail) == s.fail + Count(s.workers, AtFail) + Times(moves, ListFailed)
    && |last.failed| == |s.failed| + Times(moves, ListFailed)
    && last.total - Count(last.workers, AtFile) + Count(s.workers, AtFile)
       == s.total + Times(moves, Sync) + Times(moves, Skip) + Times(moves, ListFailed) + Times(moves, Throw)
  }

  /** One step, on the numbers of workers at each stage. */
  lemma CountStep(c: Ctx, s: State, i: nat, a: Act, stage: Stage)
    requires Can(c, s, i, a)
    ensures var t := Do(c, s, i, a);
            Count(t.workers, stage) + (if IsAt(s.workers[i], stage) then 1 else 0)
            == Count(s.workers, stage) + (if IsAt(t.workers[i], stage) then 1 else 0)
  {
    CountUpdate(s.workers, i, Do(c, s, i, a).workers[i], stage);
  }

  lemma TallyStep(c: Ctx, s: State, i: nat, a: Act, rest: seq<Move>, last: State)
    requires Can(c, s, i, a) && Tallied(Do(c, s, i, a), rest, last)
    ensures Tallied(s, [Move(i, a)] + rest, last)
  {
    var moves := [Move(i, a)] + rest;
    assert moves[0] == Move(i, a) && moves[1..] == rest;
    CountStep(c, s, i, a, AtFile);
    CountStep(c, s, i, a, AtSkip);
    CountStep(c, s, i, a, AtFail);
  }

  lemma {:induction false} TallyRun(c: Ctx, s: State, moves: seq<Move>, last: State)
    requires Run(c, s, moves, last)
    ensures Tallied(s, moves, last)
    decreases |moves|
  {
    if moves != [] {
      var i, a := moves[0].worker, moves[0].act;
      TallyRun(c, Do(c, s, i, a), moves[1..], last);
      assert moves == [Move(i, a)] + moves[1..];
      TallyStep(c, s, i, a, moves[1..], last);
    }
  }

  /** When the recursive sync comes to rest, for every interleaving: no directory is left, every counter is the number
      of files with that outcome, and the totals add up exactly when no library call threw in the middle of a file. */
  lemma RecursiveSyncAccounts(c: Ctx, s: State, moves: seq<Move>, last: State)
    requires Initial(s) && Run(c, s, moves, last) && Quiescent(last)
    ensures last.queue == []
    ensures last.success == Times(moves, Sync) + Times(moves, Skip) && last.skipped == Times(moves, Skip)
    ensures last.fail == Times(moves, ListFailed) == |last.failed|
    ensures last.total == last.success + last.fail + Times(moves, Throw)
    ensures last.total == last.success + last.fail <==> Times(moves, Throw) == 0
  {
    RestIsEmpty(c, s, moves, last);
    TallyRun(c, s, moves, last);
    CountNone(s.workers, AtFile);
    CountNone(s.workers, AtSkip);
    CountNone(s.workers, AtFail);
    CountNone(last.workers, AtFile);
    CountNone(last.workers, AtSkip);
    CountNone(last.workers, AtFail);
  }

  // ---------- every file once ----------

  predicate Seen(c: Ctx, t: Target) {
    && S.Visible(c.fs, c.ignored, t.path)
    && (t.File? ==> t.name in c.fs[t.path].listing && c.fs[t.path].listing[t.name] != S.Directory)
  }

  /** A directory to come has this target in or below it. */
  predicate Below(p: Path, t: Target) { p <= t.path }

  /** And so have these entries of a directory. */
  predicate Among(p: Path, todo: set<Name>, t: Target) {
    || (p < t.path && t.path[|p|] in todo)
    || (p == t.path && t.File? && t.name in todo)
  }

  /** The worker has still to deal with the target, or to pass it on. */
  predicate Owes(pc: Pc, t: Target) {
    match pc
    case Got(p) => Below(p, t)
    case InDir(p, todo) => Among(p, todo, t)
    case InFile(p, todo, _) => Among(p, todo, t)
    case Skipping(p, todo) => Among(p, todo, t)
    case Failing(p, todo) => Among(p, todo, t)
    case _ => false
  }

  function Logged(log: seq<Target>, t: Target): nat {
    if log == [] then 0 else (if log[0] == t then 1 else 0) + Logged(log[1..], t)
  }

  function Queued(queue: seq<Path>, t: Target): nat {
    if queue == [] then 0 else (if Below(queue[0], t) then 1 else 0) + Queued(queue[1..], t)
  }

  function Held(ws: seq<Pc>, t: Target): nat {
    if ws == [] then 0 else (if Owes(ws[0], t) then 1 else 0) + Held(ws[1..], t)
  }

  /** How often the target was dealt with or is still to be. */
  function InAll(s: State, t: Target): nat { Logged(s.log, t) + Queued(s.queue, t) + Held(s.workers, t) }

  lemma {:induction false} LoggedSnoc(log: seq<Target>, x: Target, t: Target)
    ensures Logged(log + [x], t) == Logged(log, t) + if x == t then 1 else 0
  {
    if log == [] {
      assert log + [x] == [x] && [x][1..] == [];
    } else {
      assert (log + [x])[1..] == log[1..] + [x];
      LoggedSnoc(log[1..], x, t);
    }
  }

  lemma {:induction false} QueuedSnoc(queue: seq<Path>, p: Path, t: Target)
    ensures Queued(queue + [p], t) == Queued(queue, t) + if Below(p, t) then 1 else 0
  {
    if queue == [] {
      assert queue + [p] == [p] && [p][1..] == [];
    } else {
      assert (queue + [p])[1..] == queue[1..] + [p];
      QueuedSnoc(queue[1..], p, t);
    }
  }

  lemma {:induction false} HeldUpdate(ws: seq<Pc>, i: nat, now: Pc, t: Target)
    requires i < |ws|
    ensures Held(ws[i := now], t) + (if Owes(ws[i], t) then 1 else 0) == Held(ws, t) + (if Owes(now, t) then 1 else 0)
  {
    if i == 0 {
      assert ws[i := now][1..] == ws[1..];
    } else {
      assert ws[i := now][1..] == ws[1..][i - 1 := now];
      HeldUpdate(ws[1..], i - 1, now, t);
    }
  }

  lemma {:induction false} HeldNone(ws: seq<Pc>, t: Target)
    requires forall i :: 0 <= i < |ws| ==> ws[i] == Off
    ensures Held(ws, t) == 0
  {
    if ws != [] { HeldNone(ws[1..], t); }
  }

  /** Every directory on the way to a visible one is listed by the one before. */
  lemma {:induction false} OnTheWay(c: Ctx, q: Path, k: nat)
    requires S.TreeOk(c.fs) && S.Visible(c.fs, c.ignored, q) && k < |q|
    ensures q[..k] in c.fs && q[k] in c.fs[q[..k]].listing && c.fs[q[..k]].listing[q[k]] == S.Directory
    ensures q[..k] !in c.ignored && q !in c.ignored
    decreases |q|
  {
    assert q[..|q|] == q;
    var parent := q[..|q| - 1];
    assert S.ListedByParent(c.fs, q);
    if k < |q| - 1 {
      forall j | 0 <= j <= |parent| ensures parent[..j] !in c.ignored { assert parent[..j] == q[..j]; }
      OnTheWay(c, parent, k);
      assert parent[..k] == q[..k] && parent[k] == q[k];
    }
  }

  /** What a worker owes, from one step to the next, against what the step logs and queues. */
  predicate Passes(c: Ctx, s: State, i: nat, a: Act, t: Target)
    requires Can(c, s, i, a)
  {
    var now := Do(c, s, i, a);
    (if Owes(s.workers[i], t) then 1 else 0) + Logged(s.log, t) + Queued(s.queue, t)
    == (if Owes(now.workers[i], t) then 1 else 0) + Logged(now.log, t) + Queued(now.queue, t)
  }

  /** Nothing on the way to something visible is ignored, missing, or not listed as a directory. */
  lemma WayDown(c: Ctx, p: Path, t: Target)
    requires S.TreeOk(c.fs) && Seen(c, t)
    ensures Below(p, t) ==> p in c.fs && p !in c.ignored
    ensures p < t.path ==>
              p in c.fs && t.path[|p|] in c.fs[p].listing && c.fs[p].listing[t.path[|p|]] == S.Directory
  {
    if p < t.path {
      OnTheWay(c, t.path, |p|);
      assert t.path[..|p|] == p;
    } else if p == t.path {
      assert t.path[..|t.path|] == p;
    }
  }

  /** The entries of a directory on the way have the target among them, unless it is the directory itself. */
  lemma AmongAll(c: Ctx, p: Path, t: Target)
    requires S.TreeOk(c.fs) && Seen(c, t) && p in c.fs
    ensures Among(p, c.fs[p].listing.Keys, t) <==> Below(p, t) && t != Dir(p)
  {
    WayDown(c, p, t);
    if Below(p, t) { assert p == t.path || p < t.path; }
  }

  lemma PassesEnter(c: Ctx, s: State, i: nat, t: Target)
    requires S.TreeOk(c.fs) && Seen(c, t) && Can(c, s, i, Enter)
    ensures Passes(c, s, i, Enter, t)
  {
    LoggedSnoc(s.log, Dir(s.workers[i].dir), t);
    AmongAll(c, s.workers[i].dir, t);
  }

  lemma BelowChild(p: Path, n: Name, t: Target)
    ensures Below(p + [n], t) <==> p < t.path && t.path[|p|] == n
  {
    if p < t.path && t.path[|p|] == n { assert t.path[..|p| + 1] == p + [n]; }
  }

  function One(b: bool): nat { if b then 1 else 0 }

  /** A subdirectory goes from the entries to come into the queue. */
  lemma AmongPushed(c: Ctx, p: Path, todo: set<Name>, n: Name, t: Target)
    requires Seen(c, t) && p in c.fs && n in todo && n in c.fs[p].listing && c.fs[p].listing[n] == S.Directory
    ensures One(Among(p, todo, t)) == One(Among(p, todo - {n}, t)) + One(Below(p + [n], t))
  {
    BelowChild(p, n, t);
  }

  lemma PassesPush(c: Ctx, s: State, i: nat, n: Name, t: Target)
    requires S.TreeOk(c.fs) && Seen(c, t) && Can(c, s, i, PushDir(n))
    ensures Passes(c, s, i, PushDir(n), t)
  {
    var p := s.workers[i].dir;
    QueuedSnoc(s.queue, p + [n], t);
    AmongPushed(c, p, s.workers[i].todo, n, t);
  }

  /** A file goes from the entries to come into the log. */
  lemma AmongBegun(c: Ctx, p: Path, todo: set<Name>, n: Name, t: Target)
    requires S.TreeOk(c.fs) && Seen(c, t) && p in c.fs && n in todo && n in c.fs[p].listing
    requires c.fs[p].listing[n] != S.Directory
    ensures One(Among(p, todo, t)) == One(Among(p, todo - {n}, t)) + One(t == File(p, n))
  {
    WayDown(c, p, t);
  }

  lemma PassesFile(c: Ctx, s: State, i: nat, n: Name, t: Target)
    requires S.TreeOk(c.fs) && Seen(c, t) && Can(c, s, i, BeginFile(n))
    ensures Passes(c, s, i, BeginFile(n), t)
  {
    var p := s.workers[i].dir;
    LoggedSnoc(s.log, File(p, n), t);
    AmongBegun(c, p, s.workers[i].todo, n, t);
  }

  lemma PassesPop(c: Ctx, s: State, i: nat, t: Target)
    requires Can(c, s, i, PopOk)
    ensures Passes(c, s, i, PopOk, t)
  {
    var n := |s.queue| - 1;
    assert s.queue == s.queue[..n] + [s.queue[n]];
    QueuedSnoc(s.queue[..n], s.queue[n], t);
  }

  lemma PassesIgnore(c: Ctx, s: State, i: nat, t: Target)
    requires S.TreeOk(c.fs) && Seen(c, t) && Can(c, s, i, Ignore)
    ensures Passes(c, s, i, Ignore, t)
  {
    WayDown(c, s.workers[i].dir, t);
  }

  /** The rest of a directory is given up. */
  predicate GivesUp(a: Act) { a == Throw || a == Abandon }

  lemma PassesElse(c: Ctx, s: State, i: nat, a: Act, t: Target)
    requires Can(c, s, i, a) && !GivesUp(a)
    requires !a.PopOk? && !a.Ignore? && !a.Enter? && !a.PushDir? && !a.BeginFile?
    ensures Passes(c, s, i, a, t)
  {
  }

  lemma PassesOn(c: Ctx, s: State, i: nat, a: Act, t: Target)
    requires S.TreeOk(c.fs) && Seen(c, t) && Can(c, s, i, a) && !GivesUp(a)
    ensures Passes(c, s, i, a, t)
  {
    match a {
      case PopOk => PassesPop(c, s, i, t);
      case Ignore => PassesIgnore(c, s, i, t);
      case Enter => PassesEnter(c, s, i, t);
      case PushDir(n) => PassesPush(c, s, i, n, t);
      case BeginFile(n) => PassesFile(c, s, i, n, t);
      case _ => PassesElse(c, s, i, a, t);
    }
  }

  lemma InAllStep(c: Ctx, s: State, i: nat, a: Act, t: Target)
    requires S.TreeOk(c.fs) && Seen(c, t) && Can(c, s, i, a)
    ensures InAll(Do(c, s, i, a), t) <= InAll(s, t)
    ensures !GivesUp(a) ==> InAll(Do(c, s, i, a), t) == InAll(s, t)
  {
    var now := Do(c, s, i, a);
    assert now.workers == s.workers[i := now.workers[i]];
    HeldUpdate(s.workers, i, now.workers[i], t);
    if !GivesUp(a) { PassesOn(c, s, i, a, t); }
  }

  predicate NothingGivenUp(moves: seq<Move>) { forall k :: 0 <= k < |moves| ==> !GivesUp(moves[k].act) }

  lemma {:induction false} InAllRun(c: Ctx, s: State, moves: seq<Move>, last: State, t: Target)
    requires S.TreeOk(c.fs) && Seen(c, t) && Run(c, s, moves, last)
    ensures InAll(last, t) <= InAll(s, t)
    ensures NothingGivenUp(moves) ==> InAll(last, t) == InAll(s, t)
    decreases |moves|
  {
    if moves != [] {
      InAllStep(c, s, moves[0].worker, moves[0].act, t);
      InAllRun(c, Do(c, s, moves[0].worker, moves[0].act), moves[1..], last, t);
      if NothingGivenUp(moves) {
        assert !GivesUp(moves[0].act);
        assert forall k :: 0 <= k < |moves[1..]| ==> moves[1..][k] == moves[k + 1];
      }
    }
  }

  // ---------- and nothing else ----------

  /** A directory that was put into the queue. */
  predicate Rooted(c: Ctx, p: Path) {
    p == [] || (S.Visible(c.fs, c.ignored, p[..|p| - 1]) && S.ListedByParent(c.fs, p))
  }

  predicate PcRight(c: Ctx, pc: Pc) {
    match pc
    case Got(p) => Rooted(c, p)
    case InDir(p, _) => S.Visible(c.fs, c.ignored, p)
    case InFile(p, _, _) => S.Visible(c.fs, c.ignored, p)
    case Skipping(p, _) => S.Visible(c.fs, c.ignored, p)
    case Failing(p, _) => S.Visible(c.fs, c.ignored, p)
    case _ => true
  }

  predicate OnlySeen(c: Ctx, s: State) {
    && (forall p :: p in s.queue ==> Rooted(c, p))
    && (forall i :: 0 <= i < |s.workers| ==> PcRight(c, s.workers[i]))
    && (forall t :: t in s.log ==> Seen(c, t))
  }

  lemma RootedIsVisible(c: Ctx, p: Path)
    requires S.TreeOk(c.fs) && Rooted(c, p) && p !in c.ignored && p in c.fs
    ensures S.Visible(c.fs, c.ignored, p)
  {
    if p == [] {
      assert forall k :: 0 <= k <= |p| ==> p[..k] == [];
    } else {
      var q, n := p[..|p| - 1], p[|p| - 1];
      assert q + [n] == p;
      forall k | 0 <= k <= |p| ensures p[..k] !in c.ignored {
        if k == |p| { assert p[..k] == p; } else { assert p[..k] == q[..k]; }
      }
    }
  }

  lemma ListedIsRooted(c: Ctx, p: Path, n: Name)
    requires S.Visible(c.fs, c.ignored, p) && n in c.fs[p].listing && c.fs[p].listing[n] == S.Directory
    ensures Rooted(c, p + [n])
  {
    assert (p + [n])[..|p + [n]| - 1] == p;
  }

  lemma OnlySeenStep(c: Ctx, s: State, i: nat, a: Act)
    requires S.TreeOk(c.fs) && OnlySeen(c, s) && Can(c, s, i, a)
    ensures OnlySeen(c, Do(c, s, i, a))
  {
    var pc := s.workers[i];
    assert PcRight(c, pc);
    match a {
      case Enter => RootedIsVisible(c, pc.dir);
      case PushDir(n) => ListedIsRooted(c, pc.dir, n);
      case _ =>
    }
  }

  lemma {:induction false} OnlySeenRun(c: Ctx, s: State, moves: seq<Move>, last: State)
    requires S.TreeOk(c.fs) && OnlySeen(c, s) && Run(c, s, moves, last)
    ensures OnlySeen(c, last)
    decreases |moves|
  {
    if moves != [] {
      OnlySeenStep(c, s, moves[0].worker, moves[0].act);
      OnlySeenRun(c, Do(c, s, moves[0].worker, moves[0].act), moves[1..], last);
    }
  }

  lemma {:induction false} LoggedIn(log: seq<Target>, t: Target)
    ensures Logged(log, t) > 0 <==> t in log
  {
    if log != [] { LoggedIn(log[1..], t); }
  }

  lemma OnceAtStart(s: State, t: Target)
    requires Initial(s)
    ensures InAll(s, t) == 1
  {
    HeldNone(s.workers, t);
    assert s.queue[1..] == [];
    assert Queued(s.queue, t) == 1 + Queued(s.queue[1..], t);
  }

  /** For every interleaving of any number of workers: whatever library calls throw, no directory is entered and no
      file begun twice, or without being visible; and at rest, if nothing was given up, each visible one was. */
  lemma EveryTargetOnce(c: Ctx, s: State, moves: seq<Move>, last: State, t: Target)
    requires S.TreeOk(c.fs) && Initial(s) && Run(c, s, moves, last)
    ensures Logged(last.log, t) <= if Seen(c, t) then 1 else 0
    ensures Quiescent(last) && NothingGivenUp(moves) ==> Logged(last.log, t) == if Seen(c, t) then 1 else 0
  {
    OnlySeenRun(c, s, moves, last);
    LoggedIn(last.log, t);
    if Seen(c, t) {
      OnceAtStart(s, t);
      InAllRun(c, s, moves, last, t);
      if Quiescent(last) {
        RestIsEmpty(c, s, moves, last);
        HeldNone(last.workers, t);
      }
    }
  }

  // ---------- failures ----------

  /** The worker has begun this file, and its outcome is open. */
  predicate HasOpen(pc: Pc, t: Target) { pc.InFile? && t == File(pc.dir, pc.name) }

  function Open(ws: seq<Pc>, t: Target): nat {
    if ws == [] then 0 else (if HasOpen(ws[0], t) then 1 else 0) + Open(ws[1..], t)
  }

  lemma {:induction false} OpenUpdate(ws: seq<Pc>, i: nat, now: Pc, t: Target)
    requires i < |ws|
    ensures Open(ws[i := now], t) + (if HasOpen(ws[i], t) then 1 else 0)
            == Open(ws, t) + (if HasOpen(now, t) then 1 else 0)
  {
    if i == 0 {
      assert ws[i := now][1..] == ws[1..];
    } else {
      assert ws[i := now][1..] == ws[1..][i - 1 := now];
      OpenUpdate(ws[1..], i - 1, now, t);
    }
  }

  /** A file is listed as failed at most as often as it was begun. */
  predicate FailedBegun(s: State, t: Target) { Logged(s.failed, t) + Open(s.workers, t) <= Logged(s.log, t) }

  lemma FailedStep(c: Ctx, s: State, i: nat, a: Act, t: Target)
    requires FailedBegun(s, t) && Can(c, s, i, a)
    ensures FailedBegun(Do(c, s, i, a), t)
  {
    var now := Do(c, s, i, a);
    assert now.workers == s.workers[i := now.workers[i]];
    OpenUpdate(s.workers, i, now.workers[i], t);
    match a {
      case Enter => LoggedSnoc(s.log, Dir(s.workers[i].dir), t);
      case BeginFile(n) => LoggedSnoc(s.log, File(s.workers[i].dir, n), t);
      case ListFailed => LoggedSnoc(s.failed, File(s.workers[i].dir, s.workers[i].name), t);
      case _ =>
    }
  }

  lemma {:induction false} FailedRun(c: Ctx, s: State, moves: seq<Move>, last: State, t: Target)
    requires FailedBegun(s, t) && Run(c, s, moves, last)
    ensures FailedBegun(last, t)
    decreases |moves|
  {
    if moves != [] {
      FailedStep(c, s, moves[0].worker, moves[0].act, t);
      FailedRun(c, Do(c, s, moves[0].worker, moves[0].act), moves[1..], last, t);
    }
  }

  lemma {:induction false} OpenNone(ws: seq<Pc>, t: Target)
    requires forall i :: 0 <= i < |ws| ==> ws[i] == Off
    ensures Open(ws, t) == 0
  {
    if ws != [] { OpenNone(ws[1..], t); }
  }

  /** The failed list names visible files only, none twice. */
  lemma FailedOnce(c: Ctx, s: State, moves: seq<Move>, last: State, t: Target)
    requires S.TreeOk(c.fs) && Initial(s) && Run(c, s, moves, last)
    ensures Logged(last.failed, t) <= if Seen(c, t) then 1 else 0
  {
    OpenNone(s.workers, t);
    FailedRun(c, s, moves, last, t);
    EveryTargetOnce(c, s, moves, last, t);
  }

  // ---------- so many files ----------

  function SeenDirs(c: Ctx): set<Target> { set p | p in c.fs && Seen(c, Dir(p)) :: Dir(p) }

  function SeenFiles(c: Ctx): set<Target> {
    set p, n | p in c.fs && n in c.fs[p].listing && Seen(c, File(p, n)) :: File(p, n)
  }

  function Those(log: seq<Target>, dirs: bool): nat {
    if log == [] then 0 else (if log[0].Dir? == dirs then 1 else 0) + Those(log[1..], dirs)
  }

  lemma {:induction false} ThoseSnoc(log: seq<Target>, x: Target, dirs: bool)
    ensures Those(log + [x], dirs) == Those(log, dirs) + if x.Dir? == dirs then 1 else 0
  {
    if log == [] {
      assert log + [x] == [x] && [x][1..] == [];
    } else {
      assert (log + [x])[1..] == log[1..] + [x];
      ThoseSnoc(log[1..], x, dirs);
    }
  }

  function Different(log: seq<Target>, dirs: bool): set<Target> { set t | t in log && t.Dir? == dirs }

  lemma DifferentCons(log: seq<Target>, dirs: bool)
    requires log != []
    ensures Different(log, dirs) == Different(log[1..], dirs) + if log[0].Dir? == dirs then {log[0]} else {}
  {
    assert log == [log[0]] + log[1..];
  }

  /** Without repetitions, so many are so many different ones. */
  lemma {:induction false} ThoseAreDifferent(log: seq<Target>, dirs: bool)
    requires forall t :: Logged(log, t) <= 1
    ensures Those(log, dirs) == |Different(log, dirs)|
  {
    if log == [] {
      assert Different(log, dirs) == {};
    } else {
      forall t ensures Logged(log[1..], t) <= 1 { assert Logged(log, t) <= 1; }
      ThoseAreDifferent(log[1..], dirs);
      assert Logged(log, log[0]) <= 1;
      LoggedIn(log[1..], log[0]);
      DifferentCons(log, dirs);
    }
  }

  lemma {:induction false} CountersRun(c: Ctx, s: State, moves: seq<Move>, last: State)
    requires Run(c, s, moves, last) && s.dirs == Those(s.log, true) && s.total == Those(s.log, false)
    ensures last.dirs == Those(last.log, true) && last.total == Those(last.log, false)
    decreases |moves|
  {
    if moves != [] {
      var i, a := moves[0].worker, moves[0].act;
      var t := Do(c, s, i, a);
      if a.Enter? || a.BeginFile? {
        ThoseSnoc(s.log, t.log[|s.log|], true);
        ThoseSnoc(s.log, t.log[|s.log|], false);
      }
      CountersRun(c, t, moves[1..], last);
    }
  }

  /** At rest, if nothing was given up: the directories and files counted are exactly the visible ones, and every file
      is a success or a failure. */
  lemma RecursiveSyncCovers(c: Ctx, s: State, moves: seq<Move>, last: State)
    requires S.TreeOk(c.fs) && Initial(s) && Run(c, s, moves, last) && Quiescent(last) && NothingGivenUp(moves)
    ensures last.dirs == |SeenDirs(c)| && last.total == |SeenFiles(c)|
    ensures last.success + last.fail == |SeenFiles(c)|
  {
    CountersRun(c, s, moves, last);
    forall t ensures Logged(last.log, t) == if Seen(c, t) then 1 else 0 { EveryTargetOnce(c, s, moves, last, t); }
    forall t ensures t in last.log <==> Seen(c, t) { LoggedIn(last.log, t); }
    ThoseAreDifferent(last.log, true);
    ThoseAreDifferent(last.log, false);
    assert SeenDirs(c) == Different(last.log, true);
    assert SeenFiles(c) == Different(last.log, false);
    RecursiveSyncAccounts(c, s, moves, last);
    NoThrows(moves);
  }

  lemma {:induction false} NoThrows(moves: seq<Move>)
    requires NothingGivenUp(moves)
    ensures Times(moves, Throw) == 0
  {
    if moves != [] {
      assert !GivesUp(moves[0].act);
      assert forall k :: 0 <= k < |moves[1..]| ==> moves[1..][k] == moves[k + 1];
      NoThrows(moves[1..]);
    }
  }
}
