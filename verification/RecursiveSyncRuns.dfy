/** Runs of the recursive sync: one that comes to its end, for every tree, and one that loses count. */
module RecursiveSyncRuns {
  import S = Scan
  import opened RecursiveSync
  import opened Subtrees

  // ---------- a sync that comes to its end ----------

  /** By a run in which nothing is given up. */
  ghost predicate Reaches(c: Ctx, s: State, last: State) {
    exists moves: seq<Move> :: Run(c, s, moves, last) && NothingGivenUp(moves)
  }

  lemma {:induction false} RunSnoc(c: Ctx, s: State, moves: seq<Move>, mid: State, m: Move)
    requires Run(c, s, moves, mid) && Can(c, mid, m.worker, m.act)
    ensures Run(c, s, moves + [m], Do(c, mid, m.worker, m.act))
    decreases |moves|
  {
    if moves == [] {
      assert (moves + [m])[1..] == [];
    } else {
      assert (moves + [m])[1..] == moves[1..] + [m];
      RunSnoc(c, Do(c, s, moves[0].worker, moves[0].act), moves[1..], mid, m);
    }
  }

  /** Worker 0 takes a step. */
  lemma Go(c: Ctx, s: State, mid: State, a: Act) returns (last: State)
    requires Reaches(c, s, mid) && Can(c, mid, 0, a) && !GivesUp(a)
    ensures last == Do(c, mid, 0, a) && Reaches(c, s, last)
  {
    last := Do(c, mid, 0, a);
    var moves: seq<Move> :| Run(c, s, moves, mid) && NothingGivenUp(moves);
    RunSnoc(c, s, moves, mid, Move(0, a));
    assert NothingGivenUp(moves + [Move(0, a)]);
  }

  /** Worker 0 is at this place, and nobody else is running. */
  predicate Alone(s: State, pc: Pc) {
    s.launched && |s.workers| > 0 && s.workers[0] == pc && forall i :: 1 <= i < |s.workers| ==> s.workers[i] == Off
  }

  /** One entry is dealt with: pushed, or begun and synced. */
  lemma EntryDone(c: Ctx, s: State, b: State, p: Path, todo: set<Name>, n: Name) returns (d: State, kids: seq<Path>)
    requires Reaches(c, s, b) && Alone(b, InDir(p, todo)) && p in c.fs && n in todo && n in c.fs[p].listing
    ensures Reaches(c, s, d) && Alone(d, InDir(p, todo - {n})) && d.queue == b.queue + kids && ChildrenOf(p, kids)
  {
    if c.fs[p].listing[n] == S.Directory {
      d := Go(c, s, b, PushDir(n));
      kids := [p + [n]];
    } else {
      d := Go(c, s, b, BeginFile(n));
      d := Go(c, s, d, Sync);
      kids := [];
      ChildrenNone(b.queue, p);
    }
  }

  /** The worker goes through the rest of a directory. */
  lemma {:induction false} ListsAll(c: Ctx, s: State, b: State, p: Path, todo: set<Name>)
    returns (d: State, kids: seq<Path>)
    requires Reaches(c, s, b) && Alone(b, InDir(p, todo)) && p in c.fs && todo <= c.fs[p].listing.Keys
    ensures Reaches(c, s, d) && Alone(d, Look(0)) && d.queue == b.queue + kids && ChildrenOf(p, kids)
    decreases |todo|
  {
    if todo == {} {
      d := Go(c, s, b, EndDir);
      kids := [];
      ChildrenNone(b.queue, p);
    } else {
      var n :| n in todo;
      var first, more;
      d, first := EntryDone(c, s, b, p, todo, n);
      d, more := ListsAll(c, s, d, p, todo - {n});
      ChildrenConcat(b.queue, p, first, more);
      kids := first + more;
    }
  }

  /** It takes the last directory of the queue and puts its subdirectories there. */
  lemma TakesTop(c: Ctx, s: State, b: State, front: seq<Path>, p: Path) returns (d: State, kids: seq<Path>)
    requires Reaches(c, s, b) && Alone(b, Look(0)) && b.queue == front + [p]
    ensures Reaches(c, s, d) && Alone(d, Look(0)) && d.queue == front + kids && ChildrenOf(p, kids)
    ensures p !in c.fs ==> kids == []
  {
    d := Go(c, s, b, PopOk);
    assert d.queue == front;
    if p in c.ignored || p !in c.fs {
      d := Go(c, s, d, Ignore);
      kids := [];
    } else {
      d := Go(c, s, d, Enter);
      d, kids := ListsAll(c, s, d, p, c.fs[p].listing.Keys);
    }
  }

  /** It works off what is behind the front of the queue: a directory's subdirectories first, then the ones before. */
  lemma {:induction false} WorksOff(c: Ctx, s: State, b: State, front: seq<Path>, rest: seq<Path>,
                                    depth: nat, levels: nat) returns (d: State)
    requires forall p :: p in c.fs ==> |p| <= depth
    requires Reaches(c, s, b) && Alone(b, Look(0)) && b.queue == front + rest && Within(rest, depth, levels)
    ensures Reaches(c, s, d) && Alone(d, Look(0)) && d.queue == front
    decreases levels, |rest|
  {
    if rest == [] {
      d := b;
    } else {
      var n := |rest| - 1;
      var p, kids := rest[n], [];
      assert front + rest == front + rest[..n] + [p];
      d, kids := TakesTop(c, s, b, front + rest[..n], p);
      if kids != [] {
        assert p in rest && kids[0] in kids;
        d := WorksOff(c, s, d, front + rest[..n], kids, depth, levels - 1);
      }
      d := WorksOff(c, s, d, front, rest[..n], depth, levels);
    }
  }

  /** A worker that finds nothing more leaves. */
  lemma Leaves(c: Ctx, s: State, b: State) returns (d: State)
    requires Reaches(c, s, b) && Alone(b, Look(0)) && b.queue == []
    ensures Reaches(c, s, d) && Alone(d, Off) && d == b.(workers := d.workers)
  {
    d := Go(c, s, b, PopEmpty);
    d := Go(c, s, d, PopEmpty);
    d := Go(c, s, d, PopEmpty);
    d := Go(c, s, d, Exit);
  }

  lemma ReachesItself(c: Ctx, s: State)
    ensures Reaches(c, s, s)
  {
    assert Run(c, s, [], s) && NothingGivenUp([]);
  }

  lemma WorksOffAll(c: Ctx, s: State, b: State) returns (d: State)
    requires Reaches(c, s, b) && Alone(b, Look(0))
    ensures Reaches(c, s, d) && Alone(d, Look(0)) && d.queue == []
  {
    var depth := DepthOf(c.fs.Keys);
    AllWithin(b.queue, depth);
    assert [] + b.queue == b.queue;
    d := WorksOff(c, s, b, [], b.queue, depth, depth + 1);
  }

  lemma Launched(c: Ctx, s: State) returns (d: State)
    requires Initial(s) && |s.workers| > 0
    ensures Reaches(c, s, d) && Alone(d, Look(0)) && d == s.(workers := d.workers, launched := true)
  {
    ReachesItself(c, s);
    d := Go(c, s, s, Launch);
  }

  /** Every tree can be synced to the end: there is a run that comes to rest with nothing given up. */
  lemma SyncCanFinish(c: Ctx, s: State) returns (last: State)
    requires Initial(s) && |s.workers| > 0
    ensures Reaches(c, s, last) && Quiescent(last)
  {
    var d := Launched(c, s);
    d := WorksOffAll(c, s, d);
    last := Leaves(c, s, d);
  }

  // ---------- a sync that loses count ----------

  /** One directory with one file. */
  function OneFile(): Ctx { Ctx(map[[] := S.Node(true, 0, map["f" := S.Regular])], {}) }

  lemma {:induction false} RunConcat(c: Ctx, s: State, a: seq<Move>, mid: State, b: seq<Move>, last: State)
    requires Run(c, s, a, mid) && Run(c, mid, b, last)
    ensures Run(c, s, a + b, last)
    decreases |a|
  {
    if a == [] {
      assert a + b == b;
    } else {
      assert (a + b)[1..] == a[1..] + b;
      RunConcat(c, Do(c, s, a[0].worker, a[0].act), a[1..], mid, b, last);
    }
  }

  lemma OneFileBegun(s: State) returns (d: State)
    requires Initial(s) && |s.workers| > 0
    ensures Reaches(OneFile(), s, d) && Alone(d, InFile([], {}, "f"))
    ensures d.total == 1 && d.success == 0 && d.fail == 0 && d.queue == []
  {
    var c := OneFile();
    d := Launched(c, s);
    d := Go(c, s, d, PopOk);
    d := Go(c, s, d, Enter);
    assert c.fs[[]].listing.Keys == {"f"} && {"f"} - {"f"} == {};
    d := Go(c, s, d, BeginFile("f"));
  }

  lemma OneFileOk()
    ensures S.TreeOk(OneFile().fs)
  {
  }

  lemma Reached(c: Ctx, s: State, b: State, a: Act, last: State) returns (moves: seq<Move>)
    requires Reaches(c, s, b) && Can(c, b, 0, a) && Reaches(c, Do(c, b, 0, a), last)
    ensures Run(c, s, moves, last)
  {
    var first: seq<Move> :| Run(c, s, first, b) && NothingGivenUp(first);
    var more: seq<Move> :| Run(c, Do(c, b, 0, a), more, last) && NothingGivenUp(more);
    RunSnoc(c, s, first, b, Move(0, a));
    RunConcat(c, s, first + [Move(0, a)], Do(c, b, 0, a), more, last);
    moves := first + [Move(0, a)] + more;
  }

  lemma ThrownAndLeft(c: Ctx, s: State, b: State) returns (moves: seq<Move>, last: State)
    requires Reaches(c, s, b) && |b.workers| > 0 && b.workers[0].InFile? && Alone(b, b.workers[0]) && b.queue == []
    ensures Run(c, s, moves, last) && Quiescent(last)
    ensures last.total == b.total && last.success == b.success && last.fail == b.fail
  {
    var thrown := Do(c, b, 0, Throw);
    ReachesItself(c, thrown);
    last := Leaves(c, thrown, thrown);
    moves := Reached(c, s, b, Throw, last);
  }

  /** A library call throws on the only file: at rest it is counted in the total and nowhere else. */
  lemma ThrowIsUncounted(s: State) returns (moves: seq<Move>, last: State)
    requires Initial(s) && |s.workers| > 0
    ensures S.TreeOk(OneFile().fs) && Run(OneFile(), s, moves, last) && Quiescent(last)
    ensures last.total == 1 && last.success == 0 && last.fail == 0
  {
    OneFileOk();
    var d := OneFileBegun(s);
    moves, last := ThrownAndLeft(OneFile(), s, d);
  }
}
