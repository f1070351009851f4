/** Runs of a scan: which directories are listed, and that every tree can be scanned to the end. */
module ScanRuns {
  import opened Scan
  import opened ScanProof
  import opened ScanTheorems
  import opened Subtrees

  // ---------- which directories are listed ----------

  /** The step is a worker beginning to list directory p. */
  predicate ListsNow(s: State, m: Move, p: Path) {
    m.act == Reset && m.worker < |s.workers| && s.workers[m.worker] == Add(p)
  }

  predicate ListedIn(c: Ctx, s: State, moves: seq<Move>, p: Path)
    decreases |moves|
  {
    && moves != [] && Can(c, s, moves[0].worker, moves[0].act)
    && (ListsNow(s, moves[0], p) || ListedIn(c, Do(c, s, moves[0].worker, moves[0].act), moves[1..], p))
  }

  /** The cached record may be kept: same hash method, same modification time. */
  predicate UpToDate(c: Ctx, p: Path) {
    c.sameHash && p in c.cache && p in c.fs && c.cache[p].mtime == c.fs[p].mtime
  }

  predicate AtRecord(pc: Pc, p: Path) { (pc.List? || pc.Pruning? || pc.Stamping?) && pc.dir == p }

  /** The record of p, or its absence, is that of the cache, and nobody is at it. */
  predicate Untouched(c: Ctx, s: State, p: Path) {
    && (p in s.scanned <==> p in c.cache) && (p in c.cache ==> s.scanned[p] == c.cache[p])
    && forall i :: 0 <= i < |s.workers| ==> !AtRecord(s.workers[i], p)
  }

  lemma UntouchedStep(c: Ctx, s: State, i: nat, a: Act, p: Path)
    requires p in c.fs && Untouched(c, s, p) && Can(c, s, i, a) && !ListsNow(s, Move(i, a), p)
    ensures Untouched(c, Do(c, s, i, a), p)
  {
    assert !AtRecord(s.workers[i], p);
  }

  /** Nobody is about to list p. */
  predicate NobodyAdds(s: State, p: Path) { forall i :: 0 <= i < |s.workers| ==> s.workers[i] != Add(p) }

  lemma {:induction false} UpToDateIsSkipped(c: Ctx, s: State, moves: seq<Move>, last: State, p: Path)
    requires UpToDate(c, p) && Untouched(c, s, p) && NobodyAdds(s, p) && Run(c, s, moves, last)
    ensures !ListedIn(c, s, moves, p)
    decreases |moves|
  {
    if moves != [] {
      var i, a := moves[0].worker, moves[0].act;
      assert s.workers[i] != Add(p);
      UntouchedStep(c, s, i, a, p);
      UpToDateIsSkipped(c, Do(c, s, i, a), moves[1..], last, p);
    }
  }

  /** The queue or a worker has p, to be listed. */
  predicate Ahead(s: State, p: Path) {
    p in s.queue || exists i :: 0 <= i < |s.workers| && (s.workers[i] == Got(p) || s.workers[i] == Add(p))
  }

  lemma AheadStep(c: Ctx, s: State, i: nat, a: Act, p: Path)
    requires p in c.fs && p !in c.ignored && !UpToDate(c, p) && Untouched(c, s, p) && Ahead(s, p)
    requires Can(c, s, i, a) && !ListsNow(s, Move(i, a), p)
    ensures Ahead(Do(c, s, i, a), p)
  {
    var t := Do(c, s, i, a);
    if p in s.queue {
      if a == PopOk {
        var n := |s.queue| - 1;
        assert s.queue == s.queue[..n] + [s.queue[n]];
        if p == s.queue[n] { assert t.workers[i] == Got(p); }
      }
    } else {
      var j :| 0 <= j < |s.workers| && (s.workers[j] == Got(p) || s.workers[j] == Add(p));
      if i == j && a == Check {
        assert !Skips(c, s.scanned, p);
        assert t.workers[j] == Add(p);
      } else {
        assert i != j;
        assert t.workers[j] == s.workers[j];
      }
    }
  }

  /** As long as p is not listed its record is that of the cache, and what is to be listed is still to come. */
  lemma {:induction false} NotYetListed(c: Ctx, s: State, moves: seq<Move>, last: State, p: Path)
    requires p in c.fs && p !in c.ignored && Untouched(c, s, p) && Run(c, s, moves, last) && !ListedIn(c, s, moves, p)
    ensures Untouched(c, last, p)
    ensures !UpToDate(c, p) && Ahead(s, p) ==> Ahead(last, p)
    decreases |moves|
  {
    if moves != [] {
      var i, a := moves[0].worker, moves[0].act;
      UntouchedStep(c, s, i, a, p);
      if !UpToDate(c, p) && Ahead(s, p) { AheadStep(c, s, i, a, p); }
      NotYetListed(c, Do(c, s, i, a), moves[1..], last, p);
    }
  }

  lemma NothingAhead(s: State, p: Path)
    requires AtRest(s)
    ensures !Ahead(s, p)
  {
  }

  /** In a finished scan a visible directory was listed if and only if its cached record could not be kept: that is
      what the cache saves, and all it saves. */
  lemma ListedExactly(c: Ctx, s: State, moves: seq<Move>, last: State, p: Path)
    requires Setting(c) && Initial(c, s) && Run(c, s, moves, last) && Quiescent(last)
    requires Visible(c.fs, c.ignored, p)
    ensures ListedIn(c, s, moves, p) <==> !UpToDate(c, p)
  {
    assert p[..|p|] == p;
    ScanCompletes(c, s, moves, last);
    assert p in last.scanned;
    ScanQuiescence(c, s, moves, last);
    NothingAhead(last, p);
    if UpToDate(c, p) {
      UpToDateIsSkipped(c, s, moves, last, p);
    } else if !ListedIn(c, s, moves, p) {
      NotYetListed(c, s, moves, last, p);
    }
  }

  // ---------- a scan that comes to its end ----------

  ghost predicate Reaches(c: Ctx, s: State, last: State) { exists moves: seq<Move> :: Run(c, s, moves, last) }

  lemma {:induction false} RunSnoc(c: Ctx, s: State, moves: seq<Move>, mid: State, m: Move)
    requires Run(c, s, moves, mid) && Can(c, mid, m.worker, m.act)
    ensures Run(c, s, moves + [m], Do(c, mid, m.worker, m.act))
    decreases |moves|
  {
    if moves == [] {
      assert (moves + [m])[1..] == [];
    } else {
      assert (moves + [m])[1..] == moves[1..] + [m];
      RunSnoc(c, Do(c, s, moves[0].worker, moves[0].act), moves[1..], mid, m);
    }
  }

  /** Worker 0 takes a step. */
  lemma Go(c: Ctx, s: State, mid: State, a: Act) returns (last: State)
    requires Reaches(c, s, mid) && Can(c, mid, 0, a)
    ensures last == Do(c, mid, 0, a) && Reaches(c, s, last)
  {
    last := Do(c, mid, 0, a);
    var moves: seq<Move> :| Run(c, s, moves, mid);
    RunSnoc(c, s, moves, mid, Move(0, a));
  }

  /** Worker 0 is at this place, and nobody else is running. */
  predicate Alone(s: State, pc: Pc) {
    s.launched && |s.workers| > 0 && s.workers[0] == pc && forall i :: 1 <= i < |s.workers| ==> s.workers[i] == Off
  }

  /** One entry is recorded or pushed. */
  lemma EntryDone(c: Ctx, s: State, b: State, p: Path, todo: set<Name>, n: Name) returns (d: State, kids: seq<Path>)
    requires Reaches(c, s, b) && Alone(b, List(p, todo)) && p in c.fs && n in todo && n in c.fs[p].listing
    ensures Reaches(c, s, d) && Alone(d, List(p, todo - {n})) && d.queue == b.queue + kids && ChildrenOf(p, kids)
  {
    d := Go(c, s, b, Visit(n));
    kids := if c.fs[p].listing[n] == Directory then [p + [n]] else [];
    ChildrenNone(b.queue, p);
  }

  /** The worker goes through the rest of a listing. */
  lemma {:induction false} ListsAll(c: Ctx, s: State, b: State, p: Path, todo: set<Name>)
    returns (d: State, kids: seq<Path>)
    requires Reaches(c, s, b) && Alone(b, List(p, todo)) && p in c.fs && todo <= c.fs[p].listing.Keys
    ensures Reaches(c, s, d) && Alone(d, List(p, {})) && d.queue == b.queue + kids && ChildrenOf(p, kids)
    decreases |todo|
  {
    if todo == {} {
      d, kids := b, [];
      ChildrenNone(b.queue, p);
    } else {
      var n :| n in todo;
      var first, more;
      d, first := EntryDone(c, s, b, p, todo, n);
      d, more := ListsAll(c, s, d, p, todo - {n});
      ChildrenConcat(b.queue, p, first, more);
      kids := first + more;
    }
  }

  /** It lists a directory from beginning to end. */
  lemma ListsDir(c: Ctx, s: State, b: State, p: Path) returns (d: State, kids: seq<Path>)
    requires Reaches(c, s, b) && Alone(b, Add(p)) && p in c.fs
    ensures Reaches(c, s, d) && Alone(d, Look(0)) && d.queue == b.queue + kids && ChildrenOf(p, kids)
  {
    d := Go(c, s, b, Reset);
    d, kids := ListsAll(c, s, d, p, c.fs[p].listing.Keys);
    d := Go(c, s, d, EndList);
    d := Go(c, s, d, Prune);
    d := Go(c, s, d, Restamp);
  }

  /** It takes the last directory of the queue and puts its subdirectories there, if it has to be listed. */
  lemma TakesTop(c: Ctx, s: State, b: State, front: seq<Path>, p: Path) returns (d: State, kids: seq<Path>)
    requires Reaches(c, s, b) && Alone(b, Look(0)) && b.queue == front + [p]
    ensures Reaches(c, s, d) && Alone(d, Look(0)) && d.queue == front + kids && ChildrenOf(p, kids)
    ensures p !in c.fs ==> kids == []
  {
    d := Go(c, s, b, PopOk);
    assert d.queue == front;
    d := Go(c, s, d, Check);
    kids := [];
    ChildrenNone(front, p);
    if d.workers[0].Add? { d, kids := ListsDir(c, s, d, p); }
  }

  /** It works off what is behind the front of the queue: a directory's subdirectories first, then the ones before. */
  lemma {:induction false} WorksOff(c: Ctx, s: State, b: State, front: seq<Path>, rest: seq<Path>,
                                    depth: nat, levels: nat) returns (d: State)
    requires forall p :: p in c.fs ==> |p| <= depth
    requires Reaches(c, s, b) && Alone(b, Look(0)) && b.queue == front + rest && Within(rest, depth, levels)
    ensures Reaches(c, s, d) && Alone(d, Look(0)) && d.queue == front
    decreases levels, |rest|
  {
    if rest == [] {
      d := b;
    } else {
      var n := |rest| - 1;
      var p, kids := rest[n], [];
      assert front + rest == front + rest[..n] + [p];
      d, kids := TakesTop(c, s, b, front + rest[..n], p);
      if kids != [] {
        assert p in rest && kids[0] in kids;
        d := WorksOff(c, s, d, front + rest[..n], kids, depth, levels - 1);
      }
      d := WorksOff(c, s, d, front, rest[..n], depth, levels);
    }
  }

  lemma WorksOffAll(c: Ctx, s: State, b: State) returns (d: State)
    requires Reaches(c, s, b) && Alone(b, Look(0))
    ensures Reaches(c, s, d) && Alone(d, Look(0)) && d.queue == []
  {
    var depth := DepthOf(c.fs.Keys);
    AllWithin(b.queue, depth);
    assert [] + b.queue == b.queue;
    d := WorksOff(c, s, b, [], b.queue, depth, depth + 1);
  }

  lemma Launched(c: Ctx, s: State) returns (d: State)
    requires Initial(c, s) && |s.workers| > 0
    ensures Reaches(c, s, d) && Alone(d, Look(0)) && d.queue == s.queue
  {
    assert Run(c, s, [], s);
    d := Go(c, s, s, Launch);
  }

  /** A worker that finds nothing more leaves, after three tries. */
  lemma Leaves(c: Ctx, s: State, b: State) returns (d: State)
    requires Reaches(c, s, b) && Alone(b, Look(0)) && b.queue == []
    ensures Reaches(c, s, d) && Alone(d, Off) && d == b.(workers := d.workers)
  {
    d := Go(c, s, b, PopEmpty);
    d := Go(c, s, d, PopEmpty);
    d := Go(c, s, d, PopEmpty);
    d := Go(c, s, d, Exit);
  }

  /** Every tree can be scanned to the end, from any cache: there is a run after which running_mark is zero again. */
  lemma ScanCanFinish(c: Ctx, s: State) returns (last: State)
    requires Initial(c, s) && |s.workers| > 0
    ensures Reaches(c, s, last) && Quiescent(last)
  {
    var d := Launched(c, s);
    d := WorksOffAll(c, s, d);
    last := Leaves(c, s, d);
  }
}
