/** Directories and their subdirectories in a queue; shared by the runs of the scan and of the recursive sync. */
module Subtrees {
  import opened Scan

  predicate ChildrenOf(p: Path, kids: seq<Path>) { forall k :: k in kids ==> |k| == |p| + 1 }

  lemma ChildrenConcat(queue: seq<Path>, p: Path, a: seq<Path>, b: seq<Path>)
    requires ChildrenOf(p, a) && ChildrenOf(p, b)
    ensures queue + a + b == queue + (a + b) && ChildrenOf(p, a + b)
  {
  }

  lemma ChildrenNone(queue: seq<Path>, p: Path)
    ensures queue + [] == queue && ChildrenOf(p, [])
  {
  }

  /** These directories are at most so many levels above the deepest. */
  predicate Within(ps: seq<Path>, depth: nat, levels: nat) { forall p :: p in ps ==> depth < |p| + levels }

  lemma AllWithin(ps: seq<Path>, depth: nat)
    ensures Within(ps, depth, depth + 1)
  {
  }

  /** A finite tree has a depth. */
  lemma {:induction false} DepthOf(paths: set<Path>) returns (depth: nat)
    ensures forall p :: p in paths ==> |p| <= depth
    decreases |paths|
  {
    if paths == {} {
      depth := 0;
    } else {
      var p :| p in paths;
      depth := DepthOf(paths - {p});
      if depth < |p| { depth := |p|; }
    }
  }
}
