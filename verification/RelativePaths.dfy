/** FindCommonRoot and Relative of src/util/util.cc, and when `base/Relative(path, base)`
    leads back to `path`. */
module RelativePaths {
  import opened Options
  import opened Paths

  // ---------- std::filesystem::path::parent_path ----------

  function StripSlashes(s: string): (r: string)
    ensures |r| <= |s| && r == s[..|r|]
    ensures r != "" ==> r[|r| - 1] != '/'
  {
    if s != "" && s[|s| - 1] == '/' then StripSlashes(s[..|s| - 1]) else s
  }

  /** Length of the text up to, not including, the last separator; -1 without one. */
  function LastSlash(s: string): (i: int)
    ensures -1 <= i < |s|
    ensures i >= 0 ==> s[i] == '/'
    ensures forall k :: i < k < |s| ==> s[k] != '/'
  {
    if s == "" then -1
    else if s[|s| - 1] == '/' then |s| - 1
    else LastSlash(s[..|s| - 1])
  }

  /** ISO C++17 [fs.path.decompose]: the path without its last element; the root is its own
      parent, and "" stands for "has no parent path". */
  function Parent(t: string): (p: string)
    ensures p != "" && t != "/" ==> |p| < |t|
  {
    if LastSlash(t) < 0 then ""
    else
      var head := StripSlashes(t[..LastSlash(t)]);
      if head == "" then "/" else head
  }

  // ---------- FindCommonRoot ----------

  /** The first ancestor-or-self of t that is a string prefix of path; "" when none is. */
  function CommonRoot(path: string, t: string): (c: string)
    ensures c <= path
    decreases |t|
  {
    if t <= path then t
    else if t == "/" || Parent(t) == "" then ""
    else CommonRoot(path, Parent(t))
  }

  /** How many parent steps lead from t to that ancestor. */
  function Depth(path: string, t: string): nat
    decreases |t|
  {
    if t <= path || t == "/" || Parent(t) == "" then 0 else 1 + Depth(path, Parent(t))
  }

  method FindCommonRoot(path: string, base: string) returns (c: string)
    ensures c == CommonRoot(path, base)
  {
    var t := base;
    while true
      invariant CommonRoot(path, t) == CommonRoot(path, base)
      decreases |t|
    {
      if t <= path { return t; }
      if t == "/" {
        return "";
      } else if Parent(t) != "" {
        t := Parent(t);
      } else {
        return "";
      }
    }
  }

  // ---------- Relative ----------

  function Dots(n: nat): string { if n == 0 then "" else Dots(n - 1) + "../" }

  function Rest(path: string, c: string): string
    requires c <= path
  {
    if |path| > |c| then path[|c| + 1..] else ""
  }

  function RelativeOf(path: string, base: string): Option<string> {
    var p, b := UnifyDir(path), UnifyDir(base);
    var c := CommonRoot(p, b);
    if c == "" then None else Some(UnifyDir(Dots(Depth(p, b)) + Rest(p, c)))
  }

  method Relative(path: string, base: string) returns (ok: bool, relative: string)
    ensures ok <==> RelativeOf(path, base).Some?
    ensures relative == if ok then RelativeOf(path, base).value else ""
  {
    relative := "";
    var p, b := UnifyDir(path), UnifyDir(base);
    var common := FindCommonRoot(p, b);
    if common == "" { return false, relative; }
    var t := b;
    ghost var n := 0;
    while common != t
      invariant CommonRoot(p, t) == common
      invariant n + Depth(p, t) == Depth(p, b) && relative == Dots(n)
      decreases |t|
    {
      relative := relative + "../";
      t := Parent(t);
      n := n + 1;
    }
    assert n == Depth(p, b);
    if |p| > |common| {
      relative := relative + p[|common| + 1..];
    } else {
      assert Dots(n) + "" == Dots(n);
    }
    relative := UnifyDir(relative);
    ok := true;
  }

  // ---------- on clean absolute paths ----------

  lemma {:induction false} LastSlashOf(a: string, c: string)
    requires '/' !in c
    ensures LastSlash(a + "/" + c) == |a|
    decreases |c|
  {
    var s := a + "/" + c;
    if c != "" {
      assert s[..|s| - 1] == a + "/" + c[..|c| - 1];
      LastSlashOf(a, c[..|c| - 1]);
    }
  }

  lemma ParentOfChild(a: string, c: string)
    requires '/' !in c && (a == "" || a[|a| - 1] != '/')
    ensures Parent(a + "/" + c) == if a == "" then "/" else a
  {
    var t := a + "/" + c;
    LastSlashOf(a, c);
    assert t[..|a|] == a;
    assert StripSlashes(a) == a;
  }

  lemma AbsSnoc(head: seq<string>, c: string)
    ensures Abs(head + [c]) == (if head == [] then "" else Abs(head)) + "/" + c
  {
    JoinSnoc(head, c);
    var j := Join(head);
    assert head != [] ==> "/" + (j + "/" + c) == ("/" + j) + "/" + c;
  }

  lemma AbsEnd(cs: seq<string>)
    requires AllPlain(cs) && cs != []
    ensures Abs(cs)[|Abs(cs)| - 1] != '/'
  {
    JoinTidy(cs);
  }

  lemma ParentOfAbs(cs: seq<string>)
    requires AllPlain(cs) && cs != []
    ensures Parent(Abs(cs)) == Abs(cs[..|cs| - 1])
  {
    var n := |cs| - 1;
    var head, c := cs[..n], cs[n];
    assert Plain(c);
    var a := if head == [] then "" else Abs(head);
    assert Abs(cs) == a + "/" + c by {
      assert cs == head + [c];
      AbsSnoc(head, c);
    }
    if head != [] { AbsEnd(head); }
    ParentOfChild(a, c);
  }

  lemma AbsPrefix(a: seq<string>, b: seq<string>)
    requires a != [] && b != []
    ensures Abs(a + b) == Abs(a) + "/" + Join(b)
  {
    JoinConcat(a, b);
  }

  /** The lowest j components of the base are its longest ancestor that is a textual prefix of the path. */
  ghost predicate Lowest(ps: seq<string>, bs: seq<string>, j: nat) {
    j <= |bs| && Abs(bs[..j]) <= Abs(ps) && forall i :: j < i <= |bs| ==> !(Abs(bs[..i]) <= Abs(ps))
  }

  lemma LowestBelow(ps: seq<string>, bs: seq<string>, j: nat)
    requires bs != [] && !(Abs(bs) <= Abs(ps)) && Lowest(ps, bs[..|bs| - 1], j)
    ensures Lowest(ps, bs, j)
  {
    var up := bs[..|bs| - 1];
    assert up[..j] == bs[..j] && bs[..|bs|] == bs;
    forall i | j < i <= |bs| ensures !(Abs(bs[..i]) <= Abs(ps)) {
      if i < |bs| { assert up[..i] == bs[..i]; }
    }
  }

  /** Climbing from a clean base stops at the first of its ancestors that is a textual prefix of the path. */
  lemma {:induction false} CommonRootOfAbs(ps: seq<string>, bs: seq<string>) returns (j: nat)
    requires AllPlain(ps) && AllPlain(bs)
    ensures j <= |bs| && CommonRoot(Abs(ps), Abs(bs)) == Abs(bs[..j]) && Lowest(ps, bs, j)
    ensures Depth(Abs(ps), Abs(bs)) == |bs| - j
    decreases |bs|
  {
    if bs == [] || Abs(bs) <= Abs(ps) {
      j := |bs|;
      assert bs[..j] == bs;
    } else {
      var n := |bs| - 1;
      ParentOfAbs(bs);
      JoinTidy(bs);
      j := CommonRootOfAbs(ps, bs[..n]);
      assert bs[..n][..j] == bs[..j];
      LowestBelow(ps, bs, j);
    }
  }

  function Ups(n: nat): seq<string> { if n == 0 then [] else Ups(n - 1) + [".."] }

  lemma {:induction false} CompsDots(n: nat, s: string)
    ensures Comps(Dots(n) + s) == Ups(n) + Comps(s)
  {
    if n == 0 {
      assert Dots(0) + s == s && Ups(0) + Comps(s) == Comps(s);
    } else {
      assert Dots(n) + s == Dots(n - 1) + (".." + "/" + s);
      CompsDots(n - 1, ".." + "/" + s);
      CompsJoin("..", s);
      CompsName("..");
      assert Ups(n - 1) + ([".."] + Comps(s)) == Ups(n) + Comps(s);
    }
  }

  lemma {:induction false} ReduceUps(st: seq<string>, n: nat)
    requires n <= |st|
    ensures Reduce(st, Ups(n)) == Some(st[..|st| - n])
  {
    if n > 0 {
      ReduceUps(st, n - 1);
      ReduceConcat(st, Ups(n - 1), [".."]);
      assert st[..|st| - (n - 1)][..|st| - n] == st[..|st| - n];
    } else {
      assert st[..|st|] == st;
    }
  }

  lemma ReduceClimb(bs: seq<string>, n: nat, toks: seq<string>)
    requires AllPlain(bs) && n <= |bs|
    ensures Reduce([], bs + (Ups(n) + toks)) == Reduce(bs[..|bs| - n], toks)
  {
    assert Reduce([], bs + (Ups(n) + toks)) == Reduce(bs, Ups(n) + toks) by {
      ReduceConcat([], bs, Ups(n) + toks);
      ReducePlain([], bs);
      assert [] + bs == bs;
    }
    ReduceConcat(bs, Ups(n), toks);
    ReduceUps(bs, n);
  }

  lemma AbsTidy(cs: seq<string>)
    requires AllPlain(cs)
    ensures UnifyDir(Abs(cs)) == Abs(cs) && Comps(Abs(cs)) == cs
  {
    RenderTidy(true, cs);
    UnifyTidy(Abs(cs));
    CompsOfRender(true, cs);
  }

  lemma CompsJoinBack(b: string, n: nat, rest: string)
    ensures Comps(b + "/" + UnifyDir(Dots(n) + rest)) == Comps(b) + (Ups(n) + Comps(rest))
  {
    CompsUnify(Dots(n) + rest);
    CompsDots(n, rest);
    CompsJoin(b, UnifyDir(Dots(n) + rest));
  }

  lemma RelativeOfTidy(p: string, b: string)
    requires UnifyDir(p) == p && UnifyDir(b) == b && CommonRoot(p, b) != ""
    ensures RelativeOf(p, b) == Some(UnifyDir(Dots(Depth(p, b)) + Rest(p, CommonRoot(p, b))))
  {
  }

  lemma ClimbReduces(b: string, n: nat, rest: string)
    requires AllPlain(Comps(b)) && n <= |Comps(b)|
    ensures Reduce([], Comps(b + "/" + UnifyDir(Dots(n) + rest))) == Reduce(Comps(b)[..|Comps(b)| - n], Comps(rest))
  {
    CompsJoinBack(b, n, rest);
    ReduceClimb(Comps(b), n, Comps(rest));
  }

  /** Printed size of a component list: one separator per component. */
  function Size(cs: seq<string>): nat { if cs == [] then 0 else |cs[0]| + 1 + Size(cs[1..]) }

  lemma {:induction false} SizeConcat(a: seq<string>, b: seq<string>)
    ensures Size(a + b) == Size(a) + Size(b)
  {
    if a == [] {
      assert a + b == b;
    } else {
      assert (a + b)[1..] == a[1..] + b;
      SizeConcat(a[1..], b);
    }
  }

  lemma {:induction false} SizeOfAbs(cs: seq<string>)
    requires cs != []
    ensures Size(cs) == |Abs(cs)|
  {
    if |cs| > 1 { SizeOfAbs(cs[1..]); } else { assert Size(cs[1..]) == 0; }
  }

  lemma {:induction false} SizeOfComps(s: string)
    ensures Size(Comps(s)) <= |s| + 1
    decreases |s|
  {
    if s == "" {
    } else if s[0] == '/' {
      SizeOfComps(s[1..]);
    } else if Span(s) == |s| {
      assert s[Span(s)..] == "";
      assert Comps(s)[1..] == [];
    } else {
      var n := Span(s);
      var t := s[n + 1..];
      assert s[n..][1..] == t;
      SizeOfComps(t);
      assert Comps(s)[1..] == Comps(t);
    }
  }

  /** Cancelling only shrinks; the size is kept exactly when nothing was cancelled. */
  lemma {:induction false} ReduceShrinks(st: seq<string>, toks: seq<string>)
    requires Names(toks) && Reduce(st, toks).Some?
    ensures Size(Reduce(st, toks).value) <= Size(st) + Size(toks)
    ensures Size(Reduce(st, toks).value) == Size(st) + Size(toks)
            ==> Reduce(st, toks).value == st + toks
    decreases |toks|
  {
    if toks == [] {
      assert st + toks == st;
    } else if toks[0] == ".." {
      var n := |st| - 1;
      assert st == st[..n] + [st[n]];
      SizeConcat(st[..n], [st[n]]);
      ReduceShrinks(st[..n], toks[1..]);
    } else if toks[0] == "." {
      ReduceShrinks(st, toks[1..]);
    } else {
      SizeConcat(st, [toks[0]]);
      ReduceShrinks(st + [toks[0]], toks[1..]);
      assert st + [toks[0]] + toks[1..] == st + toks;
    }
  }

  /** The climb ends at path itself, or below the root and at a component boundary of path. */
  predicate Boundary(path: string, base: string) {
    var c := CommonRoot(path, base);
    path == c || (c != "/" && |path| > |c| && path[|c|] == '/')
  }

  lemma PlainTail(ps: seq<string>, st: seq<string>, tail: seq<string>)
    requires AllPlain(ps) && ps == st + tail
    ensures AllPlain(tail)
  {
    forall i | 0 <= i < |tail| ensures Plain(tail[i]) { assert ps[|st| + i] == tail[i]; }
  }

  /** Text that goes on at a component boundary goes on with the remaining components. */
  lemma RestOfComps(ps: seq<string>, st: seq<string>, rest: string)
    requires AllPlain(ps) && AllPlain(st) && Abs(ps) == Abs(st) + "/" + rest
    ensures ps == st + Comps(rest) && AllPlain(Comps(rest))
  {
    var a, b := Abs(ps), Abs(st);
    assert Comps(a) == ps by { CompsOfRender(true, ps); }
    assert Comps(b) == st by { CompsOfRender(true, st); }
    CompsJoin(b, rest);
    PlainTail(ps, st, Comps(rest));
  }

  lemma SameComps(ps: seq<string>, st: seq<string>)
    requires AllPlain(ps) && AllPlain(st) && Abs(ps) == Abs(st)
    ensures ps == st
  {
    CompsOfRender(true, ps);
    CompsOfRender(true, st);
  }

  lemma BoundaryRoundTrips(ps: seq<string>, bs: seq<string>, j: nat)
    requires AllPlain(ps) && AllPlain(bs) && j <= |bs|
    requires CommonRoot(Abs(ps), Abs(bs)) == Abs(bs[..j])
    requires Boundary(Abs(ps), Abs(bs))
    ensures Reduce(bs[..j], Comps(Rest(Abs(ps), Abs(bs[..j])))) == Some(ps)
  {
    var path, st := Abs(ps), bs[..j];
    var c := Abs(st);
    var rest := Rest(path, c);
    if path == c {
      SameComps(ps, st);
      assert Comps(rest) == [];
    } else {
      assert path == c + "/" + rest;
      RestOfComps(ps, st, rest);
      ReducePlain(st, Comps(rest));
    }
  }

  lemma RoundTripIsBoundary(ps: seq<string>, bs: seq<string>, j: nat)
    requires AllPlain(ps) && AllPlain(bs) && j <= |bs|
    requires CommonRoot(Abs(ps), Abs(bs)) == Abs(bs[..j])
    requires Reduce(bs[..j], Comps(Rest(Abs(ps), Abs(bs[..j])))) == Some(ps)
    ensures Boundary(Abs(ps), Abs(bs))
  {
    var path, c, st := Abs(ps), Abs(bs[..j]), bs[..j];
    var rest := Rest(path, c);
    if |path| > |c| {
      SizeOfAbs(ps);
      SizeOfComps(rest);
      CompsAreNames(rest);
      ReduceShrinks(st, Comps(rest));
      SizeOfAbs(st);
      assert ps == st + Comps(rest);
      assert st + [] == st;
      if Comps(rest) != [] {
        AbsPrefix(st, Comps(rest));
        JoinTidy(st);
      }
    }
  }

  /** The two conditions of the round trip, one for each way the climb may end. */
  lemma ClimbRoundTrips(ps: seq<string>, bs: seq<string>, j: nat)
    requires AllPlain(ps) && AllPlain(bs) && j <= |bs|
    requires CommonRoot(Abs(ps), Abs(bs)) == Abs(bs[..j])
    ensures Reduce(bs[..j], Comps(Rest(Abs(ps), Abs(bs[..j])))) == Some(ps) <==> Boundary(Abs(ps), Abs(bs))
  {
    if Boundary(Abs(ps), Abs(bs)) {
      BoundaryRoundTrips(ps, bs, j);
    } else if Reduce(bs[..j], Comps(Rest(Abs(ps), Abs(bs[..j])))) == Some(ps) {
      RoundTripIsBoundary(ps, bs, j);
    }
  }

  /** A simplified absolute text is a given clean path exactly when its components cancel to that path's. */
  lemma SimplifiesTo(s: string, ps: seq<string>)
    requires IsAbsolute(s) && AllPlain(ps)
    ensures Simplify(s) == Some(Abs(ps)) <==> Reduce([], Comps(s)) == Some(ps)
  {
    SimplifyCanonical(s);
    CompsOfRender(true, ps);
  }

  /** For clean absolute paths, `base/Relative(path, base)` simplifies back to `path` exactly
      when the common root is path itself, or is not "/" and ends at a component boundary. */
  lemma RelativeRoundTrip(ps: seq<string>, bs: seq<string>)
    requires AllPlain(ps) && AllPlain(bs)
    ensures RelativeOf(Abs(ps), Abs(bs)).Some?
    ensures Simplify(Abs(bs) + "/" + RelativeOf(Abs(ps), Abs(bs)).value) == Some(Abs(ps))
            <==> Boundary(Abs(ps), Abs(bs))
  {
    var path, base := Abs(ps), Abs(bs);
    AbsTidy(ps);
    AbsTidy(bs);
    var j := CommonRootOfAbs(ps, bs);
    RelativeOfTidy(path, base);
    var whole := base + "/" + RelativeOf(path, base).value;
    ClimbReduces(base, Depth(path, base), Rest(path, CommonRoot(path, base)));
    ClimbRoundTrips(ps, bs, j);
    SimplifiesTo(whole, ps);
  }

  lemma AbsRoot(cs: seq<string>)
    requires AllPlain(cs)
    ensures Abs(cs) == "/" <==> cs == []
  {
    JoinTidy(cs);
  }

  /** In components: the climb ends at path, or below the root at an ancestor of path. */
  lemma BoundaryInComps(ps: seq<string>, bs: seq<string>, j: nat)
    requires AllPlain(ps) && AllPlain(bs) && j <= |bs| && CommonRoot(Abs(ps), Abs(bs)) == Abs(bs[..j])
    ensures Boundary(Abs(ps), Abs(bs)) <==> ps == bs[..j] || (j > 0 && bs[..j] <= ps)
  {
    var path, st := Abs(ps), bs[..j];
    var c := Abs(st);
    AbsRoot(st);
    if Boundary(path, Abs(bs)) {
      if path == c {
        SameComps(ps, st);
      } else {
        assert path == c + "/" + path[|c| + 1..];
        RestOfComps(ps, st, path[|c| + 1..]);
      }
    } else if j > 0 && st <= ps && ps != st {
      var rest := ps[j..];
      assert ps == st + rest;
      AbsPrefix(st, rest);
    }
  }

  /** The same without naming the climb: with j components of the base as its longest ancestor that is a textual
      prefix of the path, the round trip works exactly when these are the path, or, below the root, components of it. */
  lemma RoundTripExactly(ps: seq<string>, bs: seq<string>, j: nat)
    requires AllPlain(ps) && AllPlain(bs) && Lowest(ps, bs, j)
    ensures RelativeOf(Abs(ps), Abs(bs)).Some?
    ensures Simplify(Abs(bs) + "/" + RelativeOf(Abs(ps), Abs(bs)).value) == Some(Abs(ps))
            <==> ps == bs[..j] || (j > 0 && bs[..j] <= ps)
  {
    RelativeRoundTrip(ps, bs);
    var k := CommonRootOfAbs(ps, bs);
    assert j == k;
    BoundaryInComps(ps, bs, j);
  }

  lemma PlainConcat(a: seq<string>, b: seq<string>)
    requires AllPlain(a) && AllPlain(b)
    ensures AllPlain(a + b)
  {
    forall i | 0 <= i < |a + b| ensures Plain((a + b)[i]) { assert i >= |a| ==> (a + b)[i] == b[i - |a|]; }
  }

  /** A base that is a textual prefix needs no climb. */
  lemma NoClimb(path: string, base: string)
    requires UnifyDir(path) == path && UnifyDir(base) == base && base != "" && base <= path
    ensures RelativeOf(path, base) == Some(UnifyDir(Rest(path, base)))
  {
    RelativeOfTidy(path, base);
    assert Dots(0) + Rest(path, base) == Rest(path, base);
  }

  lemma RestOfChild(base: string, r: string)
    ensures base <= base + "/" + r && Rest(base + "/" + r, base) == r && Rest(base, base) == ""
  {
  }

  /** A path below a base other than "/" is relative to it by exactly the text that was appended. */
  lemma RelativeOfChild(bs: seq<string>, rs: seq<string>)
    requires AllPlain(bs) && bs != [] && AllPlain(rs)
    ensures rs != [] ==> RelativeOf(Abs(bs) + "/" + Join(rs), Abs(bs)) == Some(Join(rs))
    ensures RelativeOf(Abs(bs), Abs(bs)) == Some("")
  {
    AbsTidy(bs);
    RestOfChild(Abs(bs), Join(rs));
    NoClimb(Abs(bs), Abs(bs));
    UnifyTidy("");
    if rs != [] {
      AbsPrefix(bs, rs);
      PlainConcat(bs, rs);
      AbsTidy(bs + rs);
      NoClimb(Abs(bs + rs), Abs(bs));
      JoinTidy(rs);
      UnifyTidy(Join(rs));
    }
  }

  /** Two inputs off the boundary: siblings under the root, and a base that is only a textual
      prefix of the path. */
  lemma OffBoundaryInputs()
    ensures !Boundary("/test", "/base")
    ensures !Boundary("/usr/ab", "/usr/a")
  {
    assert "/base" == "" + "/" + "base";
    LastSlashOf("", "base");
    assert Parent("/base") == "/";
    assert "/base"[1] != "/test"[1];
    assert CommonRoot("/test", "/base") == "/";
    assert CommonRoot("/usr/ab", "/usr/a") == "/usr/a";
  }
}
