/** Lexical path algebra of src/util/util.cc.

    A path string is read as its sequence of nonempty components (Comps) and printed
    back by Render.  UnifyDir, FindCommonRoot, Relative and SimplifyPath are edited
    strings in the source; each method below is proved against a function on strings,
    and the laws are proved about those functions. */
module Paths {
  import opened Options

  // ---------- components ----------

  /** Index of the first separator, or the length of the string. */
  function Span(s: string): (n: nat)
    ensures n <= |s|
    ensures forall i :: 0 <= i < n ==> s[i] != '/'
    ensures n < |s| ==> s[n] == '/'
  {
    if s == "" || s[0] == '/' then 0 else 1 + Span(s[1..])
  }

  /** The nonempty tokens of a string split at '/'. */
  function Comps(s: string): seq<string>
    decreases |s|
  {
    if s == "" then []
    else if s[0] == '/' then Comps(s[1..])
    else [s[..Span(s)]] + Comps(s[Span(s)..])
  }

  predicate Name(c: string) { c != "" && '/' !in c }
  predicate Plain(c: string) { Name(c) && c != "." && c != ".." }
  predicate Names(cs: seq<string>) { forall i :: 0 <= i < |cs| ==> Name(cs[i]) }
  predicate AllPlain(cs: seq<string>) { forall i :: 0 <= i < |cs| ==> Plain(cs[i]) }

  predicate IsAbsolute(s: string) { s != "" && s[0] == '/' }

  function Join(cs: seq<string>): string {
    if cs == [] then "" else if |cs| == 1 then cs[0] else cs[0] + "/" + Join(cs[1..])
  }

  function Render(absolute: bool, cs: seq<string>): string {
    (if absolute then "/" else "") + Join(cs)
  }

  /** A clean absolute path. */
  function Abs(cs: seq<string>): string { Render(true, cs) }

  lemma {:induction false} CompsJoin(a: string, b: string)
    ensures Comps(a + "/" + b) == Comps(a) + Comps(b)
    decreases |a|
  {
    var s := a + "/" + b;
    if a == "" {
      assert s[1..] == b;
    } else if a[0] == '/' {
      assert s[1..] == a[1..] + "/" + b;
      CompsJoin(a[1..], b);
    } else {
      FirstComp(a, b);
      CompsJoin(a[Span(a)..], b);
    }
  }

  /** The first component of a path is that of what it is joined with. */
  lemma FirstComp(a: string, b: string)
    requires a != "" && a[0] != '/'
    ensures Comps(a + "/" + b) == [a[..Span(a)]] + Comps(a[Span(a)..] + "/" + b)
  {
    var s, n := a + "/" + b, Span(a);
    SpanPrefix(a, "/" + b);
    assert s == a + ("/" + b);
    assert s[..n] == a[..n] && s[n..] == a[n..] + "/" + b;
  }

  lemma {:induction false} SpanPrefix(a: string, b: string)
    requires b != "" && b[0] == '/'
    ensures Span(a + b) == Span(a)
  {
    if a != "" && a[0] != '/' {
      assert (a + b)[1..] == a[1..] + b;
      SpanPrefix(a[1..], b);
    } else if a == "" {
      assert a + b == b;
    }
  }

  lemma {:induction false} SpanAll(c: string)
    requires '/' !in c
    ensures Span(c) == |c|
  {
    if c != "" { SpanAll(c[1..]); }
  }

  lemma CompsName(c: string)
    requires Name(c)
    ensures Comps(c) == [c]
  {
    SpanAll(c);
    assert c[..|c|] == c && c[|c|..] == "";
  }

  lemma {:induction false} CompsAreNames(s: string)
    ensures Names(Comps(s))
    decreases |s|
  {
    if s == "" {
    } else if s[0] == '/' {
      CompsAreNames(s[1..]);
    } else {
      CompsAreNames(s[Span(s)..]);
    }
  }

  lemma {:induction false} CompsOfJoin(cs: seq<string>)
    requires Names(cs)
    ensures Comps(Join(cs)) == cs
  {
    if cs == [] {
    } else if |cs| == 1 {
      CompsName(cs[0]);
    } else {
      CompsName(cs[0]);
      CompsOfJoin(cs[1..]);
      CompsJoin(cs[0], Join(cs[1..]));
    }
  }

  /** Printing a component list and reading it back is the identity. */
  lemma CompsOfRender(absolute: bool, cs: seq<string>)
    requires Names(cs)
    ensures Comps(Render(absolute, cs)) == cs
  {
    CompsOfJoin(cs);
    if absolute {
      assert Render(true, cs)[1..] == Join(cs);
    } else {
      assert Render(false, cs) == Join(cs);
    }
  }

  lemma {:induction false} JoinSnoc(cs: seq<string>, c: string)
    ensures Join(cs + [c]) == if cs == [] then c else Join(cs) + "/" + c
  {
    if cs == [] {
      assert cs + [c] == [c];
    } else if |cs| == 1 {
      assert (cs + [c])[1..] == [c];
    } else {
      assert (cs + [c])[1..] == cs[1..] + [c];
      JoinSnoc(cs[1..], c);
    }
  }

  lemma {:induction false} JoinConcat(a: seq<string>, b: seq<string>)
    requires a != [] && b != []
    ensures Join(a + b) == Join(a) + "/" + Join(b)
  {
    assert (a + b)[1..] == a[1..] + b;
    if |a| == 1 {
      assert a[1..] + b == b;
    } else {
      JoinConcat(a[1..], b);
    }
  }

  // ---------- UnifyDir ----------

  /** boost::replace_all(s, "//", "/"): one left-to-right pass, replacements not rescanned. */
  function Squeeze(s: string): string {
    if |s| >= 2 && s[0] == '/' && s[1] == '/' then "/" + Squeeze(s[2..])
    else if s == "" then ""
    else [s[0]] + Squeeze(s[1..])
  }

  /** One trailing separator is dropped, unless it is all there is. */
  function Stripped(s: string): string { if |s| > 1 && s[|s| - 1] == '/' then s[..|s| - 1] else s }

  function UnifyDir(s: string): string { Squeeze(Stripped(s)) }

  predicate NoDouble(s: string) {
    forall i :: 0 <= i < |s| - 1 ==> !(s[i] == '/' && s[i + 1] == '/')
  }

  predicate Tidy(s: string) { NoDouble(s) && (|s| > 1 ==> s[|s| - 1] != '/') }

  lemma {:induction false} SqueezeNoDouble(s: string)
    requires NoDouble(s)
    ensures Squeeze(s) == s
  {
    if s != "" {
      assert |s| >= 2 ==> !(s[0] == '/' && s[0 + 1] == '/');
      forall i | 0 <= i < |s[1..]| - 1
        ensures !(s[1..][i] == '/' && s[1..][i + 1] == '/')
      {
        assert !(s[i + 1] == '/' && s[i + 1 + 1] == '/');
      }
      SqueezeNoDouble(s[1..]);
    }
  }

  function Slashes(k: nat): string { if k == 0 then "" else "/" + Slashes(k - 1) }

  /** No three separators in a row. */
  predicate NoTriple(s: string) {
    forall i :: 0 <= i < |s| - 2 ==> !(s[i] == '/' && s[i + 1] == '/' && s[i + 2] == '/')
  }

  lemma SqueezeHead(s: string)
    ensures (s == "" <==> Squeeze(s) == "") && (s != "" ==> Squeeze(s)[0] == s[0])
  {
  }

  lemma NoDoubleCons(c: char, s: string)
    ensures NoDouble([c] + s) <==> NoDouble(s) && !(s != "" && c == '/' && s[0] == '/')
  {
    var t := [c] + s;
    if NoDouble(t) {
      forall i | 0 <= i < |s| - 1 ensures !(s[i] == '/' && s[i + 1] == '/') {
        assert !(t[i + 1] == '/' && t[i + 1 + 1] == '/');
      }
      if s != "" { assert !(t[0] == '/' && t[0 + 1] == '/'); }
    } else {
      var i :| 0 <= i < |t| - 1 && t[i] == '/' && t[i + 1] == '/';
      if i > 0 { assert s[i - 1] == '/' && s[i - 1 + 1] == '/'; }
    }
  }

  lemma NoTripleCons(c: char, s: string)
    ensures NoTriple([c] + s) <==> NoTriple(s) && !(|s| >= 2 && c == '/' && s[0] == '/' && s[1] == '/')
  {
    var t := [c] + s;
    if NoTriple(t) {
      forall i | 0 <= i < |s| - 2 ensures !(s[i] == '/' && s[i + 1] == '/' && s[i + 2] == '/') {
        assert !(t[i + 1] == '/' && t[i + 1 + 1] == '/' && t[i + 1 + 2] == '/');
      }
      if |s| >= 2 { assert !(t[0] == '/' && t[0 + 1] == '/' && t[0 + 2] == '/'); }
    } else {
      var i :| 0 <= i < |t| - 2 && t[i] == '/' && t[i + 1] == '/' && t[i + 2] == '/';
      if i > 0 { assert s[i - 1] == '/' && s[i - 1 + 1] == '/' && s[i - 1 + 2] == '/'; }
    }
  }

  /** One pass leaves no double separator if and only if there were no three in a row. */
  lemma {:induction false} SqueezeExact(s: string)
    ensures NoDouble(Squeeze(s)) <==> NoTriple(s)
  {
    if |s| >= 2 && s[0] == '/' && s[1] == '/' {
      var r := s[2..];
      assert s[1..] == ['/'] + r && s == ['/'] + s[1..];
      SqueezeExact(r);
      SqueezeHead(r);
      NoDoubleCons('/', Squeeze(r));
      NoTripleCons('/', s[1..]);
      NoTripleCons('/', r);
    } else if s != "" {
      assert s == [s[0]] + s[1..];
      SqueezeExact(s[1..]);
      SqueezeHead(s[1..]);
      NoDoubleCons(s[0], Squeeze(s[1..]));
      NoTripleCons(s[0], s[1..]);
    }
  }

  lemma Regroup(a: string, b: string, c: string)
    ensures a + (b + c) == a + b + c
  {
  }

  lemma SqueezePair(s: string)
    ensures Squeeze("/" + ("/" + s)) == "/" + Squeeze(s)
  {
    assert ("/" + ("/" + s))[2..] == s;
  }

  lemma SqueezeSingle(s: string)
    requires s == "" || s[0] != '/'
    ensures Squeeze("/" + s) == "/" + Squeeze(s)
  {
    assert ("/" + s)[1..] == s;
  }

  lemma SlashesTwo(k: nat, s: string)
    ensures Slashes(k + 2) + s == "/" + ("/" + (Slashes(k) + s))
  {
    assert Slashes(k + 2) == "/" + Slashes(k + 1) && Slashes(k + 1) == "/" + Slashes(k);
  }

  /** Two separators become one, an odd one stays. */
  lemma {:induction false} SqueezeSlashes(k: nat, half: nat, s: string)
    requires s == "" || s[0] != '/'
    requires k == 2 * half || k + 1 == 2 * half
    ensures Squeeze(Slashes(k) + s) == Slashes(half) + Squeeze(s)
  {
    if k == 0 {
      assert Slashes(k) + s == s && Slashes(half) + Squeeze(s) == Squeeze(s);
    } else if k == 1 {
      SqueezeSingle(s);
      assert Slashes(0) == "" && Slashes(1) == "/";
    } else {
      SqueezeSlashes(k - 2, half - 1, s);
      SlashesTwo(k - 2, s);
      SqueezePair(Slashes(k - 2) + s);
      Regroup("/", Slashes(half - 1), Squeeze(s));
    }
  }

  lemma SqueezeStep(s: string, n: nat)
    requires s != "" && n == if |s| >= 2 && s[0] == '/' && s[1] == '/' then 2 else 1
    ensures Squeeze(s) == [s[0]] + Squeeze(s[n..])
  {
  }

  /** What does not end with a separator is treated on its own. */
  lemma {:induction false} SqueezeConcat(a: string, t: string)
    requires a != "" ==> a[|a| - 1] != '/'
    ensures Squeeze(a + t) == Squeeze(a) + Squeeze(t)
    decreases |a|
  {
    if a == "" {
      assert a + t == t;
    } else {
      var n := if |a| >= 2 && a[0] == '/' && a[1] == '/' then 2 else 1;
      assert (a + t)[n..] == a[n..] + t;
      SqueezeConcat(a[n..], t);
      SqueezeStep(a, n);
      SqueezeStep(a + t, n);
      assert [a[0]] + (Squeeze(a[n..]) + Squeeze(t)) == [a[0]] + Squeeze(a[n..]) + Squeeze(t);
    }
  }

  /** A run of k separators becomes one of (k + 1) / 2; what is around it is treated on its own. */
  lemma SqueezeRun(a: string, k: nat, b: string)
    requires a != "" ==> a[|a| - 1] != '/'
    requires b != "" ==> b[0] != '/'
    ensures Squeeze(a + Slashes(k) + b) == Squeeze(a) + Slashes((k + 1) / 2) + Squeeze(b)
  {
    SqueezeConcat(a, Slashes(k) + b);
    SqueezeSlashes(k, (k + 1) / 2, b);
    Regroup(a, Slashes(k), b);
    Regroup(Squeeze(a), Slashes((k + 1) / 2), Squeeze(b));
  }

  /** What UnifyDir gives has no double separator if and only if, one trailing separator dropped, there were no three in
      a row. */
  lemma UnifyExact(s: string)
    ensures NoDouble(UnifyDir(s)) <==> NoTriple(if |s| > 1 && s[|s| - 1] == '/' then s[..|s| - 1] else s)
  {
    SqueezeExact(Stripped(s));
  }

  lemma StripTrailing(s: string)
    requires s != "" && s[|s| - 1] != '/'
    ensures Stripped(s + "/") == s && Stripped(s) == s
  {
  }

  lemma LastOf(a: string, b: string)
    requires b != ""
    ensures a + b != "" && (a + b)[|a + b| - 1] == b[|b| - 1]
  {
  }

  /** A double separator between two tidy pieces and a trailing one are tidied up. */
  lemma UnifyJoins(a: string, b: string)
    requires Tidy(a) && Tidy(b) && a != "" && b != "" && a[|a| - 1] != '/' && b[0] != '/' && b[|b| - 1] != '/'
    ensures UnifyDir(a + "//" + b) == a + "/" + b && UnifyDir(a + "//" + b + "/") == a + "/" + b
  {
    LastOf(a + "//", b);
    StripTrailing(a + "//" + b);
    assert Slashes(0) == "" && Slashes(1) == "/" && Slashes(2) == "/" + Slashes(1) == "//";
    SqueezeRun(a, 2, b);
    SqueezeNoDouble(a);
    SqueezeNoDouble(b);
  }

  lemma UnifyTidy(s: string)
    requires Tidy(s)
    ensures UnifyDir(s) == s
  {
    SqueezeNoDouble(s);
  }

  lemma SqueezeSpan(s: string)
    requires s != "" && s[0] != '/'
    ensures Squeeze(s) == s[..Span(s)] + Squeeze(s[Span(s)..])
  {
    var n := Span(s);
    assert s == s[..n] + s[n..];
    SqueezeConcat(s[..n], s[n..]);
    SqueezeNoDouble(s[..n]);
  }

  lemma {:induction false} CompsSqueeze(s: string)
    ensures Comps(Squeeze(s)) == Comps(s)
    decreases |s|
  {
    if s == "" {
    } else if |s| >= 2 && s[0] == '/' && s[1] == '/' {
      CompsSqueeze(s[2..]);
      assert Squeeze(s)[1..] == Squeeze(s[2..]);
      assert s[1..][1..] == s[2..];
    } else if s[0] == '/' {
      CompsSqueeze(s[1..]);
      assert Squeeze(s)[1..] == Squeeze(s[1..]);
    } else {
      var n := Span(s);
      SqueezeSpan(s);
      var t := Squeeze(s[n..]);
      CompsSqueeze(s[n..]);
      SpanAll(s[..n]);
      if n == |s| {
        assert s[..n] == s && s[n..] == "" && Squeeze(s) == s;
      } else {
        assert t != "" && t[0] == '/';
        SpanPrefix(s[..n], t);
        var q := s[..n] + t;
        assert q == Squeeze(s) && Span(q) == n && q[..n] == s[..n] && q[n..] == t;
      }
    }
  }

  /** UnifyDir never changes what a path names. */
  lemma CompsUnify(s: string)
    ensures Comps(UnifyDir(s)) == Comps(s)
  {
    assert UnifyDir(s) == Squeeze(Stripped(s));
    if |s| > 1 && s[|s| - 1] == '/' {
      var t := s[..|s| - 1];
      assert s == t + "/" + "";
      CompsJoin(t, "");
      CompsSqueeze(t);
    } else {
      CompsSqueeze(s);
    }
  }

  lemma {:induction false} JoinTidy(cs: seq<string>)
    requires Names(cs)
    ensures Tidy(Join(cs))
    ensures cs != [] ==> Join(cs) != "" && Join(cs)[0] != '/' && Join(cs)[|Join(cs)| - 1] != '/'
  {
    if |cs| == 1 {
    } else if |cs| > 1 {
      JoinTidy(cs[1..]);
      assert Name(cs[0]);
    }
  }

  lemma RenderTidy(absolute: bool, cs: seq<string>)
    requires Names(cs)
    ensures Tidy(Render(absolute, cs))
  {
    JoinTidy(cs);
    var j := Join(cs);
    if absolute {
      var r := Render(true, cs);
      forall i | 0 <= i < |r| - 1 ensures !(r[i] == '/' && r[i + 1] == '/') {
        if i > 0 { assert !(j[i - 1] == '/' && j[i - 1 + 1] == '/'); }
      }
    } else {
      assert Render(false, cs) == j;
    }
  }

  // ---------- SimplifyPath ----------

  /** The stack machine of SimplifyPath: ".." pops (and fails on an empty stack), "." is dropped. */
  function Reduce(stack: seq<string>, toks: seq<string>): Option<seq<string>>
    decreases |toks|
  {
    if toks == [] then Some(stack)
    else if toks[0] == ".." then
      if stack == [] then None else Reduce(stack[..|stack| - 1], toks[1..])
    else if toks[0] == "." then Reduce(stack, toks[1..])
    else Reduce(stack + [toks[0]], toks[1..])
  }

  function Simplify(path: string): Option<string> {
    match Reduce([], Comps(path))
    case None => None
    case Some(st) => Some(Render(IsAbsolute(path), st))
  }

  lemma {:induction false} ReduceConcat(st: seq<string>, a: seq<string>, b: seq<string>)
    ensures Reduce(st, a + b) ==
            match Reduce(st, a) { case None => None case Some(t) => Reduce(t, b) }
    decreases |a|
  {
    if a == [] {
      assert a + b == b;
    } else {
      assert (a + b)[1..] == a[1..] + b;
      if a[0] == ".." {
        if st != [] { ReduceConcat(st[..|st| - 1], a[1..], b); }
      } else if a[0] == "." {
        ReduceConcat(st, a[1..], b);
      } else {
        ReduceConcat(st + [a[0]], a[1..], b);
      }
    }
  }

  lemma {:induction false} ReducePlain(st: seq<string>, toks: seq<string>)
    requires AllPlain(toks)
    ensures Reduce(st, toks) == Some(st + toks)
    decreases |toks|
  {
    if toks == [] {
      assert st + toks == st;
    } else {
      assert Plain(toks[0]);
      ReducePlain(st + [toks[0]], toks[1..]);
      assert st + [toks[0]] + toks[1..] == st + toks;
    }
  }

  lemma {:induction false} ReduceYieldsPlain(st: seq<string>, toks: seq<string>)
    requires AllPlain(st) && Names(toks)
    ensures Reduce(st, toks).Some? ==> AllPlain(Reduce(st, toks).value)
    decreases |toks|
  {
    if toks != [] {
      assert Name(toks[0]);
      if toks[0] == ".." {
        if st != [] { ReduceYieldsPlain(st[..|st| - 1], toks[1..]); }
      } else if toks[0] == "." {
        ReduceYieldsPlain(st, toks[1..]);
      } else {
        ReduceYieldsPlain(st + [toks[0]], toks[1..]);
      }
    }
  }

  /** How far the components lead down: names count up, ".." counts back. */
  function Height(cs: seq<string>): int {
    if cs == [] then 0
    else (if cs[0] == ".." then -1 else if cs[0] == "." then 0 else 1) + Height(cs[1..])
  }

  /** On the way they leave the starting point upwards, which is `depth` deep. */
  predicate ClimbsOut(depth: nat, cs: seq<string>) { exists n :: 0 <= n <= |cs| && depth + Height(cs[..n]) < 0 }

  lemma HeightCons(cs: seq<string>, n: nat)
    requires 0 < n <= |cs|
    ensures Height(cs[..n]) == Height(cs[..1]) + Height(cs[1..][..n - 1])
  {
    assert cs[..n][1..] == cs[1..][..n - 1] && cs[..1][1..] == [];
    assert Height(cs[..1][1..]) == 0;
  }

  lemma ClimbsStep(depth: nat, cs: seq<string>)
    requires cs != []
    ensures var next := depth + Height(cs[..1]);
            ClimbsOut(depth, cs) <==> next < 0 || ClimbsOut(next, cs[1..])
  {
    var next := depth + Height(cs[..1]);
    if n :| 0 <= n <= |cs| && depth + Height(cs[..n]) < 0 {
      assert n != 0 by { assert cs[..0] == []; }
      HeightCons(cs, n);
      if next >= 0 { assert next + Height(cs[1..][..n - 1]) < 0; }
    }
    if next < 0 {
      assert ClimbsOut(depth, cs);
    } else if n :| 0 <= n <= |cs[1..]| && next + Height(cs[1..][..n]) < 0 {
      HeightCons(cs, n + 1);
      assert depth + Height(cs[..n + 1]) < 0;
    }
  }

  /** The stack machine fails exactly when the path climbs out of it, and else ends as deep as the path leads. */
  lemma {:induction false} ReduceHeight(st: seq<string>, toks: seq<string>)
    ensures Reduce(st, toks).None? <==> ClimbsOut(|st|, toks)
    ensures Reduce(st, toks).Some? ==> |Reduce(st, toks).value| == |st| + Height(toks)
    decreases |toks|
  {
    if toks == [] {
      assert forall n :: 0 <= n <= |toks| ==> toks[..n] == [];
    } else {
      ClimbsStep(|st|, toks);
      assert toks[..1][1..] == [] && Height(toks[..1][1..]) == 0;
      if toks[0] == ".." {
        if st != [] { ReduceHeight(st[..|st| - 1], toks[1..]); }
      } else if toks[0] == "." {
        ReduceHeight(st, toks[1..]);
      } else {
        ReduceHeight(st + [toks[0]], toks[1..]);
      }
    }
  }

  /** SimplifyPath fails exactly when some prefix of the path has more ".." than names, and else the result has as many
      components as the path has names left over. */
  lemma SimplifyFailsExactly(p: string)
    ensures Simplify(p).None? <==> exists n :: 0 <= n <= |Comps(p)| && Height(Comps(p)[..n]) < 0
    ensures Simplify(p).Some? ==> |Comps(Simplify(p).value)| == Height(Comps(p))
  {
    ReduceHeight([], Comps(p));
    if ClimbsOut(0, Comps(p)) {
      var n :| 0 <= n <= |Comps(p)| && 0 + Height(Comps(p)[..n]) < 0;
      assert Height(Comps(p)[..n]) < 0;
    } else {
      forall n | 0 <= n <= |Comps(p)| ensures Height(Comps(p)[..n]) >= 0 { assert 0 + Height(Comps(p)[..n]) >= 0; }
    }
    SimplifyCanonical(p);
  }

  /** A name followed by ".." and a "." can be left out anywhere. */
  lemma ReduceCancels(st: seq<string>, a: seq<string>, c: string, b: seq<string>)
    requires Plain(c)
    ensures Reduce(st, a + [c, ".."] + b) == Reduce(st, a + b) && Reduce(st, a + ["."] + b) == Reduce(st, a + b)
  {
    ReduceConcat(st, a, [c, ".."] + b);
    ReduceConcat(st, a, ["."] + b);
    ReduceConcat(st, a, b);
    assert a + ([c, ".."] + b) == a + [c, ".."] + b && a + (["."] + b) == a + ["."] + b;
    if Reduce(st, a).Some? {
      var t, all := Reduce(st, a).value, [c, ".."] + b;
      assert all[1..] == [".."] + b && all[1..][1..] == b && (["."] + b)[1..] == b;
      assert (t + [c])[..|t|] == t;
    }
  }

  /** On paths: what is in front and what follows do not matter, failure included. */
  lemma SimplifyCancels(p: string, c: string, q: string)
    requires Plain(c) && p != ""
    ensures Simplify(p + "/" + c + "/" + ".." + "/" + q) == Simplify(p + "/" + q)
    ensures Simplify(p + "/" + "." + "/" + q) == Simplify(p + "/" + q)
  {
    CompsName(c);
    CompsName("..");
    CompsName(".");
    CompsJoin(p, q);
    CompsJoin(p, c);
    CompsJoin(p + "/" + c, "..");
    CompsJoin(p + "/" + c + "/" + "..", q);
    CompsJoin(p, ".");
    CompsJoin(p + "/" + ".", q);
    assert Comps(p) + [c] + [".."] == Comps(p) + [c, ".."];
    ReduceCancels([], Comps(p), c, Comps(q));
  }

  /** A simplified path is in canonical form: its components are the final stack, none is
      empty, "." or "..", it is absolute exactly when the input was, and it is exactly
      what printing those components gives. */
  lemma SimplifyCanonical(p: string)
    ensures Simplify(p).Some? <==> Reduce([], Comps(p)).Some?
    ensures Simplify(p).Some? ==>
              var o := Simplify(p).value;
              && Reduce([], Comps(p)) == Some(Comps(o))
              && AllPlain(Comps(o))
              && o == Render(IsAbsolute(p), Comps(o))
              && IsAbsolute(o) == IsAbsolute(p)
              && Tidy(o)
  {
    CompsAreNames(p);
    ReduceYieldsPlain([], Comps(p));
    if Reduce([], Comps(p)).Some? {
      var st := Reduce([], Comps(p)).value;
      CompsOfRender(IsAbsolute(p), st);
      RenderTidy(IsAbsolute(p), st);
      JoinTidy(st);
    }
  }

  lemma SimplifyIdempotent(p: string)
    ensures Simplify(p).Some? ==> Simplify(Simplify(p).value) == Simplify(p)
  {
    SimplifyCanonical(p);
    if Simplify(p).Some? {
      var o := Simplify(p).value;
      ReducePlain([], Comps(o));
      assert [] + Comps(o) == Comps(o);
    }
  }

  /** Simplifying a prefix first changes nothing -- failure included -- except for a nonempty
      relative prefix that cancels to the empty string, in front of something that simplifies: there the
      joined text turns absolute. */
  lemma SimplifyCongruence(p: string, q: string)
    ensures Simplify(p) == None ==> Simplify(p + "/" + q) == None
    ensures Simplify(p).Some? ==>
              (Simplify(p + "/" + q) == Simplify(Simplify(p).value + "/" + q)
               <==> !(p != "" && Simplify(p).value == "" && Simplify(q).Some?))
  {
    CompsJoin(p, q);
    ReduceConcat([], Comps(p), Comps(q));
    SimplifyCanonical(p);
    if Simplify(p).Some? {
      var o := Simplify(p).value;
      CompsJoin(o, q);
      ReduceConcat([], Comps(o), Comps(q));
      ReducePlain([], Comps(o));
      assert [] + Comps(o) == Comps(o);
      assert Reduce([], Comps(p + "/" + q)) == Reduce([], Comps(o + "/" + q));
      SimplifyCanonical(p + "/" + q);
      SimplifyCanonical(o + "/" + q);
    }
  }

  lemma CancelledComps()
    ensures Comps("a/..") == ["a", ".."] && Comps("a/.." + "/" + "b") == ["a", "..", "b"]
    ensures Comps("" + "/" + "b") == ["b"]
  {
    CompsName("a");
    CompsName("..");
    CompsName("b");
    assert "a/.." == "a" + "/" + "..";
    CompsJoin("a", "..");
    CompsJoin("a/..", "b");
    CompsJoin("", "b");
  }

  lemma CancelledStack(a: string, toks: seq<string>)
    requires Plain(a)
    ensures Reduce([], [a, ".."] + toks) == Reduce([], toks)
  {
    var all := [a, ".."] + toks;
    assert all[1..] == [".."] + toks && all[1..][1..] == toks;
    assert [] + [a] == [a] && [a][..0] == [];
  }

  /** The exception is real: "a/.." simplifies to "", and "" + "/" + "b" is absolute. */
  lemma CancelledPrefix()
    ensures Simplify("a/..") == Some("") && Simplify("a/.." + "/" + "b") == Some("b")
    ensures Simplify("" + "/" + "b") == Some("/b")
  {
    CancelledComps();
    CancelledStack("a", []);
    CancelledStack("a", ["b"]);
    assert ["a", ".."] + [] == ["a", ".."] && ["a", ".."] + ["b"] == ["a", "..", "b"];
    ReducePlain([], ["b"]);
    assert Render(false, []) == "" && Render(false, ["b"]) == "b" && Render(true, ["b"]) == "/b";
  }

  /** Each component followed by a separator: what the second loop of SimplifyPath builds. */
  function Trail(cs: seq<string>): string {
    if cs == [] then "" else Trail(cs[..|cs| - 1]) + cs[|cs| - 1] + "/"
  }

  lemma {:induction false} TrailJoin(cs: seq<string>)
    ensures Trail(cs) == if cs == [] then "" else Join(cs) + "/"
  {
    if cs != [] {
      var n := |cs| - 1;
      TrailJoin(cs[..n]);
      assert cs == cs[..n] + [cs[n]];
      JoinSnoc(cs[..n], cs[n]);
    }
  }

  lemma UnifyTrail(absolute: bool, cs: seq<string>)
    requires Names(cs)
    ensures UnifyDir((if absolute then "/" else "") + Trail(cs)) == Render(absolute, cs)
  {
    TrailJoin(cs);
    RenderTidy(absolute, cs);
    JoinTidy(cs);
    var r := Render(absolute, cs);
    var t := (if absolute then "/" else "") + Trail(cs);
    if cs == [] {
      assert t == r;
      UnifyTidy(r);
    } else {
      assert t == r + "/";
      assert t[..|t| - 1] == r;
      SqueezeNoDouble(r);
    }
  }

  /** One getline token off the front of the text. */
  lemma NextToken(path: string, pos: nat)
    requires pos < |path|
    ensures var n := Span(path[pos..]);
            var next := if pos + n < |path| then pos + n + 1 else pos + n;
            && pos < next <= |path|
            && Comps(path[pos..]) == (if n == 0 then [] else [path[pos..pos + n]]) + Comps(path[next..])
  {
    var rest := path[pos..];
    var n := Span(rest);
    if n < |rest| {
      assert rest[n..][1..] == path[pos + n + 1..];
      if n > 0 { assert rest[..n] == path[pos..pos + n]; }
    } else {
      assert rest[..n] == path[pos..pos + n];
      assert rest[n..] == path[pos + n..];
    }
  }

  lemma StackStep(path: string, pos: nat, dirs: seq<string>)
    requires pos < |path|
    ensures var n := Span(path[pos..]);
            var next, token := if pos + n < |path| then pos + n + 1 else pos + n, path[pos..pos + n];
            Reduce(dirs, Comps(path[pos..]))
            == if token == ".." then if dirs == [] then None else Reduce(dirs[..|dirs| - 1], Comps(path[next..]))
               else if token != "" && token != "." then Reduce(dirs + [token], Comps(path[next..]))
               else Reduce(dirs, Comps(path[next..]))
  {
    NextToken(path, pos);
    var n := Span(path[pos..]);
    var next, token := if pos + n < |path| then pos + n + 1 else pos + n, path[pos..pos + n];
    if n == 0 {
      assert [] + Comps(path[next..]) == Comps(path[next..]);
    } else {
      assert ([token] + Comps(path[next..]))[1..] == Comps(path[next..]);
    }
  }

  /** The first loop: tokens onto the stack, or failure. */
  method StackOf(path: string) returns (ok: bool, dirs: seq<string>)
    ensures Reduce([], Comps(path)) == if ok then Some(dirs) else None
  {
    dirs := [];
    var pos := 0;
    assert path[0..] == path;
    while pos < |path|
      invariant 0 <= pos <= |path|
      invariant Reduce(dirs, Comps(path[pos..])) == Reduce([], Comps(path))
    {
      StackStep(path, pos, dirs);
      var n := Span(path[pos..]);
      var next, token := if pos + n < |path| then pos + n + 1 else pos + n, path[pos..pos + n];
      if token == ".." {
        if dirs == [] { return false, dirs; }
        dirs := dirs[..|dirs| - 1];
      } else if token != "" && token != "." {
        dirs := dirs + [token];
      }
      pos := next;
    }
    assert path[pos..] == "";
    ok := true;
  }

  /** SimplifyPath(path, &out): `out` is prepended to, and left alone on failure. */
  method SimplifyPath(path: string, out: string) returns (ok: bool, res: string)
    ensures ok <==> Simplify(path).Some?
    ensures !ok ==> res == out
    ensures ok && out == "" ==> res == Simplify(path).value
    ensures ok ==> res == UnifyDir((if IsAbsolute(path) then "/" else "")
                                   + (Trail(Reduce([], Comps(path)).value) + out))
  {
    var dirs;
    ok, dirs := StackOf(path);
    if !ok { return false, out; }
    ghost var st := dirs;
    res := out;
    while dirs != []
      invariant Trail(dirs) + res == Trail(st) + out
      decreases |dirs|
    {
      var top := dirs[|dirs| - 1];
      assert Trail(dirs) + res == Trail(dirs[..|dirs| - 1]) + (top + "/" + res);
      res := top + "/" + res;
      dirs := dirs[..|dirs| - 1];
    }
    assert res == Trail(st) + out;
    if path != "" && path[0] == '/' {
      res := "/" + res;
    }
    assert res == (if IsAbsolute(path) then "/" else "") + (Trail(st) + out);
    res := UnifyDir(res);
    CompsAreNames(path);
    ReduceYieldsPlain([], Comps(path));
    UnifyTrail(IsAbsolute(path), st);
    assert out == "" ==> Trail(st) + out == Trail(st);
  }
}
