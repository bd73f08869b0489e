/**
 Slash-separated names as Go's packages `path` and `strings` treat them, over plain strings,
 and the component sequences they denote.
 */
module GoPath {

  type Path = seq<string>

  // ---------------------------------------------------------------- components

  /** strings.Split(s, "/"). */
  function Split(s: string): (r: seq<string>)
    ensures |r| >= 1
  {
    if s == "" then [""] else Glue(s[0], Split(s[1..]))
  }

  /** The components of a string, given its first character and the components of the rest. */
  function Glue(ch: char, r: seq<string>): (g: seq<string>)
    requires |r| >= 1
    ensures |g| >= 1
  {
    if ch == '/' then [""] + r else [[ch] + r[0]] + r[1..]
  }

  lemma GlueConcat(ch: char, r: seq<string>, q: seq<string>)
    requires |r| >= 1
    ensures Glue(ch, r + q) == Glue(ch, r) + q
  {
    assert (r + q)[0] == r[0] && (r + q)[1..] == r[1..] + q;
    if ch == '/' {
      Regroup([""], r, q);
    } else {
      Regroup([[ch] + r[0]], r[1..], q);
    }
  }

  /** strings.Join(p, "/"). */
  function Join(p: Path): string {
    if |p| == 0 then "" else if |p| == 1 then p[0] else p[0] + "/" + Join(p[1..])
  }

  predicate NoSlash(s: string) {
    '/' !in s
  }

  /** A name one directory entry can have. */
  predicate ValidName(c: string) {
    c != "" && c != "." && c != ".." && NoSlash(c)
  }

  predicate ValidPath(p: Path) {
    forall c :: c in p ==> ValidName(c)
  }

  lemma SplitNoSlash(s: string)
    requires NoSlash(s)
    ensures Split(s) == [s]
  {
    if s != "" {
      SplitNoSlash(s[1..]);
      assert s == [s[0]] + s[1..];
    }
  }

  lemma SplitElements(s: string)
    ensures forall c :: c in Split(s) ==> NoSlash(c)
  {
    if s != "" {
      SplitElements(s[1..]);
      var r := Split(s[1..]);
      assert NoSlash(r[0]);
    }
  }

  lemma {:induction false} SplitConcat(a: string, b: string)
    ensures Split(a + "/" + b) == Split(a) + Split(b)
  {
    if a == "" {
      assert a + "/" + b == "/" + b;
      assert ("/" + b)[1..] == b;
    } else {
      var whole := a + "/" + b;
      assert whole[0] == a[0] && whole[1..] == a[1..] + "/" + b;
      SplitConcat(a[1..], b);
      GlueConcat(a[0], Split(a[1..]), Split(b));
    }
  }

  lemma JoinPrepend(c: string, p: Path)
    requires p != []
    ensures Join([c] + p) == c + "/" + Join(p)
  {
    assert ([c] + p)[1..] == p;
  }

  lemma {:induction false} JoinSplit(s: string)
    ensures Join(Split(s)) == s
  {
    if s != "" {
      JoinSplit(s[1..]);
      var r := Split(s[1..]);
      if s[0] == '/' {
        JoinPrepend("", r);
        assert s == "/" + s[1..];
      } else {
        var q := [[s[0]] + r[0]] + r[1..];
        assert q[1..] == r[1..];
        assert Join(q) == [s[0]] + Join(r);
      }
    }
  }

  lemma {:induction false} SplitJoin(p: Path)
    requires p != []
    requires forall c :: c in p ==> NoSlash(c)
    ensures Split(Join(p)) == p
  {
    if |p| == 1 {
      SplitNoSlash(p[0]);
    } else {
      SplitJoin(p[1..]);
      SplitConcat(p[0], Join(p[1..]));
      SplitNoSlash(p[0]);
    }
  }

  lemma {:induction false} JoinConcat(p: Path, q: Path)
    requires p != [] && q != []
    ensures Join(p + q) == Join(p) + "/" + Join(q)
  {
    if |p| == 1 {
      JoinPrepend(p[0], q);
      assert p == [p[0]];
    } else {
      JoinConcat(p[1..], q);
      assert (p + q)[1..] == p[1..] + q;
    }
  }

  lemma PrefixConcat(b: Path, p: Path, r: Path)
    ensures b + p <= b + r <==> p <= r
    ensures b + p == b + r <==> p == r
  {
    if p <= r {
      assert b + r == b + p + r[|p|..];
    }
    if b + p <= b + r {
      assert p == (b + p)[|b|..] == (b + r)[..|b + p|][|b|..] == r[..|p|];
    }
    if b + p == b + r {
      assert p == (b + p)[|b|..] == (b + r)[|b|..] == r;
    }
  }

  // ---------------------------------------------------------------- path.Clean

  /** The components path.Clean keeps when no ".." is among them. */
  function Keep(cs: seq<string>): (r: seq<string>)
    ensures |r| <= |cs|
    ensures forall c :: c in r ==> c in cs && c != "" && c != "."
  {
    if cs == [] then []
    else if cs[0] == "" || cs[0] == "." then Keep(cs[1..])
    else [cs[0]] + Keep(cs[1..])
  }

  /** What path.Clean keeps of one component. */
  function KeepOne(c: string): seq<string> {
    if c == "" || c == "." then [] else [c]
  }

  lemma KeepStep(cs: seq<string>)
    requires cs != []
    ensures Keep(cs) == KeepOne(cs[0]) + Keep(cs[1..])
  {
  }

  lemma {:induction false} KeepConcat(a: seq<string>, b: seq<string>)
    ensures Keep(a + b) == Keep(a) + Keep(b)
  {
    hide Keep, KeepOne;
    if a == [] {
      assert a + b == b;
      assert Keep(a) == [];
    } else {
      KeepConcat(a[1..], b);
      assert (a + b)[0] == a[0] && (a + b)[1..] == a[1..] + b;
      KeepStep(a);
      KeepStep(a + b);
      Regroup(KeepOne(a[0]), Keep(a[1..]), Keep(b));
    }
  }

  lemma Regroup<T>(x: seq<T>, y: seq<T>, z: seq<T>)
    ensures x + y + z == x + (y + z)
  {
  }

  lemma KeepAll(p: Path)
    requires forall c :: c in p ==> c != "" && c != "."
    ensures Keep(p) == p
  {
    if p != [] {
      assert p[0] in p;
      assert forall c :: c in p[1..] ==> c in p;
      KeepAll(p[1..]);
    }
  }

  /** What path.Clean does with one component: `st` is what has been written so far. */
  function Push(st: seq<string>, c: string, rooted: bool): seq<string> {
    if c == "" || c == "." then st
    else if c == ".." then
      if st != [] && st[|st| - 1] != ".." then st[..|st| - 1]
      else if rooted then st
      else st + [".."]
    else st + [c]
  }

  /** The loop of path.Clean. */
  function Reduce(st: seq<string>, cs: seq<string>, rooted: bool): seq<string>
    decreases |cs|
  {
    if cs == [] then st else Reduce(Push(st, cs[0], rooted), cs[1..], rooted)
  }

  lemma ReduceStep(st: seq<string>, c: string, cs: seq<string>, rooted: bool)
    ensures Reduce(st, [c] + cs, rooted) == Reduce(Push(st, c, rooted), cs, rooted)
  {
    assert ([c] + cs)[1..] == cs;
  }

  lemma ReduceOne(st: seq<string>, c: string, rooted: bool)
    ensures Reduce(st, [c], rooted) == Push(st, c, rooted) && Reduce(st, [], rooted) == st
  {
    assert [c][1..] == [];
  }

  lemma {:induction false} ReduceConcat(st: seq<string>, a: seq<string>, b: seq<string>, rooted: bool)
    ensures Reduce(st, a + b, rooted) == Reduce(Reduce(st, a, rooted), b, rooted)
    decreases |a|
  {
    if a == [] {
      assert a + b == b;
    } else {
      ReduceConcat(Push(st, a[0], rooted), a[1..], b, rooted);
      assert (a + b)[0] == a[0] && (a + b)[1..] == a[1..] + b;
    }
  }

  lemma {:induction false} ReduceKeeps(st: seq<string>, cs: seq<string>, rooted: bool)
    requires ".." !in cs
    ensures Reduce(st, cs, rooted) == st + Keep(cs)
    decreases |cs|
  {
    if cs != [] {
      var c := cs[0];
      assert c in cs;
      ReduceKeeps(if c == "" || c == "." then st else st + [c], cs[1..], rooted);
    }
  }

  /** path.Clean leaves no "" and no "." among the components. */
  lemma {:induction false} ReducePlain(st: seq<string>, cs: seq<string>, rooted: bool)
    requires forall c :: c in st ==> c != "" && c != "." && NoSlash(c)
    requires forall c :: c in cs ==> NoSlash(c)
    ensures forall c :: c in Reduce(st, cs, rooted) ==> c != "" && c != "." && NoSlash(c)
    decreases |cs|
  {
    if cs != [] {
      assert cs[0] in cs;
      ReducePlain(Push(st, cs[0], rooted), cs[1..], rooted);
    }
  }

  predicate Rooted(s: string) {
    s != "" && s[0] == '/'
  }

  /** path.Clean. */
  function Clean(s: string): string {
    if s == "" then "."
    else
      var st := Reduce([], Split(s), s[0] == '/');
      if s[0] == '/' then "/" + Join(st)
      else if st == [] then "." else Join(st)
  }

  /** path.Join of two elements. */
  function PathJoin(a: string, b: string): string {
    if a == "" && b == "" then ""
    else if a == "" then Clean(b)
    else Clean(a + "/" + b)
  }

  /** strings.TrimRight(s, "/"). */
  function TrimRightSlashes(s: string): (r: string)
    ensures |r| <= |s| && r == s[..|r|]
    ensures r == "" || r[|r| - 1] != '/'
    ensures forall i :: |r| <= i < |s| ==> s[i] == '/'
  {
    if s != "" && s[|s| - 1] == '/' then TrimRightSlashes(s[..|s| - 1]) else s
  }

  /** strings.TrimPrefix(s, "/"). */
  function TrimRoot(s: string): string {
    if Rooted(s) then s[1..] else s
  }

  /** What follows the last slash of s. */
  function Last(s: string): (r: string)
    ensures |r| <= |s| && NoSlash(r)
    ensures s[|s| - |r|..] == r
    ensures |r| < |s| ==> s[|s| - |r| - 1] == '/'
  {
    if s == "" || s[|s| - 1] == '/' then ""
    else
      var r := Last(s[..|s| - 1]) + [s[|s| - 1]];
      assert s == s[..|s| - 1] + [s[|s| - 1]];
      r
  }

  /** path.Base. */
  function Base(s: string): string {
    if s == "" then "."
    else
      var t := TrimRightSlashes(s);
      if t == "" then "/" else Last(t)
  }

  /** path.Dir. */
  function Dir(s: string): string {
    Clean(s[..|s| - |Last(s)|])
  }

  // ---------------------------------------------------------------- names without ".."

  predicate NoDotDot(s: string) {
    ".." !in Split(s)
  }

  /** The path a name denotes, lexically, when it has no ".." in it. */
  function Parts(s: string): Path {
    Keep(Split(s))
  }

  /** The cleaned rooted name of a path. */
  function Abs(p: Path): string {
    "/" + Join(p)
  }

  lemma PartsValid(s: string)
    requires NoDotDot(s)
    ensures ValidPath(Parts(s))
  {
    SplitElements(s);
  }

  lemma {:induction false} PartsConcat(a: string, b: string)
    ensures Parts(a + "/" + b) == Parts(a) + Parts(b)
    ensures NoDotDot(a + "/" + b) <==> NoDotDot(a) && NoDotDot(b)
  {
    SplitConcat(a, b);
    KeepConcat(Split(a), Split(b));
  }

  lemma PartsTrailing(a: string)
    ensures Parts(a + "/") == Parts(a)
    ensures NoDotDot(a + "/") <==> NoDotDot(a)
  {
    PartsConcat(a, "");
    assert a + "/" + "" == a + "/";
    assert Parts("") == [];
    assert Split("") == [""];
  }

  lemma PartsOfName(c: string)
    requires ValidName(c)
    ensures Parts(c) == [c] && NoDotDot(c)
  {
    SplitNoSlash(c);
  }

  lemma PartsJoin(p: Path)
    requires ValidPath(p)
    ensures Parts(Join(p)) == p && NoDotDot(Join(p))
    ensures Parts(Abs(p)) == p && NoDotDot(Abs(p))
  {
    if p == [] {
      assert Split("") == [""] && Split("/") == ["", ""];
    } else {
      SplitJoin(p);
      KeepAll(p);
      SplitConcat("", Join(p));
      assert "" + "/" + Join(p) == Abs(p);
      assert Split(Abs(p)) == [""] + p;
    }
  }

  /** path.Clean keeps the path a name denotes, and rooted names become cleaned rooted ones. */
  lemma CleanNoDotDot(s: string)
    requires NoDotDot(s)
    ensures Rooted(s) ==> Clean(s) == Abs(Parts(s))
    ensures !Rooted(s) && Parts(s) != [] ==> Clean(s) == Join(Parts(s))
    ensures !Rooted(s) && Parts(s) == [] ==> Clean(s) == "."
    ensures NoDotDot(Clean(s)) && Parts(Clean(s)) == Parts(s)
    ensures Rooted(Clean(s)) <==> Rooted(s)
  {
    PartsValid(s);
    PartsJoin(Parts(s));
    SplitNoSlash(".");
    if s != "" {
      ReduceKeeps([], Split(s), s[0] == '/');
      assert [] + Keep(Split(s)) == Parts(s);
      if Parts(s) != [] {
        assert Parts(s)[0] in Parts(s);
        JoinHead(Parts(s));
      }
    }
  }

  lemma JoinHead(p: Path)
    requires p != [] && ValidPath(p)
    ensures Join(p) != "" && !Rooted(Join(p))
  {
    assert p[0] in p;
    assert Join(p)[0] == p[0][0];
    assert p[0][0] in p[0];
  }

  lemma PathJoinIs(a: string, b: string)
    requires a != ""
    ensures PathJoin(a, b) == Clean(a + "/" + b)
  {
  }

  lemma PathJoinParts(a: string, b: string)
    requires NoDotDot(a) && NoDotDot(b)
    requires a != ""
    ensures NoDotDot(PathJoin(a, b)) && Parts(PathJoin(a, b)) == Parts(a) + Parts(b)
    ensures Rooted(a) ==> PathJoin(a, b) == Abs(Parts(a) + Parts(b))
    ensures !Rooted(a) && Parts(a) + Parts(b) != [] ==> PathJoin(a, b) == Join(Parts(a) + Parts(b))
  {
    PartsConcat(a, b);
    CleanNoDotDot(a + "/" + b);
  }

  // ---------------------------------------------------------------- the last component

  lemma PlainDots()
    ensures Parts("") == [] && NoDotDot("") && Clean("") == "."
    ensures Parts(".") == [] && NoDotDot(".")
    ensures Parts("/") == [] && NoDotDot("/")
  {
    SplitNoSlash("");
    SplitNoSlash(".");
    PartsConcat("", "");
    assert "" + "/" + "" == "/";
  }

  /** A name is what path.Dir cleans, followed by its last component. */
  lemma DirSplits(t: string)
    requires NoDotDot(t) && ValidName(Last(t))
    ensures var s := t[..|t| - |Last(t)|];
      && Dir(t) == Clean(s) && NoDotDot(s) && Parts(t) == Parts(s) + [Last(t)]
      && (Rooted(t) <==> Rooted(s))
  {
    hide Last, Split, Keep, Clean, Parts, NoDotDot;
    var c := Last(t);
    var s := t[..|t| - |c|];
    assert t == s + c;
    assert s == "" || s[|s| - 1] == '/';
    PartsOfTail(s, c);
  }

  lemma PartsOfTail(s: string, c: string)
    requires s == "" || s[|s| - 1] == '/'
    requires ValidName(c)
    ensures Parts(s + c) == Parts(s) + [c]
    ensures NoDotDot(s + c) <==> NoDotDot(s)
    ensures Rooted(s + c) <==> Rooted(s)
  {
    PartsOfName(c);
    if s == "" {
      PlainDots();
      assert s + c == c;
      assert c[0] in c;
    } else {
      var u := s[..|s| - 1];
      assert s == u + "/" && s + c == u + "/" + c;
      PartsConcat(u, c);
      PartsTrailing(u);
    }
  }

  lemma TrimmedParts(name: string)
    ensures Parts(TrimRightSlashes(name)) == Parts(name)
    ensures NoDotDot(TrimRightSlashes(name)) <==> NoDotDot(name)
  {
    if name != "" && name[|name| - 1] == '/' {
      var s := name[..|name| - 1];
      assert name == s + "/";
      TrimmedParts(s);
      PartsTrailing(s);
    }
  }

  lemma TrimOneSlash(s: string, c: string)
    requires c != "" && NoSlash(c)
    ensures TrimRightSlashes(s + c + "/") == s + c
  {
    var n := s + c;
    assert (n + "/")[..|n|] == n;
    assert n[|n| - 1] == c[|c| - 1];
    assert c[|c| - 1] in c;
  }

  lemma LastIs(s: string, c: string)
    requires NoSlash(c)
    requires s == "" || s[|s| - 1] == '/'
    ensures Last(s + c) == c
  {
    var t := s + c;
    var r := Last(t);
    assert t[|t| - |c|..] == c;
    assert |r| == |c|;
  }

  /** A name that ends, but for slashes, in the name of an entry. */
  predicate PlainTail(name: string) {
    ValidName(Last(TrimRightSlashes(name)))
  }

  /** A cleaned name is something before its last component. */
  lemma CleanEnds(name: string) returns (s: string)
    requires NoDotDot(name) && Parts(name) != []
    ensures var p := Parts(name); var c := p[|p| - 1];
      ValidName(c) && Clean(name) == s + c && (s == "" || s[|s| - 1] == '/')
  {
    hide Clean, Split, Keep, NoDotDot, Parts, ValidName;
    CleanNoDotDot(name);
    PartsValid(name);
    var p := Parts(name);
    var front, c := p[..|p| - 1], p[|p| - 1];
    assert c in p && p == front + [c];
    s := if Rooted(name) then "/" else "";
    if front == [] {
      assert p == [c];
    } else {
      JoinConcat(front, [c]);
      assert s + Join(front) + "/" + c == s + (Join(front) + "/" + c);
      s := s + Join(front) + "/";
    }
  }

  lemma CleanNotEmpty(s: string)
    requires NoDotDot(s)
    ensures Clean(s) != "" && (Clean(s) == "." ==> Parts(s) == [])
  {
    hide Clean, Split, Keep, NoDotDot, Parts;
    CleanNoDotDot(s);
    PlainDots();
    if !Rooted(s) && Parts(s) != [] {
      PartsValid(s);
      JoinHead(Parts(s));
    }
  }
}
