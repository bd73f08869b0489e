/**
 Sub: a file system seen from one of its directories.
 */
module SubFs {
  import opened Data
  import opened GoPath
  import opened Tree
  import opened TreeFs

  // ---------------------------------------------------------------- names

  /** fs.ValidPath. */
  predicate FsValid(name: string) {
    name == "." || forall c :: c in Split(name) ==> ValidName(c)
  }

  /** A clean name other than "." and "/": one that a file system can be rooted at. */
  predicate SubDir(dir: string) {
    dir != "" && Clean(dir) == dir && dir != "." && dir != "/"
  }

  function Asked(name: string): string {
    var n := if Rooted(name) then name[1..] else name;
    if n == "" then "." else n
  }

  function FullName(dir: string, name: string): Result<string> {
    var n := Asked(name);
    if !FsValid(n) then Err(PathError(n, Invalid)) else Ok(PathJoin(dir, n))
  }

  function Shorten(dir: string, name: string): Option<string> {
    if name == dir then Some(".")
    else if |name| >= |dir| + 2 && name[|dir|] == '/' && name[..|dir|] == dir then Some(name[|dir| + 1..])
    else None
  }

  /** The components of a clean name as path.Clean leaves them. */
  lemma CleanStack(dir: string)
    requires SubDir(dir)
    ensures var st := Reduce([], Split(dir), Rooted(dir));
      st != [] && dir == (if Rooted(dir) then "/" else "") + Join(st)
  {
    var st := Reduce([], Split(dir), dir[0] == '/');
    if Rooted(dir) {
      assert Join([]) == "";
    }
  }

  lemma PushNames(st: seq<string>, p: Path, rooted: bool)
    requires ValidPath(p)
    ensures Reduce(st, p, rooted) == st + p
  {
    assert ".." !in p;
    ReduceKeeps(st, p, rooted);
    KeepAll(p);
  }

  /** Joining a valid name to a clean directory only puts a slash between them. */
  lemma JoinIsConcat(dir: string, n: string)
    requires SubDir(dir) && FsValid(n)
    ensures PathJoin(dir, n) == if n == "." then dir else dir + "/" + n
  {
    hide SubDir, Clean, Reduce, Split, Join;
    CleanStack(dir);
    var st := Reduce([], Split(dir), Rooted(dir));
    SplitConcat(dir, n);
    ReduceConcat([], Split(dir), Split(n), Rooted(dir));
    SubDirIs(dir);
    CleanIs(dir + "/" + n);
    assert Rooted(dir + "/" + n) <==> Rooted(dir);
    if n == "." {
      SplitNoSlash(".");
      ReduceOne(st, ".", Rooted(dir));
    } else {
      PushNames(st, Split(n), Rooted(dir));
      JoinConcat(st, Split(n));
      JoinSplit(n);
    }
  }

  lemma SubDirIs(dir: string)
    requires SubDir(dir)
    ensures dir != "" && Clean(dir) == dir
  {
  }

  lemma CleanIs(s: string)
    requires s != ""
    ensures var st := Reduce([], Split(s), Rooted(s));
      Clean(s) == if Rooted(s) then "/" + Join(st) else if st == [] then "." else Join(st)
  {
  }

  /** What path.Join makes of any directory and a valid name. */
  lemma JoinAny(dir: string, n: string)
    requires dir != "" && FsValid(n)
    ensures var st, root := Reduce([], Split(dir), Rooted(dir)), if Rooted(dir) then "/" else "";
      && Clean(dir) == (if !Rooted(dir) && st == [] then "." else root + Join(st))
      && (PathJoin(dir, n) == if n == "." then Clean(dir) else if st == [] then root + n else root + Join(st) + "/" + n)
  {
    hide Clean, Reduce, Split, Join, FsValid;
    var st := Reduce([], Split(dir), Rooted(dir));
    SplitConcat(dir, n);
    ReduceConcat([], Split(dir), Split(n), Rooted(dir));
    CleanIs(dir);
    CleanIs(dir + "/" + n);
    PathJoinIs(dir, n);
    assert Rooted(dir + "/" + n) <==> Rooted(dir);
    if n == "." {
      SplitNoSlash(".");
      ReduceOne(st, ".", Rooted(dir));
    } else {
      FsValidIs(n);
      PushNames(st, Split(n), Rooted(dir));
      JoinSplit(n);
      if st == [] {
        assert st + Split(n) == Split(n);
      } else {
        JoinConcat(st, Split(n));
        Stem(if Rooted(dir) then "/" else "", Join(st), n);
      }
    }
  }

  /** No name is cleaned to itself followed by "/.". */
  lemma CleanNoDot(dir: string)
    requires dir != ""
    ensures Clean(dir) != dir + "/" + "."
  {
    hide Reduce, Split, Join, Clean;
    var st := Reduce([], Split(dir), Rooted(dir));
    CleanIs(dir);
    SplitElements(dir);
    ReducePlain([], Split(dir), Rooted(dir));
    assert "" + Join(st) == Join(st) && |dir + "/" + "."| > |"."|;
    if Clean(dir) == dir + "/" + "." {
      SplitConcat(dir, ".");
      SplitNoSlash(".");
      assert (Split(dir) + ["."])[|Split(dir)|] == ".";
      assert "." in Split(Clean(dir));
      PlainSplit(st, Rooted(dir));
    }
  }

  lemma PlainSplit(st: seq<string>, rooted: bool)
    requires forall c :: c in st ==> c != "." && NoSlash(c)
    ensures "." !in Split((if rooted then "/" else "") + Join(st))
  {
    hide Split, Join;
    var s := Join(st);
    SplitNoSlash("");
    if st == [] {
      RootStack("/");
    } else {
      SplitJoin(st);
    }
    assert "" + s == s;
    if rooted {
      SplitConcat("", s);
      assert "" + "/" + s == "/" + s;
    }
  }

  /** Shortening gives back the name that was asked for, without its leading slash, exactly for a clean directory, and
      of "." and "/" only for themselves. */
  lemma ShortenUndoes(dir: string, name: string)
    requires dir != "" && FullName(dir, name).Ok?
    ensures Shorten(dir, FullName(dir, name).value) == Some(Asked(name)) <==>
      Clean(dir) == dir && (Asked(name) == "." || (dir != "." && dir != "/"))
  {
    hide Split, PathJoin, Clean, FsValid, Reduce, Join;
    var n, full := Asked(name), FullName(dir, name).value;
    JoinAny(dir, n);
    if n == "." {
      CleanNoDot(dir);
      assert Shorten(dir, full) == Some(".") ==> full == dir || full == dir + "/" + ".";
    } else {
      var st, root := Reduce([], Split(dir), Rooted(dir)), if Rooted(dir) then "/" else "";
      assert Shorten(dir, full) == Some(n) <==> full == dir + "/" + n;
      RootStack(dir);
      SameStem(root + Join(st), dir, n);
      if st == [] {
        assert |root + n| < |dir + "/" + n|;
        assert Join(st) == "" by { RootStack("/"); }
      }
    }
  }

  lemma RootStack(dir: string)
    ensures dir == "." || dir == "/" ==> Reduce([], Split(dir), Rooted(dir)) == []
    ensures Join([]) == ""
  {
    SplitNoSlash(".");
    assert Split("") == [""] && Split("/") == ["", ""];
    ReduceOne([], ".", false);
    ReduceStep([], "", [""], true);
    ReduceOne([], "", true);
    assert [""] + [""] == ["", ""];
  }

  lemma SameStem(a: string, b: string, n: string)
    ensures a + "/" + n == b + "/" + n <==> a == b
  {
    if a + "/" + n == b + "/" + n {
      assert a == (a + "/" + n)[..|a + "/" + n| - |n| - 1] == b;
    }
  }

  lemma SubShortens(dir: string, name: string)
    requires SubDir(dir) && FullName(dir, name).Ok?
    ensures Shorten(dir, FullName(dir, name).value) == Some(Asked(name))
  {
    hide Shorten, FullName, Asked, Clean;
    ShortenUndoes(dir, name);
  }

  /** Different names lead to different places, but for a leading slash. */
  lemma FullNameInjective(dir: string, a: string, b: string)
    requires SubDir(dir) && FullName(dir, a).Ok? && FullName(dir, b).Ok?
    requires FullName(dir, a) == FullName(dir, b)
    ensures Asked(a) == Asked(b)
  {
    hide SubDir, FullName, Shorten, Asked;
    SubShortens(dir, a);
    SubShortens(dir, b);
  }

  /** Of clean directories, "." is the one for which shortening does not undo FullName. */
  lemma DotDoesNotShorten(name: string)
    requires FullName(".", name).Ok? && Asked(name) != "."
    ensures Shorten(".", FullName(".", name).value) != Some(Asked(name))
  {
    hide Shorten, FullName, Asked;
    ShortenUndoes(".", name);
  }

  lemma FsValidIs(n: string)
    requires FsValid(n) && n != "."
    ensures ValidPath(Split(n))
  {
  }

  /** Names at or below dir. */
  lemma FullNameBelow(dir: string, name: string)
    requires SubDir(dir) && FullName(dir, name).Ok?
    ensures Resolve(FullName(dir, name).value) == Resolve(dir) + NamePath(name)
    ensures ValidPath(NamePath(name)) && (NamePath(name) == [] <==> Asked(name) == ".")
  {
    hide SubDir, PathJoin, Clean, Split, Reduce;
    var n := Asked(name);
    JoinIsConcat(dir, n);
    if n != "." {
      ResolveConcat(dir, n);
      PushNames(Resolve(dir), Split(n), true);
      assert Split(n)[0] in Split(n);
    }
  }

  /** The path a valid name stands for in the file system it is asked of. */
  function NamePath(name: string): Path {
    if Asked(name) == "." then [] else Split(Asked(name))
  }

  /** The spellings of the root that are accepted. */
  predicate NamesRoot(name: string) {
    name == "" || name == "/" || name == "." || name == "/."
  }

  /** The root by any of its names is the directory itself. */
  lemma FullNameRoot(dir: string, name: string)
    requires SubDir(dir) && NamesRoot(name)
    ensures FullName(dir, name) == Ok(dir)
    ensures FsValid(Asked(name)) && Asked(name) == "." && NamePath(name) == []
  {
    hide SubDir, PathJoin;
    JoinIsConcat(dir, ".");
  }

  /** A path, with a leading slash or without, is below the directory. */
  lemma FullNamePath(dir: string, p: Path)
    requires SubDir(dir) && ValidPath(p) && p != []
    ensures FullName(dir, Join(p)) == Ok(dir + "/" + Join(p)) && FullName(dir, Abs(p)) == Ok(dir + "/" + Join(p))
    ensures Asked(Join(p)) == Join(p) && Asked(Abs(p)) == Join(p) && FsValid(Join(p)) && Join(p) != "."
    ensures NamePath(Join(p)) == p && NamePath(Abs(p)) == p
  {
    hide SubDir, PathJoin, Join, Split;
    JoinHead(p);
    SplitJoin(p);
    SplitNoSlash(".");
    assert p[0] in p;
    assert Asked(Join(p)) == Join(p);
    assert Asked(Abs(p)) == Join(p);
    JoinIsConcat(dir, Join(p));
  }

  /** No other name is accepted, and the error gives what was asked for without its leading slash. */
  lemma FullNameOkIff(dir: string, name: string)
    ensures FullName(dir, name).Ok? <==>
      NamesRoot(name) || exists p :: p != [] && ValidPath(p) && (name == Join(p) || name == Abs(p))
    ensures FullName(dir, name).Err? ==>
      FullName(dir, name).error == PathError(if Rooted(name) then name[1..] else name, Invalid)
  {
    hide PathJoin, Join, Split;
    var n := Asked(name);
    if FullName(dir, name).Ok? && !NamesRoot(name) {
      assert n != ".";
      FsValidIs(n);
      JoinSplit(n);
      var p := Split(n);
      assert name == Join(p) || name == Abs(p);
    }
    if p :| p != [] && ValidPath(p) && (name == Join(p) || name == Abs(p)) {
      JoinHead(p);
      SplitJoin(p);
      assert n == Join(p);
    }
  }

  /** Sub of Sub: one after the other maps names as one Sub of the joined directory does. */
  lemma SubOfSub(a: string, b: string, name: string)
    requires SubDir(a) && SubDir(b) && NoDotDot(b) && FullName(b, name).Ok?
    ensures FullName(a, FullName(b, name).value) == FullName(PathJoin(a, b), name)
    ensures SubDir(PathJoin(a, b))
  {
    hide SubDir, PathJoin, Split, Clean, NoDotDot, FsValid;
    var n := Asked(name);
    JoinIsConcat(b, n);
    CleanRel(b);
    var b' := Asked(b);
    SubDirIs(b);
    NestedDir(a, b);
    JoinIsConcat(PathJoin(a, b), n);
    JoinIsConcat(a, b');
    if n != "." {
      var m := b' + "/" + n;
      ValidConcat(b', n);
      assert Asked(b + "/" + n) == m by {
        if Rooted(b) { assert (b + "/" + n)[1..] == b[1..] + "/" + n; }
      }
      JoinIsConcat(a, m);
      assert a + "/" + m == a + "/" + b' + "/" + n;
    }
  }

  lemma ValidConcat(b: string, n: string)
    requires FsValid(b) && FsValid(n) && b != "." && n != "."
    ensures FsValid(b + "/" + n) && b + "/" + n != "."
  {
    hide Split;
    SplitConcat(b, n);
    assert |b + "/" + n| > 1 by { if b == "" { SplitNoSlash(""); assert "" in Split(""); } }
  }

  /** A clean directory without ".." is a valid name once its leading slash is off. */
  lemma CleanRel(b: string)
    requires SubDir(b) && NoDotDot(b)
    ensures FsValid(Asked(b)) && Asked(b) != "." && !Rooted(Asked(b)) && Asked(b) != ""
    ensures Asked(b) == Join(Parts(b)) && Parts(b) != []
  {
    CleanNoDotDot(b);
    PartsValid(b);
    PartsJoin(Parts(b));
    if Parts(b) != [] {
      JoinHead(Parts(b));
      SplitJoin(Parts(b));
    }
  }

  lemma CleanUnder(a: string, b: string)
    requires SubDir(a) && NoDotDot(b) && Parts(b) != []
    ensures PathJoin(a, b) == a + "/" + Join(Parts(b))
  {
    hide SubDir, Clean, NoDotDot, Split, Parts, Reduce, Join;
    CleanStack(a);
    SubDirIs(a);
    PartsValid(b);
    var st := Reduce([], Split(a), Rooted(a));
    SplitConcat(a, b);
    ReduceConcat([], Split(a), Split(b), Rooted(a));
    NoDotDotIs(b);
    ReduceKeeps(st, Split(b), Rooted(a));
    CleanIs(a + "/" + b);
    JoinConcat(st, Parts(b));
    Stem(if Rooted(a) then "/" else "", Join(st), Join(Parts(b)));
    assert Rooted(a + "/" + b) <==> Rooted(a);
  }

  lemma Stem(root: string, s: string, t: string)
    ensures root + (s + "/" + t) == root + s + "/" + t
  {
  }

  lemma NestedDir(a: string, b: string)
    requires SubDir(a) && SubDir(b) && NoDotDot(b)
    ensures PathJoin(a, b) == a + "/" + Asked(b) && SubDir(PathJoin(a, b))
    ensures PathJoin(a, b) == PathJoin(a, Asked(b))
  {
    hide Clean, NoDotDot, Parts, PathJoin, Reduce;
    CleanRel(b);
    CleanUnder(a, b);
    JoinIsConcat(a, Asked(b));
    PartsValid(b);
    PartsJoin(Parts(b));
    CleanUnder(a, Asked(b));
    PathJoinIs(a, Asked(b));
    assert |PathJoin(a, b)| > 1;
  }

  lemma NoDotDotIs(b: string)
    requires NoDotDot(b)
    ensures ".." !in Split(b) && Keep(Split(b)) == Parts(b)
  {
  }

  // ---------------------------------------------------------------- trees

  /** The tree as it is seen from the directory d. */
  function Seen(t: Tree, d: Path): Tree {
    map q | q in (set r | r in t && d < r :: r[|d|..]) && d + q in t :: t[d + q]
  }

  lemma SeenAt(t: Tree, d: Path, q: Path)
    ensures q in Seen(t, d) <==> q != [] && d + q in t
    ensures q in Seen(t, d) ==> Seen(t, d)[q] == t[d + q]
  {
    if q != [] && d + q in t {
      assert (d + q)[|d|..] == q;
      assert d < d + q;
    }
    if q in Seen(t, d) {
      var r :| r in t && d < r && q == r[|d|..];
      assert q != [];
    }
  }

  function Shift(d: Path, op: Op): Op {
    match op
    case MkdirOp(p) => MkdirOp(d + p)
    case WriteOp(p, data) => WriteOp(d + p, data)
    case RenameOp(p, q) => RenameOp(d + p, d + q)
    case RemoveOp(p) => RemoveOp(d + p)
  }

  /** The operation is not on the root itself. */
  predicate OffRoot(op: Op) {
    match op
    case MkdirOp(p) => p != []
    case WriteOp(p, _) => p != []
    case RenameOp(p, q) => p != [] && q != []
    case RemoveOp(p) => p != []
  }

  lemma SeenKind(t: Tree, d: Path, p: Path)
    requires HasDir(t, d)
    ensures Has(Seen(t, d), p) <==> Has(t, d + p)
    ensures HasDir(Seen(t, d), p) <==> HasDir(t, d + p)
    ensures HasFile(Seen(t, d), p) <==> HasFile(t, d + p)
  {
    SeenAt(t, d, p);
    if p == [] { assert d + p == d; }
  }

  lemma ShiftedParent(d: Path, p: Path)
    requires p != []
    ensures Parent(d + p) == d + Parent(p)
  {
  }

  /** The answers are the same from inside. */
  lemma FaultShifts(t: Tree, d: Path, op: Op)
    requires HasDir(t, d) && OffRoot(op)
    ensures FaultOf(t, Shift(d, op)) == FaultOf(Seen(t, d), op)
  {
    hide Seen;
    match op
    case MkdirOp(p) => SeenKind(t, d, p); SeenKind(t, d, Parent(p)); ShiftedParent(d, p);
    case WriteOp(p, _) => SeenKind(t, d, p); SeenKind(t, d, Parent(p)); ShiftedParent(d, p);
    case RenameOp(p, q) =>
      SeenKind(t, d, p); SeenKind(t, d, q); SeenKind(t, d, Parent(q)); ShiftedParent(d, q);
      PrefixConcat(d, p, q);
    case RemoveOp(p) =>
  }

  /** What lies outside d. */
  function Outside(t: Tree, d: Path): Tree {
    map q | q in t && !(d < q) :: t[q]
  }

  lemma SeenPut(t: Tree, d: Path, p: Path, n: Node)
    requires p != []
    ensures Seen(t[d + p := n], d) == Seen(t, d)[p := n]
    ensures Outside(t[d + p := n], d) == Outside(t, d)
  {
    hide Seen;
    var a, b := Seen(t[d + p := n], d), Seen(t, d)[p := n];
    forall q ensures (q in a <==> q in b) && (q in a ==> a[q] == b[q]) {
      SeenAt(t[d + p := n], d, q);
      SeenAt(t, d, q);
      PrefixConcat(d, p, q);
    }
    assert d < d + p;
  }

  lemma SeenWithout(t: Tree, d: Path, p: Path)
    requires p != []
    ensures Seen(Without(t, d + p), d) == Without(Seen(t, d), p)
    ensures Outside(Without(t, d + p), d) == Outside(t, d)
  {
    hide Seen;
    var a, b := Seen(Without(t, d + p), d), Without(Seen(t, d), p);
    forall q ensures (q in a <==> q in b) && (q in a ==> a[q] == b[q]) {
      SeenAt(Without(t, d + p), d, q);
      SeenAt(t, d, q);
      PrefixConcat(d, p, q);
    }
    var u, v := Outside(Without(t, d + p), d), Outside(t, d);
    forall q ensures (q in u <==> q in v) && (q in u ==> u[q] == v[q]) {
      assert d + p <= q ==> d < q;
    }
  }

  lemma SeenMove(t: Tree, d: Path, p: Path, q: Path)
    requires p != [] && q != []
    ensures Seen(Move(t, d + p, d + q), d) == Move(Seen(t, d), p, q)
    ensures Outside(Move(t, d + p, d + q), d) == Outside(t, d)
  {
    hide Seen, Move;
    var a, b := Seen(Move(t, d + p, d + q), d), Move(Seen(t, d), p, q);
    forall r ensures (r in a <==> r in b) && (r in a ==> a[r] == b[r]) {
      SeenMoveAt(t, d, p, q, r);
    }
    var u, v := Outside(Move(t, d + p, d + q), d), Outside(t, d);
    forall r ensures (r in u <==> r in v) && (r in u ==> u[r] == v[r]) {
      MoveAt(t, d + p, d + q, r);
      assert d + q <= r ==> d < r;
      assert d + p <= r ==> d < r;
    }
  }

  lemma SeenMoveAt(t: Tree, d: Path, p: Path, q: Path, r: Path)
    requires p != [] && q != []
    ensures var a, b := Seen(Move(t, d + p, d + q), d), Move(Seen(t, d), p, q);
      (r in a <==> r in b) && (r in a ==> a[r] == b[r])
  {
    hide Seen, Move;
    SeenAt(Move(t, d + p, d + q), d, r);
    MoveAt(t, d + p, d + q, d + r);
    MoveAt(Seen(t, d), p, q, r);
    SeenAt(t, d, r);
    PrefixConcat(d, p, r);
    PrefixConcat(d, q, r);
    if q <= r {
      assert (d + r)[|d + q|..] == r[|q|..];
      assert d + p + r[|q|..] == d + (p + r[|q|..]);
      SeenAt(t, d, p + r[|q|..]);
    }
  }

  /** The operation does inside d what it should, and nothing outside. */
  lemma ApplyShifts(t: Tree, d: Path, op: Op)
    requires HasDir(t, d) && OffRoot(op)
    ensures Seen(Apply(t, Shift(d, op)), d) == Apply(Seen(t, d), op)
    ensures Outside(Apply(t, Shift(d, op)), d) == Outside(t, d)
  {
    hide Seen, Outside, Move, Without;
    match op
    case MkdirOp(p) =>
      SeenKind(t, d, p); SeenKind(t, d, Parent(p)); ShiftedParent(d, p); SeenPut(t, d, p, Dir);
    case WriteOp(p, data) =>
      SeenKind(t, d, p); SeenKind(t, d, Parent(p)); ShiftedParent(d, p); SeenPut(t, d, p, File(data));
    case RenameOp(p, q) =>
      RenameShifts(t, d, p, q);
    case RemoveOp(p) =>
      SeenWithout(t, d, p);
  }

  lemma RenameShifts(t: Tree, d: Path, p: Path, q: Path)
    requires HasDir(t, d) && p != [] && q != []
    ensures Seen(Apply(t, RenameOp(d + p, d + q)), d) == Apply(Seen(t, d), RenameOp(p, q))
    ensures Outside(Apply(t, RenameOp(d + p, d + q)), d) == Outside(t, d)
  {
    hide Seen, Outside, Move, Without;
    SeenKind(t, d, p);
    SeenKind(t, d, q);
    SeenKind(t, d, Parent(q));
    ShiftedParent(d, q);
    PrefixConcat(d, p, q);
    SeenAt(t, d, p);
    if HasFile(t, d + p) && HasFile(t, d + q) {
      SeenWithout(t, d, p);
      SeenPut(Without(t, d + p), d, q, t[d + p]);
    }
    SeenMove(t, d, p, q);
  }

  // ---------------------------------------------------------------- the file system

  /** fixErr: the names in errors are shortened. */
  function FixErr(dir: string, e: PathError): PathError {
    match Shorten(dir, e.path)
    case Some(short) => e.(path := short)
    case None => e
  }

  /** What an operation on a valid name other than the root answers, as the file system rooted at the
      directory would. */
  ghost predicate Answers(t: Tree, t': Tree, dir: string, op: Op, name: string, err: Option<PathError>) {
    var d := Resolve(dir);
    && Seen(t', d) == Apply(Seen(t, d), op) && Outside(t', d) == Outside(t, d)
    && err == match FaultOf(Seen(t, d), op) case None => None case Some(f) => Some(PathError(Asked(name), f))
  }

  /** The operation is handed on to the place the name leads to, and the error names what was asked for. */
  ghost predicate HandedOn(t: Tree, t': Tree, dir: string, op: Op, name: string, err: Option<PathError>) {
    var below := Shift(Resolve(dir), op);
    && t' == Apply(t, below)
    && err == match FaultOf(t, below) case None => None case Some(f) => Some(PathError(Asked(name), f))
  }

  lemma Answered(t: Tree, dir: string, name: string, op: Op, err: Option<PathError>)
    requires SubDir(dir) && HasDir(t, Resolve(dir)) && FullName(dir, name).Ok?
    requires err == match FaultOf(t, Shift(Resolve(dir), op)) case None => None
                    case Some(f) => Some(FixErr(dir, PathError(FullName(dir, name).value, f)))
    ensures HandedOn(t, Apply(t, Shift(Resolve(dir), op)), dir, op, name, err)
    ensures OffRoot(op) ==> Answers(t, Apply(t, Shift(Resolve(dir), op)), dir, op, name, err)
  {
    hide SubDir, Resolve, FullName, Seen, Outside, Apply, FaultOf, Shorten, Asked, OffRoot;
    SubShortens(dir, name);
    if OffRoot(op) {
      ApplyShifts(t, Resolve(dir), op);
      FaultShifts(t, Resolve(dir), op);
    }
  }

  /** What the operations answer on the directory itself. */
  lemma RootAnswered(t: Tree, t': Tree, dir: string, op: Op, name: string, err: Option<PathError>)
    requires SubDir(dir) && HasDir(t, Resolve(dir)) && HandedOn(t, t', dir, op, name, err)
    ensures NamesRoot(name) && op == MkdirOp([]) ==> err == Some(PathError(".", Present)) && t' == t
    ensures NamesRoot(name) && op.WriteOp? && op.p == [] ==> err == Some(PathError(".", IsDirectory)) && t' == t
    ensures NamesRoot(name) && op == RemoveOp([]) && Resolve(dir) != [] ==>
      err == None && t' == Without(t, Resolve(dir))
    ensures NamesRoot(name) ==> FsValid(Asked(name)) && NamePath(name) == []
  {
    hide Resolve, Without;
    if NamesRoot(name) { FullNameRoot(dir, name); }
    assert Resolve(dir) + [] == Resolve(dir);
  }

  class Sub {
    const source: Fs
    const dir: string

    constructor (source: Fs, dir: string)
      ensures this.source == source && this.dir == dir
    {
      this.source := source;
      this.dir := dir;
    }

    method Mkdir(name: string) returns (err: Option<PathError>)
      requires SubDir(dir) && HasDir(source.tree, Resolve(dir))
      modifies source`tree
      ensures !FsValid(Asked(name)) ==> err == Some(PathError(Asked(name), Invalid)) && source.tree == old(source.tree)
      ensures FsValid(Asked(name)) ==>
        HandedOn(old(source.tree), source.tree, dir, MkdirOp(NamePath(name)), name, err)
      ensures NamesRoot(name) ==> err == Some(PathError(".", Present)) && source.tree == old(source.tree)
      ensures FsValid(Asked(name)) && Asked(name) != "." ==>
        Answers(old(source.tree), source.tree, dir, MkdirOp(NamePath(name)), name, err)
    {
      hide SubDir, Resolve, Answers, HandedOn, Shorten, FixErr, NamePath;
      var full := FullName(dir, name);
      if full.Err? {
        return Some(full.error);
      }
      FullNameBelow(dir, name);
      var e := source.Mkdir(full.value);
      err := match e case None => None case Some(x) => Some(FixErr(dir, x));
      Answered(old(source.tree), dir, name, MkdirOp(NamePath(name)), err);
      RootAnswered(old(source.tree), source.tree, dir, MkdirOp(NamePath(name)), name, err);
    }

    method WriteFile(name: string, data: Bytes) returns (err: Option<PathError>)
      requires SubDir(dir) && HasDir(source.tree, Resolve(dir))
      modifies source`tree
      ensures !FsValid(Asked(name)) ==> err == Some(PathError(Asked(name), Invalid)) && source.tree == old(source.tree)
      ensures FsValid(Asked(name)) ==>
        HandedOn(old(source.tree), source.tree, dir, WriteOp(NamePath(name), data), name, err)
      ensures NamesRoot(name) ==> err == Some(PathError(".", IsDirectory)) && source.tree == old(source.tree)
      ensures FsValid(Asked(name)) && Asked(name) != "." ==>
        Answers(old(source.tree), source.tree, dir, WriteOp(NamePath(name), data), name, err)
    {
      hide SubDir, Resolve, Answers, HandedOn, Shorten, FixErr, NamePath;
      var full := FullName(dir, name);
      if full.Err? {
        return Some(full.error);
      }
      FullNameBelow(dir, name);
      var e := source.WriteFile(full.value, data);
      err := match e case None => None case Some(x) => Some(FixErr(dir, x));
      Answered(old(source.tree), dir, name, WriteOp(NamePath(name), data), err);
      RootAnswered(old(source.tree), source.tree, dir, WriteOp(NamePath(name), data), name, err);
    }

    method RemoveAll(name: string) returns (err: Option<PathError>)
      requires SubDir(dir) && HasDir(source.tree, Resolve(dir))
      modifies source`tree
      ensures !FsValid(Asked(name)) ==> err == Some(PathError(Asked(name), Invalid)) && source.tree == old(source.tree)
      ensures FsValid(Asked(name)) ==>
        HandedOn(old(source.tree), source.tree, dir, RemoveOp(NamePath(name)), name, err)
      ensures NamesRoot(name) && Resolve(dir) != [] ==>
        err == None && source.tree == Without(old(source.tree), Resolve(dir))
      ensures FsValid(Asked(name)) && Asked(name) != "." ==>
        Answers(old(source.tree), source.tree, dir, RemoveOp(NamePath(name)), name, err)
    {
      hide SubDir, Resolve, Answers, HandedOn, Shorten, FixErr, NamePath;
      var full := FullName(dir, name);
      if full.Err? {
        return Some(full.error);
      }
      FullNameBelow(dir, name);
      var e := source.RemoveAll(full.value);
      err := match e case None => None case Some(x) => Some(FixErr(dir, x));
      Answered(old(source.tree), dir, name, RemoveOp(NamePath(name)), err);
      RootAnswered(old(source.tree), source.tree, dir, RemoveOp(NamePath(name)), name, err);
    }

    method Rename(oldName: string, newName: string) returns (err: Option<PathError>)
      requires SubDir(dir) && HasDir(source.tree, Resolve(dir))
      modifies source`tree
      ensures !FsValid(Asked(oldName)) ==>
        err == Some(PathError(Asked(oldName), Invalid)) && source.tree == old(source.tree)
      ensures FsValid(Asked(oldName)) && !FsValid(Asked(newName)) ==>
        err == Some(PathError(Asked(newName), Invalid)) && source.tree == old(source.tree)
      ensures FsValid(Asked(oldName)) && FsValid(Asked(newName)) ==>
        HandedOn(old(source.tree), source.tree, dir, RenameOp(NamePath(oldName), NamePath(newName)), oldName, err)
      ensures FsValid(Asked(oldName)) && FsValid(Asked(newName)) && Asked(oldName) != "." && Asked(newName) != "." ==>
        Answers(old(source.tree), source.tree, dir, RenameOp(NamePath(oldName), NamePath(newName)), oldName, err)
    {
      hide SubDir, Resolve, Answers, HandedOn, Shorten, FixErr, NamePath;
      var oldFull := FullName(dir, oldName);
      if oldFull.Err? {
        return Some(oldFull.error);
      }
      var newFull := FullName(dir, newName);
      if newFull.Err? {
        return Some(newFull.error);
      }
      FullNameBelow(dir, oldName);
      FullNameBelow(dir, newName);
      var e := source.Rename(oldFull.value, newFull.value);
      err := match e case None => None case Some(x) => Some(FixErr(dir, x));
      Answered(old(source.tree), dir, oldName, RenameOp(NamePath(oldName), NamePath(newName)), err);
    }

    method Stat(name: string) returns (r: Result<Node>)
      requires SubDir(dir) && HasDir(source.tree, Resolve(dir))
      ensures !FsValid(Asked(name)) ==> r == Err(PathError(Asked(name), Invalid))
      ensures FsValid(Asked(name)) ==>
        var s, p := Seen(source.tree, Resolve(dir)), NamePath(name);
        r == if p == [] then Ok(Dir) else if p in s then Ok(s[p]) else Err(PathError(Asked(name), NotFound))
      ensures NamesRoot(name) ==> r == Ok(Dir)
      ensures forall p :: p != [] && ValidPath(p) && (name == Join(p) || name == Abs(p)) ==>
        var q := Resolve(dir) + p;
        r == if q in source.tree then Ok(source.tree[q]) else Err(PathError(Join(p), NotFound))
    {
      hide SubDir, Resolve, Seen, Shorten, Join, Abs, ValidPath, FsValid, NamePath, Asked;
      if NamesRoot(name) { FullNameRoot(dir, name); }
      forall p | p != [] && ValidPath(p) && (name == Join(p) || name == Abs(p))
        ensures FsValid(Asked(name)) && NamePath(name) == p && Asked(name) == Join(p)
      {
        FullNamePath(dir, p);
      }
      var full := FullName(dir, name);
      if full.Err? {
        return Err(full.error);
      }
      FullNameBelow(dir, name);
      SubShortens(dir, name);
      SeenAt(source.tree, Resolve(dir), NamePath(name));
      assert NamePath(name) == [] ==> Resolve(dir) + NamePath(name) == Resolve(dir);
      var info := source.Stat(full.value);
      r := if info.Err? then Err(FixErr(dir, info.error)) else info;
    }

    /** Opening for reading, and reading everything. */
    method ReadFile(name: string) returns (r: Result<Bytes>)
      requires SubDir(dir) && HasDir(source.tree, Resolve(dir))
      ensures !FsValid(Asked(name)) ==> r == Err(PathError(Asked(name), Invalid))
      ensures FsValid(Asked(name)) ==>
        var s, p := Seen(source.tree, Resolve(dir)), NamePath(name);
        r == if Resolve(dir) + p in source.denied then Err(PathError(Asked(name), Denied))
             else if HasFile(s, p) then Ok(s[p].data) else Err(PathError(Asked(name), NotFound))
    {
      hide SubDir, Resolve, Seen, Shorten;
      var full := FullName(dir, name);
      if full.Err? {
        return Err(full.error);
      }
      FullNameBelow(dir, name);
      SubShortens(dir, name);
      SeenAt(source.tree, Resolve(dir), NamePath(name));
      DirNotFile(source.tree, Resolve(dir), NamePath(name));
      var data := source.ReadFile(full.value);
      r := if data.Err? then Err(FixErr(dir, data.error)) else data;
    }
  }

  lemma DirNotFile(t: Tree, d: Path, p: Path)
    requires HasDir(t, d)
    ensures p == [] ==> !HasFile(t, d + p)
  {
    assert p == [] ==> d + p == d;
  }
}
