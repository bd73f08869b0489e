/**
 A file system that behaves as the reference tree does and resolves every name lexically, as
 webdav.Dir and the in-memory file system do: path.Clean("/" + name).
 */
module TreeFs {
  import opened Data
  import opened GoPath
  import opened Tree

  /** The path a name stands for; ".." at the top stays at the top. */
  function Resolve(name: string): Path {
    Reduce([], Split(name), true)
  }

  datatype PathError = PathError(path: string, fault: Fault)

  datatype Result<+T> = Ok(value: T) | Err(error: PathError)

  datatype DirEntry = DirEntry(name: string, isDir: bool)

  /** The entries of the directory p. */
  function Entries(t: Tree, p: Path): set<DirEntry> {
    set q | q in t && q != [] && Parent(q) == p :: DirEntry(q[|q| - 1], t[q] == Dir)
  }

  ghost predicate Distinct<T>(s: seq<T>) {
    forall i, j :: 0 <= i < j < |s| ==> s[i] != s[j]
  }

  // ---------------------------------------------------------------- resolving names

  predicate Stack(st: seq<string>) {
    forall c :: c in st ==> ValidName(c)
  }

  lemma {:induction false} ReduceStack(st: seq<string>, cs: seq<string>)
    requires Stack(st) && forall c :: c in cs ==> NoSlash(c)
    ensures Stack(Reduce(st, cs, true))
    decreases |cs|
  {
    if cs != [] {
      assert cs[0] in cs;
      PushStack(st, cs[0]);
      ReduceStack(Push(st, cs[0], true), cs[1..]);
    }
  }

  lemma PushStack(st: seq<string>, c: string)
    requires Stack(st) && NoSlash(c)
    ensures Stack(Push(st, c, true))
    ensures Push(st, c, true) ==
      if c == "" || c == "." then st
      else if c == ".." then if st == [] then [] else st[..|st| - 1]
      else st + [c]
  {
    if st != [] { assert st[|st| - 1] in st; }
  }

  lemma ResolveValid(name: string)
    ensures ValidPath(Resolve(name))
  {
    SplitElements(name);
    ReduceStack([], Split(name));
  }

  lemma ResolveParts(name: string)
    requires NoDotDot(name)
    ensures Resolve(name) == Parts(name)
  {
    ReduceKeeps([], Split(name), true);
    assert [] + Keep(Split(name)) == Keep(Split(name));
  }

  lemma ResolveConcat(a: string, b: string)
    ensures Resolve(a + "/" + b) == Reduce(Resolve(a), Split(b), true)
  {
    SplitConcat(a, b);
    ReduceConcat([], Split(a), Split(b), true);
  }

  lemma ResolveSlash(a: string)
    ensures Resolve(a + "/") == Resolve(a) && Resolve("/" + a) == Resolve(a)
  {
    ResolveConcat(a, "");
    assert a + "/" + "" == a + "/";
    SplitNoSlash("");
    SplitConcat("", a);
    assert "" + "/" + a == "/" + a;
    assert Split("/" + a) == [""] + Split(a);
    assert ([""] + Split(a))[1..] == Split(a);
  }

  predicate Dots(cs: seq<string>) {
    forall c :: c in cs ==> c == ".."
  }

  /** Cleaning without a root keeps leading ".." that resolving drops; otherwise they agree. */
  predicate Alike(a: seq<string>, b: seq<string>) {
    |b| <= |a| && Dots(a[..|a| - |b|]) && a[|a| - |b|..] == b && Stack(b)
  }

  lemma PushAlike(a: seq<string>, b: seq<string>, c: string)
    requires Alike(a, b) && NoSlash(c)
    ensures Alike(Push(a, c, false), Push(b, c, true))
  {
    PushStack(b, c);
    var d := a[..|a| - |b|];
    assert a == d + b;
    var a', b' := Push(a, c, false), Push(b, c, true);
    if c == "" || c == "." {
    } else if c == ".." {
      if b != [] {
        assert a[|a| - 1] == b[|b| - 1] && b[|b| - 1] in b;
        assert a' == d + b';
      } else {
        if a != [] { assert a[|a| - 1] in d; }
        assert a' == d + [".."];
        assert a'[..|a'|] == a';
      }
    } else {
      assert a' == d + b';
    }
  }

  lemma {:induction false} ReduceBoth(a: seq<string>, b: seq<string>, cs: seq<string>)
    requires Alike(a, b) && forall c :: c in cs ==> NoSlash(c)
    ensures Alike(Reduce(a, cs, false), Reduce(b, cs, true))
    decreases |cs|
  {
    hide Alike;
    if cs != [] {
      assert cs[0] in cs;
      PushAlike(a, b, cs[0]);
      ReduceBoth(Push(a, cs[0], false), Push(b, cs[0], true), cs[1..]);
    }
  }

  lemma {:induction false} ReduceDots(d: seq<string>, st: seq<string>)
    requires Dots(d) && Stack(st)
    ensures Reduce([], d + st, true) == st
    decreases |d|
  {
    if d == [] {
      assert d + st == st;
      assert ".." !in st;
      ReduceKeeps([], st, true);
      KeepAll(st);
      assert [] + st == st;
    } else {
      assert d[0] in d;
      assert d + st == [".."] + (d[1..] + st);
      ReduceStep([], "..", d[1..] + st, true);
      assert forall c :: c in d[1..] ==> c in d;
      ReduceDots(d[1..], st);
    }
  }

  /** Cleaning a name does not change what it stands for. */
  lemma ResolveClean(name: string)
    ensures Resolve(Clean(name)) == Resolve(name)
  {
    hide Reduce, Split, Join;
    SplitElements(name);
    SplitNoSlash(".");
    SplitNoSlash("");
    ReduceOne([], ".", true);
    ReduceOne([], "", true);
    var cs := Split(name);
    var a, b := Reduce([], cs, false), Reduce([], cs, true);
    ReduceBoth([], [], cs);
    if name != "" && name[0] == '/' {
      ResolveSlash(Join(b));
      ResolveJoin([], b);
      assert [] + b == b;
    } else if name != "" {
      var d := a[..|a| - |b|];
      assert a == d + b;
      ResolveJoin(d, b);
    }
  }

  lemma ResolveJoin(d: seq<string>, b: Path)
    requires Dots(d) && Stack(b)
    ensures Resolve(Join(d + b)) == b
  {
    ReduceDots(d, b);
    if d + b == [] {
      SplitNoSlash("");
    } else {
      assert forall c :: c in d + b ==> NoSlash(c);
      SplitJoin(d + b);
    }
  }

  lemma ResolvePathJoin(a: string, c: string)
    requires ValidName(c)
    ensures Resolve(PathJoin(a, c)) == Resolve(a) + [c]
  {
    hide Reduce, Split, Clean;
    SplitNoSlash(c);
    SplitNoSlash("");
    ReduceOne([], "", true);
    ReduceOne(Resolve(a), c, true);
    if a == "" {
      ResolveClean(c);
    } else {
      ResolveClean(a + "/" + c);
      ResolveConcat(a, c);
    }
  }

  // ---------------------------------------------------------------- the file system

  class Fs {
    var tree: Tree
    /** What cannot be opened. */
    var denied: set<Path>

    constructor (tree: Tree)
      ensures this.tree == tree && denied == {}
    {
      this.tree := tree;
      denied := {};
    }

    method Stat(name: string) returns (r: Result<Node>)
      ensures r == if Resolve(name) == [] then Ok(Dir)
                   else if Resolve(name) in tree then Ok(tree[Resolve(name)])
                   else Err(PathError(name, NotFound))
    {
      var p := Resolve(name);
      if p == [] {
        return Ok(Dir);
      }
      r := if p in tree then Ok(tree[p]) else Err(PathError(name, NotFound));
    }

    method Perform(name: string, op: Op) returns (err: Option<PathError>)
      modifies this`tree
      ensures tree == Apply(old(tree), op)
      ensures err == match FaultOf(old(tree), op) case None => None case Some(f) => Some(PathError(name, f))
    {
      var f := FaultOf(tree, op);
      tree := Apply(tree, op);
      err := match f case None => None case Some(k) => Some(PathError(name, k));
    }

    method Mkdir(name: string) returns (err: Option<PathError>)
      modifies this`tree
      ensures tree == Apply(old(tree), MkdirOp(Resolve(name)))
      ensures err == match FaultOf(old(tree), MkdirOp(Resolve(name)))
                     case None => None
                     case Some(f) => Some(PathError(name, f))
    {
      err := Perform(name, MkdirOp(Resolve(name)));
    }

    /** Opening with O_CREATE and O_TRUNC, one write of all the data, and Close. */
    method WriteFile(name: string, data: Bytes) returns (err: Option<PathError>)
      modifies this`tree
      ensures tree == Apply(old(tree), WriteOp(Resolve(name), data))
      ensures err == match FaultOf(old(tree), WriteOp(Resolve(name), data))
                     case None => None
                     case Some(f) => Some(PathError(name, f))
    {
      err := Perform(name, WriteOp(Resolve(name), data));
    }

    method Rename(oldName: string, newName: string) returns (err: Option<PathError>)
      modifies this`tree
      ensures tree == Apply(old(tree), RenameOp(Resolve(oldName), Resolve(newName)))
      ensures err == match FaultOf(old(tree), RenameOp(Resolve(oldName), Resolve(newName)))
                     case None => None
                     case Some(f) => Some(PathError(oldName, f))
    {
      err := Perform(oldName, RenameOp(Resolve(oldName), Resolve(newName)));
    }

    method RemoveAll(name: string) returns (err: Option<PathError>)
      modifies this`tree
      ensures tree == Apply(old(tree), RemoveOp(Resolve(name)))
      ensures err == match FaultOf(old(tree), RemoveOp(Resolve(name)))
                     case None => None
                     case Some(f) => Some(PathError(name, f))
    {
      err := Perform(name, RemoveOp(Resolve(name)));
    }

    /** Opening for reading, and reading everything. */
    method ReadFile(name: string) returns (r: Result<Bytes>)
      ensures r == if Resolve(name) in denied then Err(PathError(name, Denied))
                   else if HasFile(tree, Resolve(name)) then Ok(tree[Resolve(name)].data)
                   else Err(PathError(name, NotFound))
    {
      var p := Resolve(name);
      r := if p in denied then Err(PathError(name, Denied))
           else if HasFile(tree, p) then Ok(tree[p].data)
           else Err(PathError(name, NotFound));
    }

    /** Opening a directory, and file.Readdir(-1): the entries in any order. */
    method Readdir(name: string) returns (r: Result<seq<DirEntry>>)
      ensures Resolve(name) in denied || !HasDir(tree, Resolve(name)) ==> r.Err?
      ensures Resolve(name) !in denied && HasDir(tree, Resolve(name)) ==>
        r.Ok? && Distinct(r.value) && forall e :: e in r.value <==> e in Entries(tree, Resolve(name))
    {
      var p := Resolve(name);
      if p in denied || !HasDir(tree, p) {
        return Err(PathError(name, Denied));
      }
      var es: seq<DirEntry> := [];
      var todo := Entries(tree, p);
      while todo != {}
        invariant todo <= Entries(tree, p)
        invariant Distinct(es) && forall e :: e in es <==> e in Entries(tree, p) - todo
        decreases todo
      {
        var e :| e in todo;
        assert e !in es;
        es := es + [e];
        todo := todo - {e};
      }
      r := Ok(es);
    }
  }
}
