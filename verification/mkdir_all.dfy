/**
 MkdirAll: creating a directory and whatever is missing above it, from a name in any spelling.
 */
module MkdirAllUtil {
  import opened Data
  import opened GoPath
  import opened Tree
  import opened TreeFs

  // ---------------------------------------------------------------- what it should do

  /** p and everything above it, but the root. */
  function Chain(p: Path): set<Path> {
    set i | 0 < i <= |p| :: p[..i]
  }

  /** The tree with p and everything above it as directories. */
  function WithDirs(t: Tree, p: Path): Tree {
    t + map q | q in Chain(p) :: Dir
  }

  /** Neither p nor anything above it is a file. */
  ghost predicate NoFileOn(t: Tree, p: Path) {
    forall q :: q <= p ==> !HasFile(t, q)
  }

  lemma WithDirsAt(t: Tree, p: Path, q: Path)
    ensures q in WithDirs(t, p) <==> q in t || (q != [] && q <= p)
    ensures q in WithDirs(t, p) ==> WithDirs(t, p)[q] == if q != [] && q <= p then Dir else t[q]
  {
    if q != [] && q <= p {
      assert q == p[..|q|];
    }
  }

  /** With nothing in the way, directories are only added. */
  lemma WithDirsExtends(t: Tree, p: Path)
    requires NoFileOn(t, p)
    ensures forall q :: q in t ==> q in WithDirs(t, p) && WithDirs(t, p)[q] == t[q]
    ensures HasDir(WithDirs(t, p), p)
  {
    forall q | q in t ensures q in WithDirs(t, p) && WithDirs(t, p)[q] == t[q] {
      WithDirsAt(t, p, q);
      assert q <= p ==> !HasFile(t, q);
    }
    WithDirsAt(t, p, p);
  }

  /** Going down one name at a time comes to the same. */
  lemma WithDirsStep(t: Tree, p: Path, c: string)
    ensures WithDirs(t, p + [c]) == WithDirs(t, p)[p + [c] := Dir]
  {
    var a, b := WithDirs(t, p + [c]), WithDirs(t, p)[p + [c] := Dir];
    forall q ensures (q in a <==> q in b) && (q in a ==> a[q] == b[q]) {
      WithDirsAt(t, p + [c], q);
      WithDirsAt(t, p, q);
      assert q <= p + [c] <==> q <= p || q == p + [c] by {
        if q <= p + [c] && |q| == |p| + 1 { assert q == p + [c]; }
      }
    }
  }

  lemma WithDirsThere(t: Tree, p: Path)
    requires WellFormed(t) && HasDir(t, p)
    ensures WithDirs(t, p) == t && NoFileOn(t, p)
  {
    forall q | q <= p ensures HasDir(t, q) && !HasFile(t, q) {
      assert q != p && q != [] ==> q < p && p in t;
    }
    assert NoFileOn(t, p);
    var t' := WithDirs(t, p);
    forall q ensures (q in t' <==> q in t) && (q in t ==> t'[q] == t[q]) {
      WithDirsAt(t, p, q);
      assert q <= p ==> HasDir(t, q);
    }
  }

  // ---------------------------------------------------------------- splitting the name

  /** What MkdirAll takes for the last element of the path, and what comes before its separator. */
  predicate SplitsAt(path: string, i: nat, j: nat) {
    && j <= i <= |path|
    && (forall k :: i <= k < |path| ==> path[k] == '/')
    && (i > 0 ==> path[i - 1] != '/')
    && (forall k :: j <= k < i ==> path[k] != '/')
    && (j > 0 ==> path[j - 1] == '/')
  }

  lemma ElementName(path: string, i: nat, j: nat)
    requires j <= i <= |path| && SplitsAt(path, i, j) && i > 0
    ensures NoSlash(path[j..i]) && path[j..i] != ""
    ensures var head := if j > 1 then Resolve(path[..j - 1]) else [];
      Resolve(path) == Push(head, path[j..i], true)
    ensures Resolve(path[..i]) == Resolve(path)
    ensures NoDotDot(path) ==> (j > 1 ==> NoDotDot(path[..j - 1])) && path[j..i] != ".."
  {
    hide Reduce, Split, Push;
    var c := path[j..i];
    SplitNoSlash(c);
    TrailingSlashes(path, i);
    ResolveEmpty();
    if j == 0 {
      assert path[..i] == c;
      ReduceOne([], c, true);
      assert NoDotDot(path) ==> c != ".." by { assert c in Split(c); }
    } else {
      var a := path[..j - 1];
      assert path[..i] == a + "/" + c;
      ResolveConcat(a, c);
      ReduceOne(Resolve(a), c, true);
      SplitConcat(a, c);
      if j == 1 { assert a == ""; }
      assert [c][0] == c;
    }
  }

  lemma ResolveEmpty()
    ensures Resolve("") == []
  {
    SplitNoSlash("");
    ReduceOne([], "", true);
  }

  lemma TrailingSlashes(path: string, i: nat)
    requires i <= |path| && forall k :: i <= k < |path| ==> path[k] == '/'
    ensures Resolve(path) == Resolve(path[..i]) && (NoDotDot(path) <==> NoDotDot(path[..i]))
    decreases |path|
  {
    if i < |path| {
      var s := path[..|path| - 1];
      assert path == s + "/";
      ResolveSlash(s);
      PartsTrailing(s);
      TrailingSlashes(s, i);
      assert s[..i] == path[..i];
    } else {
      assert path[..i] == path;
    }
  }

  lemma AllSlashes(path: string)
    requires forall k :: 0 <= k < |path| ==> path[k] == '/'
    ensures Resolve(path) == []
  {
    TrailingSlashes(path, 0);
    assert path[..0] == "";
    ResolveEmpty();
  }

  // ---------------------------------------------------------------- the operation

  /** The end of an element of the path. */
  predicate Boundary(path: string, i: nat) {
    i <= |path| && (i == |path| || path[i] == '/')
  }

  /** From the i-th character on no beginning of the path leads to anything. */
  ghost predicate Missing(t: Tree, path: string, i: nat) {
    forall k :: i <= k <= |path| && Boundary(path, k) ==> !Has(t, Resolve(path[..k]))
  }

  /** The beginnings of the path after the last one that is there. */
  ghost function Trail(t: Tree, path: string): set<Path> {
    set i | 0 <= i <= |path| && Boundary(path, i) && Missing(t, path, i) :: Resolve(path[..i])
  }

  /** The last beginning of the path that is there is a file. */
  ghost predicate Blocked(t: Tree, path: string) {
    exists i :: 0 <= i <= |path| && Boundary(path, i) && HasFile(t, Resolve(path[..i])) && Missing(t, path, i + 1)
  }

  /** name is the last beginning of the path that is there, and it is a file. */
  ghost predicate Blocking(t: Tree, path: string, name: string) {
    exists i :: 0 <= i <= |path| && Boundary(path, i) && HasFile(t, Resolve(path[..i])) && Missing(t, path, i + 1)
             && name == path[..i]
  }

  ghost function WithTrail(t: Tree, path: string): Tree {
    t + map p | p in Trail(t, path) :: Dir
  }

  /** What MkdirAll has done to t when it returns err: the beginnings after the last one that is there are directories,
      unless that one is a file; then the error names it, as far as the path was written out. */
  ghost predicate Made(t: Tree, t': Tree, path: string, err: Option<PathError>) {
    && WellFormed(t')
    && (err.None? <==> !Blocked(t, path))
    && (err.None? ==> t' == WithTrail(t, path) && HasDir(t', Resolve(path)))
    && (err.Some? ==> t' == t && err.value.fault == NotDirectory && Blocking(t, path, err.value.path))
    && (NoDotDot(path) ==>
          && (err.None? <==> NoFileOn(t, Parts(path)))
          && t' == if err.None? then WithDirs(t, Parts(path)) else t)
  }

  lemma MadeThere(t: Tree, path: string)
    requires WellFormed(t) && HasDir(t, Resolve(path))
    ensures Made(t, t, path, None)
  {
    hide WellFormed, Resolve, Parts, NoDotDot, WithDirs, NoFileOn;
    WithDirsThere(t, Resolve(path));
    NoTrail(t, path);
    if NoDotDot(path) { ResolveParts(path); }
  }

  /** Where the whole path leads to something, that decides. */
  lemma NoTrail(t: Tree, path: string)
    requires Has(t, Resolve(path))
    ensures Trail(t, path) == {} && WithTrail(t, path) == t && (Blocked(t, path) <==> HasFile(t, Resolve(path)))
  {
    hide Resolve;
    assert path[..|path|] == path && Boundary(path, |path|);
    forall i | 0 <= i <= |path| ensures !Missing(t, path, i) {
      assert Has(t, Resolve(path[..|path|]));
    }
    assert Missing(t, path, |path| + 1);
  }

  lemma MadeFile(t: Tree, path: string, e: PathError)
    requires WellFormed(t) && HasFile(t, Resolve(path)) && e == PathError(path, NotDirectory)
    ensures Made(t, t, path, Some(e))
  {
    hide WellFormed, Resolve, Parts, NoDotDot, WithDirs;
    NoTrail(t, path);
    assert path[..|path|] == path && Boundary(path, |path|) && Missing(t, path, |path| + 1);
    if NoDotDot(path) {
      ResolveParts(path);
      assert Parts(path) <= Parts(path);
    }
  }

  /** One element more: the trail is that of what comes before, and the path itself. */
  lemma TrailStep(t: Tree, path: string, i: nat, j: nat)
    requires j <= i <= |path| && SplitsAt(path, i, j) && i > 0 && !Has(t, Resolve(path))
    ensures j > 1 ==> Trail(t, path) == Trail(t, path[..j - 1]) + {Resolve(path)}
    ensures j > 1 ==> (Blocked(t, path) <==> Blocked(t, path[..j - 1]))
    ensures j > 1 ==> forall name :: Blocking(t, path[..j - 1], name) ==> Blocking(t, path, name)
    ensures j <= 1 ==> Trail(t, path) == {Resolve(path)} && !Blocked(t, path)
  {
    hide Resolve, HasFile, Has;
    assert path[..|path|] == path && Boundary(path, |path|);
    forall k | 0 <= k <= |path| && Boundary(path, k)
      ensures k < j || Resolve(path[..k]) == Resolve(path)
      ensures j > 1 && k < j ==>
        k < |path[..j - 1]| + 1 && Boundary(path[..j - 1], k) && path[..j - 1][..k] == path[..k]
      ensures j <= 1 && k < j ==> Has(t, Resolve(path[..k])) && !HasFile(t, Resolve(path[..k]))
    {
      if k >= j {
        assert k >= i;
        TrailingSlashes(path, k);
      } else if j <= 1 {
        assert path[..k] == "";
        RootHas(t);
      } else {
        assert path[..j - 1][..k] == path[..k];
      }
    }
    NotFile(t, Resolve(path));
    forall k | 0 <= k <= |path| && Boundary(path, k) && k >= j ensures Missing(t, path, k) {
    }
    if j > 1 {
      TrailBefore(t, path, j);
    } else {
      assert Missing(t, path, |path|);
    }
  }

  lemma RootHas(t: Tree)
    ensures Has(t, Resolve("")) && !HasFile(t, Resolve(""))
  {
    ResolveEmpty();
  }

  lemma NotFile(t: Tree, p: Path)
    ensures HasFile(t, p) ==> Has(t, p)
  {
  }

  lemma TrailBefore(t: Tree, path: string, j: nat)
    requires 1 < j <= |path| && path[j - 1] == '/' && !Has(t, Resolve(path))
    requires forall k :: j <= k <= |path| && Boundary(path, k) ==> Resolve(path[..k]) == Resolve(path)
    ensures Trail(t, path) == Trail(t, path[..j - 1]) + {Resolve(path)}
    ensures Blocked(t, path) <==> Blocked(t, path[..j - 1])
    ensures forall name :: Blocking(t, path[..j - 1], name) ==> Blocking(t, path, name)
  {
    hide Resolve, HasFile, Has;
    var head := path[..j - 1];
    assert path[..|path|] == path && Boundary(path, |path|);
    NotFile(t, Resolve(path));
    forall k | 0 <= k < j ensures (Boundary(path, k) <==> Boundary(head, k)) && head[..k] == path[..k] {
    }
    forall k | 0 <= k <= j ensures Missing(t, path, k) <==> Missing(t, head, k) {
      MissingBefore(t, path, j, k);
    }
    forall k | j <= k <= |path| + 1 ensures Missing(t, path, k) {
    }
    forall p ensures p in Trail(t, path) <==> p in Trail(t, head) || p == Resolve(path) {
      if p in Trail(t, path) {
        var k :| 0 <= k <= |path| && Boundary(path, k) && Missing(t, path, k) && p == Resolve(path[..k]);
        if k < j { assert Boundary(head, k) && Missing(t, head, k) && p == Resolve(head[..k]); }
      }
      if p in Trail(t, head) {
        var k :| 0 <= k <= |head| && Boundary(head, k) && Missing(t, head, k) && p == Resolve(head[..k]);
        assert Boundary(path, k) && Missing(t, path, k) && p == Resolve(path[..k]);
      }
      if p == Resolve(path) { assert Missing(t, path, |path|) && p == Resolve(path[..|path|]); }
    }
    if Blocked(t, path) {
      var k :| 0 <= k <= |path| && Boundary(path, k) && HasFile(t, Resolve(path[..k])) && Missing(t, path, k + 1);
      assert k < j;
      assert Boundary(head, k) && HasFile(t, Resolve(head[..k])) && Missing(t, head, k + 1);
    }
    if Blocked(t, head) {
      var k :| 0 <= k <= |head| && Boundary(head, k) && HasFile(t, Resolve(head[..k])) && Missing(t, head, k + 1);
      assert Boundary(path, k) && HasFile(t, Resolve(path[..k])) && Missing(t, path, k + 1);
    }
    forall name | Blocking(t, head, name) ensures Blocking(t, path, name) {
      var k :| 0 <= k <= |head| && Boundary(head, k) && HasFile(t, Resolve(head[..k])) && Missing(t, head, k + 1)
            && name == head[..k];
      assert Boundary(path, k) && HasFile(t, Resolve(path[..k])) && Missing(t, path, k + 1);
    }
  }

  lemma MissingBefore(t: Tree, path: string, j: nat, k: nat)
    requires 1 < j <= |path| && path[j - 1] == '/' && !Has(t, Resolve(path)) && k <= j
    requires forall l :: j <= l <= |path| && Boundary(path, l) ==> Resolve(path[..l]) == Resolve(path)
    ensures Missing(t, path, k) <==> Missing(t, path[..j - 1], k)
  {
    hide Resolve, HasFile, Has;
    var head := path[..j - 1];
    forall l | 0 <= l < j ensures (Boundary(path, l) <==> Boundary(head, l)) && head[..l] == path[..l] {
    }
    if Missing(t, path, k) {
      forall l | k <= l <= |head| && Boundary(head, l) ensures !Has(t, Resolve(head[..l])) {
        assert Boundary(path, l);
      }
    }
    if Missing(t, head, k) {
      forall l | k <= l <= |path| && Boundary(path, l) ensures !Has(t, Resolve(path[..l])) {
        if l < j { assert Boundary(head, l) && l <= |head|; }
      }
    }
  }

  function Head(path: string, j: nat): Path
    requires j <= |path|
  {
    if j > 1 then Resolve(path[..j - 1]) else []
  }

  lemma SplitIs(path: string, i: nat, j: nat)
    requires j <= i <= |path|
    requires (forall k :: i <= k < |path| ==> path[k] == '/') && (i > 0 ==> path[i - 1] != '/')
    requires (forall k :: j <= k < i ==> path[k] != '/') && (j > 0 ==> path[j - 1] == '/')
    ensures SplitsAt(path, i, j)
  {
  }

  lemma HeadParts(path: string, i: nat, j: nat)
    requires j <= i <= |path| && SplitsAt(path, i, j) && i > 0 && NoDotDot(path)
    ensures Parts(path) == Resolve(path) == Push(Head(path, j), path[j..i], true)
    ensures path[j..i] != ".."
    ensures j > 1 ==> NoDotDot(path[..j - 1]) && Parts(path[..j - 1]) == Head(path, j)
    ensures Head(path, j) <= Parts(path)
  {
    hide Resolve, Parts, NoDotDot, SplitsAt;
    ElementName(path, i, j);
    ResolveParts(path);
    if j > 1 { ResolveParts(path[..j - 1]); }
  }

  /** The parent could not be made. */
  lemma MadeNoParent(t: Tree, t': Tree, path: string, i: nat, j: nat, e: PathError)
    requires j <= i <= |path| && SplitsAt(path, i, j) && i > 0 && j > 1 && !Has(t, Resolve(path))
    requires Made(t, t', path[..j - 1], Some(e))
    ensures Made(t, t', path, Some(e))
  {
    hide WellFormed, Resolve, Parts, NoDotDot, WithDirs, SplitsAt, Push, Blocked, Blocking, Trail;
    TrailStep(t, path, i, j);
    if NoDotDot(path) {
      HeadParts(path, i, j);
      var q :| q <= Head(path, j) && HasFile(t, q);
      assert q <= Parts(path);
    }
  }

  ghost predicate ParentMade(t: Tree, t1: Tree, path: string, j: nat)
    requires j <= |path|
  {
    && WellFormed(t1) && HasDir(t1, Head(path, j)) && !Blocked(t, path)
    && (t1 == if j > 1 then WithTrail(t, path[..j - 1]) else t)
    && (NoDotDot(path) ==> NoFileOn(t, Head(path, j)) && t1 == WithDirs(t, Head(path, j)))
  }

  lemma MadeParent(t: Tree, t1: Tree, path: string, i: nat, j: nat)
    requires j <= i <= |path| && SplitsAt(path, i, j) && i > 0 && WellFormed(t) && !Has(t, Resolve(path))
    requires if j > 1 then Made(t, t1, path[..j - 1], None) else t1 == t
    ensures ParentMade(t, t1, path, j)
  {
    hide WellFormed, Resolve, Parts, NoDotDot, WithDirs, SplitsAt, Push, Blocked, Blocking, Trail;
    TrailStep(t, path, i, j);
    if j > 1 {
      if NoDotDot(path) { HeadParts(path, i, j); }
    } else {
      WithDirsThere(t, []);
    }
  }

  /** The directory itself completes the trail. */
  lemma TrailEnds(t: Tree, t1: Tree, path: string, i: nat, j: nat)
    requires j <= i <= |path| && SplitsAt(path, i, j) && i > 0 && !Has(t, Resolve(path))
    requires ParentMade(t, t1, path, j)
    ensures WithTrail(t, path) == t1[Resolve(path) := Dir]
    ensures Resolve(path) in t1 ==> t1[Resolve(path)] == Dir && WithTrail(t, path) == t1
  {
    hide WellFormed, Resolve, Parts, NoDotDot, WithDirs, SplitsAt, Push, Blocked, Blocking, Trail;
    TrailStep(t, path, i, j);
  }

  /** Whatever Mkdir answers, the directory is there afterwards. */
  lemma MadeLast(t: Tree, t1: Tree, path: string, i: nat, j: nat)
    requires j <= i <= |path| && SplitsAt(path, i, j) && i > 0 && !Has(t, Resolve(path))
    requires ParentMade(t, t1, path, j)
    ensures var t2 := Apply(t1, MkdirOp(Resolve(path)));
      && Resolve(path) != []
      && (FaultOf(t1, MkdirOp(Resolve(path))) != None ==> HasDir(t1, Resolve(path)) && t2 == t1)
      && Made(t, t2, path, None)
  {
    hide WellFormed, Resolve, Parts, NoDotDot, WithDirs, SplitsAt, Push, Apply, Blocked, Trail, WithTrail;
    var q, head, c := Resolve(path), Head(path, j), path[j..i];
    TrailEnds(t, t1, path, i, j);
    ElementName(path, i, j);
    HeadStack(path, j);
    PushStack(head, c);
    var t2 := Apply(t1, MkdirOp(q));
    ResolveValid(path);
    ApplyKeeps(t1, MkdirOp(q));
    assert path[..|path|] == path;
    MkdirIs(t1, q);
    if c == "." {
      MadeLastDots(t, t1, path, i, j);
    } else if c == ".." {
      FrontIsDir(t1, head);
      MadeLastDots(t, t1, path, i, j);
    } else {
      assert q == head + [c] && Parent(q) == head;
      if q in t1 {
        MadeLastDots(t, t1, path, i, j);
      } else {
        MadeLastNew(t, t1, path, i, j);
      }
    }
  }

  lemma HeadStack(path: string, j: nat)
    requires j <= |path|
    ensures Stack(Head(path, j))
  {
    if j > 1 { ResolveValid(path[..j - 1]); }
  }

  lemma MkdirIs(t: Tree, q: Path)
    requires q != []
    ensures Has(t, q) ==> Apply(t, MkdirOp(q)) == t
    ensures !Has(t, q) && HasDir(t, Parent(q)) ==>
      Apply(t, MkdirOp(q)) == t[q := Dir] && FaultOf(t, MkdirOp(q)) == None
  {
  }

  lemma FrontIsDir(t: Tree, p: Path)
    requires WellFormed(t) && HasDir(t, p) && p != []
    ensures HasDir(t, Parent(p))
  {
    assert Parent(p) < p;
  }

  /** The last element led to a directory that was made on the way. */
  lemma MadeLastDots(t: Tree, t1: Tree, path: string, i: nat, j: nat)
    requires j <= i <= |path| && SplitsAt(path, i, j) && i > 0 && !Has(t, Resolve(path))
    requires ParentMade(t, t1, path, j) && Has(t1, Resolve(path))
    ensures HasDir(t1, Resolve(path)) && Made(t, t1, path, None)
  {
    hide WellFormed, Resolve, Parts, NoDotDot, SplitsAt, Push, NoFileOn, WithDirs, Blocked, Trail, WithTrail;
    var q := Resolve(path);
    TrailEnds(t, t1, path, i, j);
    assert HasDir(t1, q);
    if NoDotDot(path) {
      HeadParts(path, i, j);
      HeadStack(path, j);
      ElementName(path, i, j);
      PushStack(Head(path, j), path[j..i]);
      WithDirsAt(t, Head(path, j), q);
    }
  }

  lemma MadeLastNew(t: Tree, t1: Tree, path: string, i: nat, j: nat)
    requires j <= i <= |path| && SplitsAt(path, i, j) && i > 0 && !Has(t, Resolve(path))
    requires ParentMade(t, t1, path, j)
    requires Resolve(path) == Head(path, j) + [path[j..i]] && Resolve(path) !in t1
    requires WellFormed(t1[Resolve(path) := Dir])
    ensures Made(t, t1[Resolve(path) := Dir], path, None)
  {
    hide WellFormed, Resolve, Parts, NoDotDot, SplitsAt, Push, WithDirs, Blocked, Trail, WithTrail;
    var q := Resolve(path);
    TrailEnds(t, t1, path, i, j);
    if NoDotDot(path) {
      HeadParts(path, i, j);
      WithDirsStep(t, Head(path, j), path[j..i]);
      forall r | r <= q ensures !HasFile(t, r) {
        if r != q { assert r <= Head(path, j); }
      }
    }
  }

  method MkdirAll(fsys: Fs, path: string) returns (err: Option<PathError>)
    requires WellFormed(fsys.tree)
    modifies fsys`tree
    decreases |path|
    ensures Made(old(fsys.tree), fsys.tree, path, err)
  {
    hide WellFormed, Made, SplitsAt, ParentMade, Resolve, Apply, FaultOf;
    ghost var t := fsys.tree;
    var dir := fsys.Stat(path);
    if dir.Ok? {
      if dir.value.Dir? {
        MadeThere(t, path);
        return None;
      }
      MadeFile(t, path, PathError(path, NotDirectory));
      return Some(PathError(path, NotDirectory));
    }

    var i := |path|;
    while i > 0 && path[i - 1] == '/'
      invariant 0 <= i <= |path|
      invariant forall k :: i <= k < |path| ==> path[k] == '/'
    {
      i := i - 1;
    }
    var j := i;
    while j > 0 && path[j - 1] != '/'
      invariant 0 <= j <= i
      invariant forall k :: j <= k < i ==> path[k] != '/'
    {
      j := j - 1;
    }
    if i == 0 { AllSlashes(path); }
    SplitIs(path, i, j);
    if j > 1 {
      err := MkdirAll(fsys, path[..j - 1]);
      if err.Some? {
        MadeNoParent(t, fsys.tree, path, i, j, err.value);
        return err;
      }
    }
    ghost var t1 := fsys.tree;
    MadeParent(t, t1, path, i, j);
    err := fsys.Mkdir(path);
    MadeLast(t, t1, path, i, j);
    if err.Some? {
      var again := fsys.Stat(path);
      if again.Ok? && again.value.Dir? {
        return None;
      }
    }
  }
}
