/**
 The S3 file system against the tree its bucket stands for: when its answers are those of the tree, and
 that its operations, on admissible names, do to the tree what they should.
 */
module S3Refinement {
  import opened Data
  import opened GoPath
  import opened Tree
  import opened S3Keys
  import opened S3Client
  import opened S3Invariant
  import opened S3Moves
  import opened S3Status
  import opened S3Removal
  import opened S3Rename
  import opened S3Passes
  import opened S3Keeping
  import opened S3Renaming
  import opened S3Onto
  import opened S3Tree

  // ---------------------------------------------------------------- answers

  function TreeStatus(t: Tree, p: Path, base: string): Result<Info> {
    if p !in t then Err(NotExist)
    else match t[p]
      case File(data) => Ok(FileInfo(base, |data|))
      case Dir => Ok(DirInfo(base))
  }

  function TreeMkdirError(t: Tree, p: Path): Option<Error>
    requires p != []
  {
    if p in t then Some(Exist) else if HasDir(t, Parent(p)) then None else Some(NotExist)
  }

  /** What opening a name answers on a tree: a directory, and one made where its parent is one, for a name
      with a trailing slash; otherwise a file to write below a directory, or something that is there to read. */
  function TreeOpened(t: Tree, p: Path, name: string, flags: Flags): Result<Handle>
    requires p != []
  {
    if flags.append then Err(Permission)
    else if HasSuffix(name, "/") then
      if HasFile(t, p) then Err(Exist)
      else if HasDir(t, p) || HasDir(t, Parent(p)) then Ok(DirHandle(name))
      else Err(NotExist)
    else if flags.create || flags.wronly then
      if HasDir(t, Parent(p)) then Ok(WriteHandle(name, flags.create)) else Err(NotExist)
    else if p in t then Ok(ReadHandle(name))
    else Err(NotExist)
  }

  /** The parent is no directory but looks like one to Stat. */
  ghost predicate Mistaken(t: Tree, d: Path) {
    !HasDir(t, d) && (HasFile(t, d) || (d != [] && Shadowed(t, d)))
  }

  lemma UserKey(prefix: string, p: Path)
    requires PrefixOk(prefix) && UserPath(p)
    ensures !HasSuffix(Key(prefix, p), DIR_HOLDER)
  {
    SuffixOfKey(prefix, p);
  }

  /** The name Stat reports is the last one of the path, if the name asked for does not end in "." or "..". */
  lemma BaseIsLast(name: string)
    requires NoDotDot(name) && PlainTail(name)
    ensures Parts(name) != [] && Base(name) == LastName(Parts(name))
  {
    hide Last, TrimRightSlashes, Clean, Parts, NoDotDot, GoPath.Dir;
    TrimmedParts(name);
    DirSplits(TrimRightSlashes(name));
    LastOfNone(name);
  }

  lemma LastOfNone(name: string)
    requires PlainTail(name)
    ensures name != "" && TrimRightSlashes(name) != ""
  {
    assert Last("") == "";
  }

  /** Stat answers as the tree does exactly when no longer name shadows the one asked for. */
  lemma StatAgrees(prefix: string, name: string, B: Objects)
    requires PrefixOk(prefix) && NameOk(prefix, name) && WellKept(BaseKey(prefix), B) && UserPath(Parts(name))
    ensures Status(prefix, name, B) == TreeStatus(TreeOf(prefix, B), Parts(name), Base(name))
      <==> !Shadowed(TreeOf(prefix, B), Parts(name))
  {
    hide TreeOf, WellKept, NameOk, Parts, Key, KeyOf, Seen, Clean, Base, Shadowed, HasSuffix;
    var p := Parts(name);
    KeyOfName(prefix, name);
    NameStatus(prefix, name, B);
    SeenIff(prefix, B, p);
    TreeAt(prefix, B, p);
    UserKey(prefix, p);
    ShadowedAbsent(TreeOf(prefix, B), p);
    HolderNotFile(prefix, B, p);
  }

  lemma ShadowedAbsent(t: Tree, p: Path)
    requires p != []
    ensures Shadowed(t, p) ==> p !in t
  {
  }

  lemma HolderNotFile(prefix: string, B: Objects, p: Path)
    requires PrefixOk(prefix) && WellKept(BaseKey(prefix), B) && ValidPath(p) && p != []
    ensures Holder(Key(prefix, p)) in B ==> Key(prefix, p) !in B
  {
    if Holder(Key(prefix, p)) in B {
      NoFileAbove(prefix, B, p);
    }
  }

  /** What the parent of a name looks like to Stat, against what it is. */
  lemma ParentAgrees(prefix: string, name: string, B: Objects)
    requires PrefixOk(prefix) && NoDotDot(name) && WellKept(BaseKey(prefix), B) && UserPath(Parts(name))
    requires |Parts(name)| == 1 || UserPath(Parent(Parts(name)))
    ensures var t, d := TreeOf(prefix, B), Parent(Parts(name));
      ParentSeen(prefix, name, B) <==> HasDir(t, d) || HasFile(t, d) || (d != [] && Shadowed(t, d))
  {
    hide TreeOf, WellKept, NameOk, Parts, Key, Shadowed;
    if |Parts(name)| > 1 {
      SeenIff(prefix, B, Parent(Parts(name)));
    }
  }

  /** Opening answers as the tree does exactly when what the answer depends on looks like what it is: to read,
      the name is not shadowed; to write, the parent is neither a file nor a shadow; as a directory, the same
      where the name is absent, and it is no file under the root prefix, where its key does not end in "/". */
  lemma OpenAgrees(prefix: string, name: string, flags: Flags, B: Objects)
    requires PrefixOk(prefix) && WellKept(BaseKey(prefix), B) && UserPath(Parts(name))
    requires |Parts(name)| == 1 || UserPath(Parent(Parts(name)))
    requires if HasSuffix(name, "/") then DirNameOk(prefix, name) else NameOk(prefix, name)
    ensures var t, p := TreeOf(prefix, B), Parts(name); var d := Parent(p);
      Opened(prefix, name, flags, B) == TreeOpened(t, p, name, flags) <==>
        || flags.append
        || if HasSuffix(name, "/") then (RootPrefix(prefix) ==> !HasFile(t, p)) && (p in t || !Mistaken(t, d))
           else if flags.create || flags.wronly then !Mistaken(t, d)
           else !Shadowed(t, p)
  {
    hide TreeOf, WellKept, NameOk, DirNameOk, Parts, Key, KeyOf, Seen, ParentSeen, Clean, Base, Shadowed, HasSuffix,
      Status, NoDotDot, WellFormed, RootPrefix, PrefixOk, BaseKey;
    var t, p := TreeOf(prefix, B), Parts(name);
    OpenName(prefix, name);
    ParentAgrees(prefix, name, B);
    SeenIff(prefix, B, p);
    KeyIsFile(prefix, B, p);
    TreeWellFormed(prefix, B);
    ShadowedAbsent(t, p);
    if Shadowed(t, p) { ShadowedParent(t, p); }
    if Parent(p) != [] { ShadowedAbsent(t, Parent(p)); }
    if !HasSuffix(name, "/") {
      NameStatus(prefix, name, B);
      KeyOfName(prefix, name);
    }
  }

  lemma OpenName(prefix: string, name: string)
    requires Parts(name) != [] && if HasSuffix(name, "/") then DirNameOk(prefix, name) else NameOk(prefix, name)
    ensures NoDotDot(name) && !RootName(name)
  {
    hide Parts;
    PlainDots();
  }

  /** A user path is a file exactly when its key is in the bucket. */
  lemma KeyIsFile(prefix: string, B: Objects, p: Path)
    requires PrefixOk(prefix) && WellKept(BaseKey(prefix), B) && UserPath(p)
    ensures HasFile(TreeOf(prefix, B), p) <==> Key(prefix, p) in B
  {
    hide TreeOf, WellKept, Key, HasSuffix;
    TreeAt(prefix, B, p);
    UserKey(prefix, p);
    HolderNotFile(prefix, B, p);
  }

  /** Mkdir answers as the tree does exactly when the name is not shadowed and, where its answer depends
      on the parent, the parent is neither a file nor a shadow. */
  lemma MkdirAgrees(prefix: string, name: string, B: Objects)
    requires PrefixOk(prefix) && NameOk(prefix, name) && WellKept(BaseKey(prefix), B) && UserPath(Parts(name))
    requires |Parts(name)| == 1 || UserPath(Parent(Parts(name)))
    ensures var t, p := TreeOf(prefix, B), Parts(name); var d := Parent(p);
      MkdirError(prefix, name, B) == TreeMkdirError(t, p) <==>
        !Shadowed(t, p) && (p in t || HasDir(t, d) || (!HasFile(t, d) && !Shadowed(t, d)))
  {
    hide TreeOf, WellKept, Parts, Key, KeyOf, Seen, ParentSeen, Shadowed, NoDotDot, Abs;
    var p := Parts(name);
    KeyOfName(prefix, name);
    SeenIff(prefix, B, p);
    ParentAgrees(prefix, name, B);
    ShadowedAbsent(TreeOf(prefix, B), p);
    if Parent(p) != [] { ShadowedAbsent(TreeOf(prefix, B), Parent(p)); }
  }

  /** Readdir shows each child of a directory, with its kind and size, and nothing else. */
  lemma ReaddirAgrees(prefix: string, B: Objects, p: Path, c: string, n: nat)
    requires PrefixOk(prefix) && WellKept(BaseKey(prefix), B) && ValidPath(p)
    ensures var t := TreeOf(prefix, B);
      && (FileInfo(c, n) in Children(B, Key(prefix, p)) <==> p + [c] in t && t[p + [c]].File? && n == |t[p + [c]].data|)
      && (DirInfo(c) in Children(B, Key(prefix, p)) <==> p + [c] in t && t[p + [c]] == Dir)
  {
    hide TreeOf, WellKept, HasSuffix, NodeAt;
    var t, K, base := TreeOf(prefix, B), Key(prefix, p), BaseKey(prefix);
    KeyInside(prefix, p);
    assert ValidKeys(base, B) by { KeptKeys(base, B); }
    if ValidName(c) {
      ChildPath(prefix, B, p, c, n);
    } else {
      var q := p + [c];
      assert q[|p|] == c && !ValidPath(q);
      if q in t { TreePath(prefix, B, q); }
      if FileInfo(c, n) in Children(B, K) { ChildEntry(base, B, K, FileInfo(c, n)); }
      if DirInfo(c) in Children(B, K) { ChildEntry(base, B, K, DirInfo(c)); }
    }
  }

  lemma KeptKeys(base: string, B: Objects)
    requires WellKept(base, B)
    ensures ValidKeys(base, B)
  {
  }

  lemma ChildPath(prefix: string, B: Objects, p: Path, c: string, n: nat)
    requires PrefixOk(prefix) && WellKept(BaseKey(prefix), B) && ValidPath(p) && ValidName(c)
    ensures var t := TreeOf(prefix, B);
      && (FileInfo(c, n) in Children(B, Key(prefix, p)) <==> p + [c] in t && t[p + [c]].File? && n == |t[p + [c]].data|)
      && (DirInfo(c) in Children(B, Key(prefix, p)) <==> p + [c] in t && t[p + [c]] == Dir)
  {
    hide TreeOf, WellKept, HasSuffix, Key, Children, Child;
    var t, K, C, base := TreeOf(prefix, B), Key(prefix, p), Key(prefix, p + [c]), BaseKey(prefix);
    KeptKeys(base, B);
    KeyInside(prefix, p);
    KeyChild(prefix, p, c);
    KeyInside(prefix, p + [c]);
    TreeAt(prefix, B, p + [c]);
    HolderNotFile(prefix, B, p + [c]);
    if FileInfo(c, n) in Children(B, K) { ChildEntry(base, B, K, FileInfo(c, n)); }
    if C in B && !HasSuffix(C, DIR_HOLDER) { ListedFile(B, K, c); }
    if DirInfo(c) in Children(B, K) {
      ChildEntry(base, B, K, DirInfo(c));
      var k :| k in B && Above(C, k);
      HeldAt(base, B, k, C);
    }
    if Holder(C) in B {
      HolderIsChild(C);
      ListedDir(B, K, c, Holder(C));
    }
  }

  lemma HeldAt(base: string, B: Objects, k: string, d: string)
    requires WellKept(base, B) && k in B && Inside(base, d) && Above(d, k)
    ensures d !in B && Holder(d) in B
  {
  }

  lemma ListedFile(B: Objects, K: string, c: string)
    requires ValidName(c) && Child(K, c) in B && !HasSuffix(Child(K, c), DIR_HOLDER)
    ensures FileInfo(c, |B[Child(K, c)]|) in Children(B, K)
  {
    hide HasSuffix;
    var k := Child(K, c);
    SegIsChild(K, c, k);
    assert InfoOf(B, K, k) == FileInfo(c, |B[k]|);
  }

  lemma ListedDir(B: Objects, K: string, c: string, k: string)
    requires ValidName(c) && k in B && Above(Child(K, c), k)
    ensures DirInfo(c) in Children(B, K)
  {
    hide HasSuffix;
    SegIsChild(K, c, k);
    AboveNotSelf(Child(K, c), k);
    assert InfoOf(B, K, k) == DirInfo(c);
  }

  lemma AboveNotSelf(d: string, k: string)
    requires Above(d, k) && d != ""
    ensures d != k
  {
  }

  // ---------------------------------------------------------------- effects

  lemma PutNode(prefix: string, p: Path, r: Path)
    requires PrefixOk(prefix) && UserPath(p) && ValidPath(r) && r != []
    ensures Key(prefix, r) == Key(prefix, p) <==> r == p
    ensures Holder(Key(prefix, r)) == Holder(Key(prefix, p)) <==> r == p
    ensures Holder(Key(prefix, r)) != Key(prefix, p)
    ensures Key(prefix, r) == Holder(Key(prefix, p)) ==> HasSuffix(Key(prefix, r), DIR_HOLDER)
  {
    KeyBelow(prefix, p, r);
    if Holder(Key(prefix, r)) == Holder(Key(prefix, p)) { HolderInjective(Key(prefix, r), Key(prefix, p)); }
    HolderIsChild(Key(prefix, r));
    HolderIsChild(Key(prefix, p));
    UserKey(prefix, p);
  }

  /** A new directory. */
  lemma MkdirRefines(prefix: string, B: Objects, p: Path)
    requires PrefixOk(prefix) && UserPath(p) && WellKept(BaseKey(prefix), B)
    requires WellKept(BaseKey(prefix), B[Holder(Key(prefix, p)) := []])
    ensures TreeOf(prefix, B[Holder(Key(prefix, p)) := []]) == TreeOf(prefix, B)[p := Dir]
  {
    hide TreeOf, WellKept, Key, Holder, HasSuffix, ValidPath;
    var B' := B[Holder(Key(prefix, p)) := []];
    var t := TreeOf(prefix, B)[p := Dir];
    forall r | r in t ensures r != [] && ValidPath(r) {
      if r != p { TreePath(prefix, B, r); }
    }
    forall r {:trigger NodeAt(prefix, B', r)} | r != [] && ValidPath(r)
      ensures NodeAt(prefix, B', r) == if r in t then Some(t[r]) else None
    {
      PutNode(prefix, p, r);
      TreeAt(prefix, B, r);
      HolderNotFile(prefix, B', r);
    }
    TreeEq(prefix, B', t);
  }

  /** A file created or overwritten. */
  lemma WriteRefines(prefix: string, B: Objects, p: Path, data: Bytes)
    requires PrefixOk(prefix) && UserPath(p) && WellKept(BaseKey(prefix), B)
    requires WellKept(BaseKey(prefix), B[Key(prefix, p) := data])
    ensures TreeOf(prefix, B[Key(prefix, p) := data]) == TreeOf(prefix, B)[p := File(data)]
  {
    hide TreeOf, WellKept, Key, Holder, HasSuffix, ValidPath;
    var B' := B[Key(prefix, p) := data];
    var t := TreeOf(prefix, B)[p := File(data)];
    UserKey(prefix, p);
    forall r | r in t ensures r != [] && ValidPath(r) {
      if r != p { TreePath(prefix, B, r); }
    }
    forall r {:trigger NodeAt(prefix, B', r)} | r != [] && ValidPath(r)
      ensures NodeAt(prefix, B', r) == if r in t then Some(t[r]) else None
    {
      PutNode(prefix, p, r);
      TreeAt(prefix, B, r);
    }
    TreeEq(prefix, B', t);
  }

  /** Writing keeps the bucket well kept exactly when the parent is a directory and the name is not. */
  lemma WriteKeepsIff(prefix: string, B: Objects, p: Path, data: Bytes)
    requires PrefixOk(prefix) && UserPath(p) && WellKept(BaseKey(prefix), B)
    ensures WellKept(BaseKey(prefix), B[Key(prefix, p) := data])
      <==> HasDir(TreeOf(prefix, B), Parent(p)) && !HasDir(TreeOf(prefix, B), p)
  {
    hide TreeOf, WellKept, Key, Holder, HasSuffix;
    var t, d, base := TreeOf(prefix, B), Parent(p), BaseKey(prefix);
    var K := Key(prefix, p);
    UserKey(prefix, p);
    ValidPrefix(d, p);
    assert p == d + [LastName(p)] && LastName(p) in p;
    KeyChild(prefix, d, LastName(p));
    KeyInside(prefix, d);
    KeyInside(prefix, p);
    TreeAt(prefix, B, p);
    HolderNotFile(prefix, B, p);
    if d != [] { TreeAt(prefix, B, d); HolderNotFile(prefix, B, d); }
    assert PrefixParts(prefix) + [] == PrefixParts(prefix);
    if HasDir(t, d) && !HasDir(t, p) {
      forall k | k in B ensures !Above(K, k) {
        if Above(K, k) { HeldAt(base, B, k, K); }
      }
      assert d == [] ==> Key(prefix, d) == base by { RootKey(prefix); }
      PutFileKeeps(base, B, Key(prefix, d), LastName(p), data);
    }
    var B' := B[K := data];
    if WellKept(base, B') {
      if d != [] {
        AboveChild(Key(prefix, d), Key(prefix, d), LastName(p));
        HeldAt(base, B', K, Key(prefix, d));
        assert Holder(Key(prefix, d)) in B by { PutNode(prefix, p, d); }
      }
      if Holder(K) in B {
        HolderIsChild(K);
        HeldAt(base, B', Holder(K), K);
      }
    }
  }

  lemma RootKey(prefix: string)
    ensures Key(prefix, []) == BaseKey(prefix)
  {
    assert PrefixParts(prefix) + [] == PrefixParts(prefix);
  }

  /** A new holder keeps the bucket well kept exactly when the parent is a directory. */
  lemma MkdirKeepsIff(prefix: string, B: Objects, p: Path)
    requires PrefixOk(prefix) && UserPath(p) && WellKept(BaseKey(prefix), B) && !Seen(B, Key(prefix, p))
    ensures WellKept(BaseKey(prefix), B[Holder(Key(prefix, p)) := []]) <==> HasDir(TreeOf(prefix, B), Parent(p))
  {
    hide TreeOf, WellKept, Key, Holder, HasSuffix, Seen;
    var t, d, base := TreeOf(prefix, B), Parent(p), BaseKey(prefix);
    var K := Key(prefix, p);
    ValidPrefix(d, p);
    assert p == d + [LastName(p)] && LastName(p) in p;
    KeyChild(prefix, d, LastName(p));
    KeyInside(prefix, d);
    KeyInside(prefix, p);
    RootKey(prefix);
    if d != [] { TreeAt(prefix, B, d); HolderNotFile(prefix, B, d); }
    if HasDir(t, d) {
      PutHolderKeeps(base, B, Key(prefix, d), LastName(p));
    }
    var B' := B[Holder(K) := []];
    if WellKept(base, B') && d != [] {
      HolderIsChild(K);
      AboveChild(Key(prefix, d), Key(prefix, d), LastName(p));
      AboveTransitive(Key(prefix, d), K, Holder(K));
      HeldAt(base, B', Holder(K), Key(prefix, d));
      PutNode(prefix, p, d);
    }
  }

  /** RemoveAll takes the subtree away, except that under the root prefix it leaves a file it is asked
      to remove by name. */
  lemma RemoveRefines(prefix: string, B: Objects, B': Objects, p: Path)
    requires PrefixOk(prefix) && UserPath(p) && WellKept(BaseKey(prefix), B) && WellKept(BaseKey(prefix), B')
    requires Removed(prefix, B, B', Key(prefix, p), true)
    ensures TreeOf(prefix, B') == Without(TreeOf(prefix, B), p) <==>
      !(RootPrefix(prefix) && HasFile(TreeOf(prefix, B), p))
    ensures RootPrefix(prefix) && HasFile(TreeOf(prefix, B), p) ==> TreeOf(prefix, B') == TreeOf(prefix, B)
  {
    hide TreeOf, WellKept, Key, Holder, HasSuffix, Removed, ValidPath;
    var t, t' := TreeOf(prefix, B), Without(TreeOf(prefix, B), p);
    forall r | r in t ensures r != [] && ValidPath(r) { TreePath(prefix, B, r); }
    TreeAt(prefix, B, p);
    HolderNotFile(prefix, B, p);
    UserKey(prefix, p);
    if RootPrefix(prefix) && HasFile(t, p) {
      forall r {:trigger NodeAt(prefix, B', r)} | r != [] && ValidPath(r)
        ensures NodeAt(prefix, B', r) == if r in t then Some(t[r]) else None
      {
        RemovedNode(prefix, B, B', p, r);
        TreeAt(prefix, B, r);
        if p < r { FileIsLeaf(prefix, B, p, r); }
      }
      TreeEq(prefix, B', t);
      assert p in t && p !in t';
    } else {
      forall r {:trigger NodeAt(prefix, B', r)} | r != [] && ValidPath(r)
        ensures NodeAt(prefix, B', r) == if r in t' then Some(t'[r]) else None
      {
        RemovedNode(prefix, B, B', p, r);
        TreeAt(prefix, B, r);
      }
      TreeEq(prefix, B', t');
    }
  }

  lemma FileIsLeaf(prefix: string, B: Objects, p: Path, r: Path)
    requires PrefixOk(prefix) && WellKept(BaseKey(prefix), B) && HasFile(TreeOf(prefix, B), p)
    requires p < r
    ensures r !in TreeOf(prefix, B)
  {
    if r in TreeOf(prefix, B) {
      AboveIsDir(prefix, B, p, r);
    }
  }

  lemma RemovedNode(prefix: string, B: Objects, B': Objects, p: Path, r: Path)
    requires PrefixOk(prefix) && UserPath(p) && WellKept(BaseKey(prefix), B)
    requires Removed(prefix, B, B', Key(prefix, p), true)
    requires r != [] && ValidPath(r)
    ensures !(p <= r) ==> NodeAt(prefix, B', r) == NodeAt(prefix, B, r)
    ensures p <= r && (p != r || !RootPrefix(prefix) || Key(prefix, p) !in B) ==> NodeAt(prefix, B', r) == None
    ensures p == r && RootPrefix(prefix) && Key(prefix, p) in B ==>
      NodeAt(prefix, B', r) == Some(File(B[Key(prefix, p)]))
  {
    hide Key, HasSuffix, ValidPath;
    var K, R := Key(prefix, p), Key(prefix, r);
    KeyBelow(prefix, p, r);
    HolderKey(prefix, r);
    KeyBelow(prefix, p, r + [DIR_HOLDER]);
    PutNode(prefix, p, r);
    UserKey(prefix, p);
    KeyInside(prefix, r);
    HolderNotStray(R);
    BelowHolder(p, r);
    NotStrayFile(prefix, B, R);
  }

  lemma BelowHolder(p: Path, r: Path)
    requires UserPath(p)
    ensures p <= r + [DIR_HOLDER] <==> p <= r
  {
    SelfSuffix();
    var q := r + [DIR_HOLDER];
    assert LastName(q) == DIR_HOLDER;
    assert p <= q && |p| == |q| ==> p == q;
  }

  lemma NotStrayFile(prefix: string, B: Objects, k: string)
    requires WellKept(BaseKey(prefix), B)
    ensures k in B && Above(BaseKey(prefix), k) ==> !Stray(k)
  {
    if k in B && Above(BaseKey(prefix), k) && HasSuffix(k, DIR_HOLDER) {
      var d :| Inside(BaseKey(prefix), d) && k == Holder(d);
      HolderNotRoot(BaseKey(prefix), d);
      HolderNotStray(d);
    }
  }

  lemma HolderNotRoot(base: string, d: string)
    requires Inside(base, d)
    ensures d != ""
  {
  }

  // ---------------------------------------------------------------- moves

  lemma KeyMoved(prefix: string, p: Path, q: Path, r: Path)
    requires PrefixOk(prefix) && ValidPath(p) && ValidPath(q) && ValidPath(r) && p != [] && q != [] && p <= r
    ensures AtOrBelow(Key(prefix, p), Key(prefix, r))
    ensures Moved(Key(prefix, p), Key(prefix, q), Key(prefix, r)) == Key(prefix, q + r[|p|..])
    ensures ValidPath(q + r[|p|..])
  {
    hide Key, AtOrBelow;
    KeyBelow(prefix, p, r);
    ValidPrefix(p, r);
    var s := r[|p|..];
    assert r == p + s;
    if s == [] {
      assert p + s == p && q + s == q;
    } else {
      KeyTail(prefix, p, s);
      KeyTail(prefix, q, s);
    }
  }

  lemma KeyTail(prefix: string, p: Path, s: Path)
    requires PrefixOk(prefix) && p != [] && s != []
    ensures Key(prefix, p + s) == Key(prefix, p) + ("/" + Join(s))
  {
    var b := PrefixParts(prefix);
    assert b + (p + s) == (b + p) + s;
    JoinConcat(b + p, s);
  }

  lemma MoveAtNode(prefix: string, B: Objects, B': Objects, p: Path, q: Path, r: Path)
    requires PrefixOk(prefix) && UserPath(p) && UserPath(q) && WellKept(BaseKey(prefix), B)
    requires IsAllMoved(B, B', Key(prefix, p), Key(prefix, q))
    requires Key(prefix, p) in B || Holder(Key(prefix, p)) in B
    requires ValidPath(r) && r != []
    ensures q <= r ==> NodeAt(prefix, B', r) == NodeAt(prefix, B, p + r[|q|..])
    ensures !(q <= r) && p <= r ==> NodeAt(prefix, B', r) == None
    ensures !(q <= r) && !(p <= r) ==> NodeAt(prefix, B', r) == NodeAt(prefix, B, r)
  {
    hide Key, HasSuffix, ValidPath, UserPath, Stray, Holder, WellKept, Moved, AtOrBelow, Above;
    var K, N, R := Key(prefix, p), Key(prefix, q), Key(prefix, r);
    UserValid(p);
    UserValid(q);
    HolderKey(prefix, r);
    var h := r + [DIR_HOLDER];
    KeyBelow(prefix, q, r);
    KeyBelow(prefix, q, h);
    KeyBelow(prefix, p, r);
    KeyBelow(prefix, p, h);
    BelowHolder(p, r);
    BelowHolder(q, r);
    assert Get(B', R) == AllMoved(B, K, N, R);
    assert Get(B', Holder(R)) == AllMoved(B, K, N, Holder(R));
    if q <= r {
      var o := p + r[|q|..];
      assert r == q ==> o == p;
      PutNode(prefix, q, r);
      UserKey(prefix, p);
      KeyMoved(prefix, q, p, r);
      KeyMoved(prefix, q, p, h);
      assert h[|q|..] == r[|q|..] + [DIR_HOLDER];
      assert p + h[|q|..] == o + [DIR_HOLDER];
      HolderKey(prefix, o);
      KeyInside(prefix, o);
      KeyInside(prefix, o + [DIR_HOLDER]);
      NotStrayKey(prefix, B, Key(prefix, o));
      NotStrayKey(prefix, B, Holder(Key(prefix, o)));
      SuffixMoved(prefix, p, q, r);
    } else if p <= r {
      HolderNotStrayAt(prefix, r);
      NotStraySuffix(R);
    }
  }

  lemma UserValid(p: Path)
    requires UserPath(p)
    ensures ValidPath(p) && p != []
  {
  }

  lemma NotStrayKey(prefix: string, B: Objects, k: string)
    requires WellKept(BaseKey(prefix), B) && Inside(BaseKey(prefix), k)
    ensures k in B ==> !Stray(k)
  {
    NotStrayFile(prefix, B, k);
  }

  lemma HolderNotStrayAt(prefix: string, r: Path)
    requires PrefixOk(prefix) && ValidPath(r) && r != []
    ensures !Stray(Holder(Key(prefix, r)))
  {
    KeyInside(prefix, r);
    HolderNotStray(Key(prefix, r));
  }

  lemma NotStraySuffix(k: string)
    ensures !HasSuffix(k, DIR_HOLDER) ==> !Stray(k)
  {
  }

  lemma SuffixMoved(prefix: string, p: Path, q: Path, r: Path)
    requires PrefixOk(prefix) && UserPath(p) && UserPath(q) && ValidPath(r) && q <= r
    requires ValidPath(p + r[|q|..])
    ensures HasSuffix(Key(prefix, r), DIR_HOLDER) <==> HasSuffix(Key(prefix, p + r[|q|..]), DIR_HOLDER)
  {
    hide Key, HasSuffix;
    var o := p + r[|q|..];
    SuffixOfKey(prefix, r);
    SuffixOfKey(prefix, o);
    if r == q {
      assert o == p;
    } else {
      assert LastName(o) == LastName(r);
    }
  }

  lemma SourceThere(prefix: string, B: Objects, p: Path)
    requires PrefixOk(prefix) && WellKept(BaseKey(prefix), B) && ValidPath(p) && p != [] && p in TreeOf(prefix, B)
    ensures Key(prefix, p) in B || Holder(Key(prefix, p)) in B
  {
    hide TreeOf, WellKept, Key;
    TreeAt(prefix, B, p);
  }

  /** An exact move of keys is a move in the tree. */
  lemma RenameRefines(prefix: string, B: Objects, B': Objects, p: Path, q: Path)
    requires PrefixOk(prefix) && UserPath(p) && UserPath(q)
    requires WellKept(BaseKey(prefix), B) && WellKept(BaseKey(prefix), B')
    requires p in TreeOf(prefix, B) && q !in TreeOf(prefix, B)
    requires IsAllMoved(B, B', Key(prefix, p), Key(prefix, q))
    ensures TreeOf(prefix, B') == Move(TreeOf(prefix, B), p, q)
  {
    hide TreeOf, WellKept, Key, IsAllMoved, ValidPath, Move, NodeAt, UserPath;
    UserValid(p);
    UserValid(q);
    var t := TreeOf(prefix, B);
    var t' := Move(t, p, q);
    TreeWellFormed(prefix, B);
    SourceThere(prefix, B, p);
    forall r | r in t' ensures r != [] && ValidPath(r) {
      MoveAt(t, p, q, r);
      if q <= r && p + r[|q|..] in t {
        TreePath(prefix, B, p + r[|q|..]);
        MovedValid(p, q, r);
      } else {
        TreePath(prefix, B, r);
      }
    }
    forall r {:trigger NodeAt(prefix, B', r)} | r != [] && ValidPath(r)
      ensures NodeAt(prefix, B', r) == if r in t' then Some(t'[r]) else None
    {
      MoveAt(t, p, q, r);
      MoveAtNode(prefix, B, B', p, q, r);
      TreeAt(prefix, B, r);
      if q <= r {
        KeyMoved(prefix, q, p, r);
        TreeAt(prefix, B, p + r[|q|..]);
        NothingBelow(t, q, r);
      }
    }
    TreeEq(prefix, B', t');
  }

  lemma MovedValid(p: Path, q: Path, r: Path)
    requires ValidPath(q) && q <= r && ValidPath(p + r[|q|..])
    ensures ValidPath(r)
  {
    forall c | c in r ensures ValidName(c) {
      if c !in q {
        assert c in r[|q|..];
        assert c in p + r[|q|..];
      }
    }
  }

  // ---------------------------------------------------------------- whole runs

  lemma AbsName(prefix: string, p: Path)
    requires PrefixOk(prefix) && ValidPath(p)
    ensures NameOk(prefix, Abs(p)) && Parts(Abs(p)) == p && KeyOf(prefix, Abs(p)) == Key(prefix, p)
    ensures p != [] ==> ParentKey(prefix, Abs(p)) == Key(prefix, Parent(p))
  {
    PartsJoin(p);
    KeyOfName(prefix, Abs(p));
  }

  /** Names of paths start at the root, so the guard of Rename sees what they show. */
  lemma AbsOrdinary(p: Path, q: Path, B: Objects, K: string, N: string)
    ensures Abs(p) != "." && !Mixed(Abs(p), Abs(q)) && Ordinary(Abs(p), Abs(q), B, K, N)
  {
    assert Abs(p)[0] == '/' && Abs(q)[0] == '/' && "."[0] == '.';
  }

  /** The key of the first path on the way from p to q. */
  lemma WayKey(prefix: string, p: Path, q: Path)
    requires PrefixOk(prefix) && ValidPath(p) && ValidPath(q) && p < q
    ensures var K, N := Key(prefix, p), Key(prefix, q);
      Above(K, N) && Seg(K, N) == q[|p|] && Way(K, N) == Key(prefix, q[..|p| + 1])
  {
    hide Key, Seg;
    var r := q[..|p| + 1];
    assert q[|p|] in q && r == p + [q[|p|]];
    ValidPrefix(r, q);
    KeyChild(prefix, p, q[|p|]);
    KeyBelow(prefix, r, q);
    NameNotEmpty(q[|p|]);
    SegIsChild(Key(prefix, p), q[|p|], Key(prefix, q));
  }

  lemma RefusedAbs(prefix: string, p: Path, q: Path)
    requires PrefixOk(prefix) && ValidPath(p) && ValidPath(q) && p != [] && q != []
    ensures Refused(Abs(p), Abs(q)) <==> p <= q
  {
    hide Key, KeyOf, NameOk, Parts, AtOrBelow, Abs, Join;
    AbsName(prefix, p);
    AbsName(prefix, q);
    KeyBelow(prefix, p, q);
    AbsNotRoot(p);
    if Abs(p) + "/" <= Abs(q) {
      RefusedBelow(prefix, Abs(p), Abs(q));
    }
    if p <= q && p != q {
      SpelledBelow(p, q, true);
    }
  }

  lemma AbsNotRoot(p: Path)
    requires ValidPath(p) && p != []
    ensures Abs(p) != "/"
  {
    JoinHead(p);
  }

  lemma ParentIsDir(prefix: string, B: Objects, q: Path)
    requires PrefixOk(prefix) && ValidPath(q) && q != [] && WellKept(BaseKey(prefix), B)
    requires HasDir(TreeOf(prefix, B), Parent(q))
    ensures IsDir(BaseKey(prefix), B, Key(prefix, Parent(q)))
  {
    hide TreeOf, WellKept;
    ValidPrefix(Parent(q), q);
    RootKey(prefix);
    if Parent(q) != [] { TreeAt(prefix, B, Parent(q)); }
  }

  lemma ParentFound(prefix: string, B: Objects, q: Path)
    requires PrefixOk(prefix) && ValidPath(q) && q != [] && WellKept(BaseKey(prefix), B)
    requires HasDir(TreeOf(prefix, B), Parent(q))
    requires Parts(Abs(q)) == q
    ensures ParentSeen(prefix, Abs(q), B)
  {
    hide TreeOf, WellKept, Parts, Abs, Key;
    ParentIsDir(prefix, B, q);
    var d := Key(prefix, Parent(q));
    if |q| > 1 {
      ValidPrefix(Parent(q), q);
      TreeAt(prefix, B, Parent(q));
      assert d <= Holder(d);
    }
  }

  lemma RemoveFileRefines(prefix: string, B: Objects, p: Path)
    requires PrefixOk(prefix) && UserPath(p) && WellKept(BaseKey(prefix), B) && HasFile(TreeOf(prefix, B), p)
    ensures WellKept(BaseKey(prefix), B - {Key(prefix, p)})
    ensures TreeOf(prefix, B - {Key(prefix, p)}) == Without(TreeOf(prefix, B), p)
  {
    hide TreeOf, WellKept, Key, Holder, HasSuffix, ValidPath, UserPath;
    var t := Without(TreeOf(prefix, B), p);
    var B' := B - {Key(prefix, p)};
    UserKey(prefix, p);
    UserValid(p);
    RemoveFileKeeps(BaseKey(prefix), B, Key(prefix, p));
    TreeAt(prefix, B, p);
    HolderNotFile(prefix, B, p);
    forall r | r in t ensures r != [] && ValidPath(r) { TreePath(prefix, B, r); }
    forall r {:trigger NodeAt(prefix, B', r)} | r != [] && ValidPath(r)
      ensures NodeAt(prefix, B', r) == if r in t then Some(t[r]) else None
    {
      PutNode(prefix, p, r);
      TreeAt(prefix, B, r);
      if p < r { FileIsLeaf(prefix, B, p, r); }
    }
    TreeEq(prefix, B', t);
  }

  /** What one fault-free call on the cleaned names of the paths does to the bucket; a write stores the
      data whole. */
  ghost predicate Step(prefix: string, order: Order, B: Objects, op: Op, B': Objects) {
    match op
    case MkdirOp(p) =>
      if p != [] && Parts(Abs(p)) == p && MkdirError(prefix, Abs(p), B).None?
      then B' == B[Holder(Key(prefix, p)) := []] else B' == B
    case WriteOp(p, data) =>
      if p != [] && Parts(Abs(p)) == p && ParentSeen(prefix, Abs(p), B)
      then B' == B[Key(prefix, p) := data] else B' == B
    case RenameOp(p, q) =>
      exists err :: RenameDone(prefix, order, Abs(p), Abs(q), B, B', false, false, err)
    case RemoveOp(p) =>
      if p == [] then B' == B
      else
        && Removed(prefix, B, B', Key(prefix, p), true)
        && (WellKept(BaseKey(prefix), B) ==> WellKept(BaseKey(prefix), B'))
  }

  /** Calls on paths that users may name. */
  predicate Usable(op: Op) {
    match op
    case MkdirOp(p) => UserPath(p) && (|p| == 1 || UserPath(Parent(p)))
    case WriteOp(p, _) => UserPath(p) && (|p| == 1 || UserPath(Parent(p)))
    case RenameOp(p, q) => UserPath(p) && UserPath(q) && (|q| == 1 || UserPath(Parent(q)))
    case RemoveOp(p) => p == [] || UserPath(p)
  }

  /** The calls the code gets right, as seen in the tree; for the move of a directory, also in the order in
      which the bucket lists its entries. */
  ghost predicate Admissible(prefix: string, order: Order, B: Objects, op: Op)
    requires Usable(op)
  {
    var t := TreeOf(prefix, B);
    match op
    case MkdirOp(p) => !Shadowed(t, p) && (p in t || !Mistaken(t, Parent(p)))
    case WriteOp(p, _) => !HasDir(t, p) && !Mistaken(t, Parent(p))
    case RenameOp(p, q) =>
      if p <= q then true
      else if HasFile(t, p) then HasDir(t, Parent(q)) && !HasDir(t, q)
      else if p !in t && !Shadowed(t, p) then true
      else if q in t || Shadowed(t, q) then q in t || p !in t
      else if HasDir(t, Parent(q)) then p in t && Goes(order, B, Key(prefix, p), Key(prefix, q))
      else !Mistaken(t, Parent(q))
    case RemoveOp(p) => p == [] || !(RootPrefix(prefix) && HasFile(t, p))
  }

  /** The call does to the tree what it should, and keeps the bucket well kept. */
  ghost predicate Right(prefix: string, B: Objects, op: Op, B': Objects) {
    WellKept(BaseKey(prefix), B') && TreeOf(prefix, B') == Apply(TreeOf(prefix, B), op)
  }

  /** A call is right exactly if it is admissible. */
  lemma StepRightIff(prefix: string, order: Order, B: Objects, op: Op, B': Objects)
    requires PrefixOk(prefix) && WellKept(BaseKey(prefix), B) && Usable(op) && Step(prefix, order, B, op, B')
    ensures Right(prefix, B, op, B') <==> Admissible(prefix, order, B, op)
  {
    hide WellKept, TreeOf, Shadowed, Goes;
    match op
    case MkdirOp(p) => MkdirRightIff(prefix, order, B, p, B');
    case WriteOp(p, data) => WriteRightIff(prefix, order, B, p, data, B');
    case RenameOp(p, q) => RenameRightIff(prefix, order, B, p, q, B');
    case RemoveOp(p) =>
      if p != [] { RemoveRefines(prefix, B, B', p); }
  }

  lemma ShadowedParent(t: Tree, p: Path)
    requires WellFormed(t) && p != [] && Shadowed(t, p)
    ensures HasDir(t, Parent(p)) && p !in t
  {
    if r :| r in t && Longer(r, p) {
      assert HasDir(t, Parent(r));
    }
  }

  lemma ParentHere(t: Tree, p: Path)
    requires WellFormed(t) && p != [] && p in t
    ensures HasDir(t, Parent(p))
  {
  }

  lemma ParentSeenIff(prefix: string, B: Objects, p: Path)
    requires PrefixOk(prefix) && WellKept(BaseKey(prefix), B) && UserPath(p) && (|p| == 1 || UserPath(Parent(p)))
    requires Parts(Abs(p)) == p && NameOk(prefix, Abs(p))
    ensures var t := TreeOf(prefix, B);
      ParentSeen(prefix, Abs(p), B) <==> HasDir(t, Parent(p)) || Mistaken(t, Parent(p))
  {
    hide TreeOf, WellKept, Shadowed, ParentSeen, UserPath, NoDotDot, Abs, Parts;
    ParentAgrees(prefix, Abs(p), B);
  }

  lemma MkdirRightIff(prefix: string, order: Order, B: Objects, p: Path, B': Objects)
    requires PrefixOk(prefix) && WellKept(BaseKey(prefix), B) && Usable(MkdirOp(p))
    requires Step(prefix, order, B, MkdirOp(p), B')
    ensures Right(prefix, B, MkdirOp(p), B') <==> Admissible(prefix, order, B, MkdirOp(p))
  {
    hide TreeOf, WellKept, Key, Seen, Shadowed, Holder, ParentSeen, KeyOf, UserPath, NameOk, Abs, Parts;
    var t := TreeOf(prefix, B);
    UserValid(p);
    AbsName(prefix, p);
    SeenIff(prefix, B, p);
    ParentSeenIff(prefix, B, p);
    TreeWellFormed(prefix, B);
    ShadowedAbsent(t, p);
    if Shadowed(t, p) {
      ShadowedParent(t, p);
      assert t[p := Dir] != t by { assert p in t[p := Dir]; }
    }
    if !Seen(B, Key(prefix, p)) {
      MkdirKeepsIff(prefix, B, p);
      if HasDir(t, Parent(p)) {
        MkdirRefines(prefix, B, p);
      }
    }
  }

  lemma WriteRightIff(prefix: string, order: Order, B: Objects, p: Path, data: Bytes, B': Objects)
    requires PrefixOk(prefix) && WellKept(BaseKey(prefix), B)
    requires Usable(WriteOp(p, data)) && Step(prefix, order, B, WriteOp(p, data), B')
    ensures Right(prefix, B, WriteOp(p, data), B') <==> Admissible(prefix, order, B, WriteOp(p, data))
  {
    hide TreeOf, WellKept, Key, Seen, Shadowed, Holder, ParentSeen, KeyOf, UserPath, NameOk, Abs, Parts;
    var t := TreeOf(prefix, B);
    UserValid(p);
    AbsName(prefix, p);
    ParentSeenIff(prefix, B, p);
    WriteKeepsIff(prefix, B, p, data);
    TreeWellFormed(prefix, B);
    if HasDir(t, p) {
      ParentHere(t, p);
    } else if HasDir(t, Parent(p)) {
      WriteRefines(prefix, B, p, data);
    }
  }

  // ---------------------------------------------------------------- when Rename is right

  /** The move of a file asks nothing about its target: it keeps the bucket well kept exactly if the
      target's parent is a directory and the target is not one. Then it moves the file, over another if
      there is one. */
  lemma RenameKeepsIff(prefix: string, B: Objects, p: Path, q: Path)
    requires PrefixOk(prefix) && UserPath(p) && UserPath(q) && WellKept(BaseKey(prefix), B)
    requires HasFile(TreeOf(prefix, B), p) && p != q
    ensures Key(prefix, p) in B
    ensures var t, B' := TreeOf(prefix, B), B[Key(prefix, q) := B[Key(prefix, p)]] - {Key(prefix, p)};
      && (WellKept(BaseKey(prefix), B') <==> HasDir(t, Parent(q)) && !HasDir(t, q))
      && (WellKept(BaseKey(prefix), B') ==> TreeOf(prefix, B') == Apply(t, RenameOp(p, q)))
  {
    hide TreeOf, WellKept, Key, Holder, HasSuffix, UserPath;
    var t, K, N := TreeOf(prefix, B), Key(prefix, p), Key(prefix, q);
    UserValid(p);
    UserValid(q);
    TreeAt(prefix, B, p);
    HolderNotFile(prefix, B, p);
    var B' := B[N := B[K]] - {K};
    if HasDir(t, Parent(q)) && !HasDir(t, q) {
      TreeWellFormed(prefix, B);
      FileNotAbove(t, p, q);
      FileOver(prefix, B, p, q);
    }
    if WellKept(BaseKey(prefix), B') {
      FileTarget(prefix, B, p, q);
    }
  }

  /** Nothing is below a file. */
  lemma FileNotAbove(t: Tree, p: Path, q: Path)
    requires WellFormed(t) && HasFile(t, p) && q != [] && HasDir(t, Parent(q)) && p != q
    ensures !(p <= q)
  {
    var d := Parent(q);
    assert p <= q ==> p == d || p < d;
    if p < d {
      DirAbove(t, p, d);
    }
  }

  lemma DirAbove(t: Tree, p: Path, d: Path)
    requires WellFormed(t) && HasDir(t, d) && p < d
    ensures HasDir(t, p)
  {
  }

  lemma FileOver(prefix: string, B: Objects, p: Path, q: Path)
    requires PrefixOk(prefix) && UserPath(p) && UserPath(q) && WellKept(BaseKey(prefix), B) && Key(prefix, p) in B
    requires var t := TreeOf(prefix, B); HasFile(t, p) && !(p <= q) && HasDir(t, Parent(q)) && !HasDir(t, q)
    ensures var t, B' := TreeOf(prefix, B), B[Key(prefix, q) := B[Key(prefix, p)]] - {Key(prefix, p)};
      WellKept(BaseKey(prefix), B') && TreeOf(prefix, B') == Apply(t, RenameOp(p, q))
  {
    hide TreeOf, WellKept, Key, Holder, HasSuffix, UserPath;
    var t, K, N := TreeOf(prefix, B), Key(prefix, p), Key(prefix, q);
    UserValid(p);
    UserValid(q);
    TreeAt(prefix, B, p);
    UserKey(prefix, p);
    WriteKeepsIff(prefix, B, q, B[K]);
    WriteRefines(prefix, B, q, B[K]);
    RemoveFileRefines(prefix, B[N := B[K]], p);
    TreeWellFormed(prefix, B);
    FileMoves(t, p, q);
  }

  lemma FileMoves(t: Tree, p: Path, q: Path)
    requires WellFormed(t) && HasFile(t, p) && !(p <= q) && q != [] && HasDir(t, Parent(q)) && !HasDir(t, q)
    ensures Without(t[q := t[p]], p) == Apply(t, RenameOp(p, q))
  {
    assert Without(t[q := t[p]], p) == Without(t, p)[q := t[p]];
    if q !in t {
      NoneBelowFile(t, p);
      forall r ensures (r in Move(t, p, q) <==> r in Without(t, p)[q := t[p]])
        && (r in Move(t, p, q) ==> Move(t, p, q)[r] == Without(t, p)[q := t[p]][r])
      {
        MoveAt(t, p, q, r);
        if q <= r {
          NothingBelow(t, q, r);
          assert p + r[|q|..] == p <==> r == q;
          assert p <= p + r[|q|..];
        }
      }
    }
  }

  lemma NoneBelowFile(t: Tree, p: Path)
    requires WellFormed(t) && HasFile(t, p)
    ensures forall r :: r in t && p <= r ==> r == p
  {
    forall r | r in t && p <= r ensures r == p {
      assert r != p ==> p < r;
      assert p < r ==> HasDir(t, p);
    }
  }

  lemma FileTarget(prefix: string, B: Objects, p: Path, q: Path)
    requires PrefixOk(prefix) && UserPath(p) && UserPath(q) && WellKept(BaseKey(prefix), B) && Key(prefix, p) in B
    requires HasFile(TreeOf(prefix, B), p) && p != q
    requires WellKept(BaseKey(prefix), B[Key(prefix, q) := B[Key(prefix, p)]] - {Key(prefix, p)})
    ensures HasDir(TreeOf(prefix, B), Parent(q)) && !HasDir(TreeOf(prefix, B), q)
  {
    hide TreeOf, WellKept, Key, Holder, HasSuffix, Seen, Shadowed, AtOrBelow, Above, Occupied;
    var K, N, d := Key(prefix, p), Key(prefix, q), Parent(q);
    var B' := B[N := B[K]] - {K};
    UserValid(p);
    UserValid(q);
    UserKey(prefix, p);
    KeyBelow(prefix, p, q);
    SelfAtOrBelow(K);
    SourceSeen(prefix, B, q);
    HolderIsChild(N);
    KeyInside(prefix, q);
    if Holder(N) in B {
      HeldAt(BaseKey(prefix), B', Holder(N), N);
    }
    if d == [] {
      RootIsDir(TreeOf(prefix, B));
    } else {
      FileParent(prefix, B, B', p, q);
    }
  }

  lemma RootIsDir(t: Tree)
    ensures HasDir(t, [])
  {
  }

  lemma FileParent(prefix: string, B: Objects, B': Objects, p: Path, q: Path)
    requires PrefixOk(prefix) && UserPath(p) && UserPath(q) && WellKept(BaseKey(prefix), B) && |q| > 1
    requires Key(prefix, q) in B' && WellKept(BaseKey(prefix), B')
    requires forall k :: k in B' ==> k in B || k == Key(prefix, q)
    ensures HasDir(TreeOf(prefix, B), Parent(q))
  {
    hide TreeOf, WellKept, Key, Holder, HasSuffix;
    var d, base := Parent(q), BaseKey(prefix);
    ValidPrefix(d, q);
    assert q == d + [LastName(q)] && LastName(q) in q;
    KeyChild(prefix, d, LastName(q));
    KeyInside(prefix, d);
    AboveChild(Key(prefix, d), Key(prefix, d), LastName(q));
    HeldAt(base, B', Key(prefix, q), Key(prefix, d));
    PutNode(prefix, q, d);
    TreeAt(prefix, B, d);
    HolderNotFile(prefix, B, d);
  }

  lemma RenameRightIff(prefix: string, order: Order, B: Objects, p: Path, q: Path, B': Objects)
    requires PrefixOk(prefix) && WellKept(BaseKey(prefix), B) && Usable(RenameOp(p, q))
    requires Step(prefix, order, B, RenameOp(p, q), B')
    ensures Right(prefix, B, RenameOp(p, q), B') <==> Admissible(prefix, order, B, RenameOp(p, q))
  {
    hide TreeOf, WellKept, Key, Seen, Shadowed, KeyOf, UserPath, NameOk, Abs, Parts, Refused, Goes, RenamedOnto,
      Renamed, AtOrBelow;
    var err :| RenameDone(prefix, order, Abs(p), Abs(q), B, B', false, false, err);
    UserValid(p);
    UserValid(q);
    AbsName(prefix, p);
    AbsName(prefix, q);
    RefusedAbs(prefix, p, q);
    KeyBelow(prefix, q, p);
    TreeWellFormed(prefix, B);
    if !(p <= q) {
      if q <= p {
        RenameUpRight(prefix, order, B, p, q, B', err);
      } else {
        RenameAsideRight(prefix, order, B, p, q, B', err);
      }
    }
  }

  /** What Stat finds of the source tells its place in the tree. */
  lemma SourceSeen(prefix: string, B: Objects, p: Path)
    requires PrefixOk(prefix) && UserPath(p) && WellKept(BaseKey(prefix), B)
    ensures var t, K := TreeOf(prefix, B), Key(prefix, p);
      && (K in B <==> HasFile(t, p)) && (Seen(B, K) <==> p in t || Shadowed(t, p))
      && (HasDir(t, p) <==> Holder(K) in B) && (Occupied(B, K) <==> p in t)
  {
    hide TreeOf, WellKept, Key, Seen, Shadowed, Holder, HasSuffix;
    var t, K := TreeOf(prefix, B), Key(prefix, p);
    SeenIff(prefix, B, p);
    TreeAt(prefix, B, p);
    UserKey(prefix, p);
    HolderNotFile(prefix, B, p);
    HolderIsChild(K);
    if p !in t {
      AbsentFresh(prefix, B, p);
    }
    assert K in B ==> AtOrBelow(K, K);
    assert Holder(K) in B ==> AtOrBelow(K, Holder(K));
  }

  /** Onto a path above the source. */
  lemma RenameUpRight(prefix: string, order: Order, B: Objects, p: Path, q: Path, B': Objects, err: Option<Error>)
    requires PrefixOk(prefix) && WellKept(BaseKey(prefix), B) && Usable(RenameOp(p, q)) && !(p <= q) && q <= p
    requires KeyOf(prefix, Abs(p)) == Key(prefix, p) && KeyOf(prefix, Abs(q)) == Key(prefix, q)
    requires RenamedOnto(prefix, Abs(p), Abs(q), B, B', false, false, err)
    ensures Right(prefix, B, RenameOp(p, q), B') <==> Admissible(prefix, order, B, RenameOp(p, q))
  {
    hide TreeOf, WellKept, Key, Seen, Shadowed, KeyOf, UserPath, Abs, Goes, Shallow, OnlyAt, ValidKeys, Move;
    var t := TreeOf(prefix, B);
    AbsOrdinary(p, q, B, Key(prefix, p), Key(prefix, q));
    UserValid(p);
    UserValid(q);
    SourceSeen(prefix, B, p);
    KeyBelow(prefix, p, q);
    KeyInside(prefix, q);
    TreeWellFormed(prefix, B);
    assert p in t ==> HasDir(t, q);
    if Shadowed(t, p) {
      ShadowedParent(t, p);
      UpThere(t, p, q);
    }
    if HasFile(t, p) {
      RenameKeepsIff(prefix, B, p, q);
    }
  }

  lemma UpThere(t: Tree, p: Path, q: Path)
    requires WellFormed(t) && q < p && q != [] && HasDir(t, Parent(p))
    ensures q in t
  {
    PrefixOfParent(p, q);
    assert q < Parent(p) ==> HasDir(t, q);
  }

  /** Onto a path that is neither above the source nor below it. */
  lemma RenameAsideRight(prefix: string, order: Order, B: Objects, p: Path, q: Path, B': Objects, err: Option<Error>)
    requires PrefixOk(prefix) && WellKept(BaseKey(prefix), B) && Usable(RenameOp(p, q)) && !(p <= q) && !(q <= p)
    requires Parts(Abs(p)) == p && Parts(Abs(q)) == q && NameOk(prefix, Abs(q))
    requires KeyOf(prefix, Abs(p)) == Key(prefix, p) && KeyOf(prefix, Abs(q)) == Key(prefix, q)
    requires ParentKey(prefix, Abs(q)) == Key(prefix, Parent(q))
    requires Renamed(prefix, order, Abs(p), Abs(q), B, B', false, false, err)
    ensures Right(prefix, B, RenameOp(p, q), B') <==> Admissible(prefix, order, B, RenameOp(p, q))
  {
    hide TreeOf, WellKept, Key, Seen, Shadowed, KeyOf, UserPath, Abs, Goes, Shallow, ValidKeys, Move, Framed, Movable,
      Conserved, Tidy, IsAllMoved, ParentSeen, Occupied, Holder, Parts, NameOk, ParentKey;
    var t, K, N := TreeOf(prefix, B), Key(prefix, p), Key(prefix, q);
    AbsOrdinary(p, q, B, Key(prefix, p), Key(prefix, q));
    UserValid(p);
    UserValid(q);
    SourceSeen(prefix, B, p);
    SourceSeen(prefix, B, q);
    ParentSeenIff(prefix, B, q);
    TreeWellFormed(prefix, B);
    ShadowedAbsent(t, p);
    ShadowedAbsent(t, q);
    MoveDiffers(t, p, q);
    if HasFile(t, p) {
      RenameKeepsIff(prefix, B, p, q);
    } else if Seen(B, K) && !Seen(B, N) && ParentSeen(prefix, Abs(q), B) {
      if p in t {
        RenameDirRight(prefix, order, B, p, q, B', err);
      } else {
        HolderMade(prefix, B', q);
      }
    } else if Shadowed(t, q) {
      ShadowedParent(t, q);
    }
  }

  lemma MoveDiffers(t: Tree, p: Path, q: Path)
    requires !(q <= p)
    ensures p in t ==> p !in Move(t, p, q) && Move(t, p, q) != t
  {
    MoveAt(t, p, q, p);
  }

  /** A holder stands for a node. */
  lemma HolderMade(prefix: string, B: Objects, q: Path)
    requires PrefixOk(prefix) && ValidPath(q) && q != [] && Holder(Key(prefix, q)) in B
    ensures WellKept(BaseKey(prefix), B) ==> q in TreeOf(prefix, B)
  {
    if WellKept(BaseKey(prefix), B) {
      TreeAt(prefix, B, q);
    }
  }

  /** A directory whose target is not there. */
  lemma RenameDirRight(prefix: string, order: Order, B: Objects, p: Path, q: Path, B': Objects, err: Option<Error>)
    requires PrefixOk(prefix) && WellKept(BaseKey(prefix), B) && Usable(RenameOp(p, q)) && !(p <= q) && !(q <= p)
    requires Parts(Abs(p)) == p && Parts(Abs(q)) == q && NameOk(prefix, Abs(q))
    requires KeyOf(prefix, Abs(p)) == Key(prefix, p) && KeyOf(prefix, Abs(q)) == Key(prefix, q)
    requires ParentKey(prefix, Abs(q)) == Key(prefix, Parent(q))
    requires Renamed(prefix, order, Abs(p), Abs(q), B, B', false, false, err)
    requires var t := TreeOf(prefix, B); HasDir(t, p) && q !in t && p in t
    requires !Seen(B, Key(prefix, q)) && ParentSeen(prefix, Abs(q), B)
    ensures var t := TreeOf(prefix, B);
      Right(prefix, B, RenameOp(p, q), B') <==> HasDir(t, Parent(q)) && Goes(order, B, Key(prefix, p), Key(prefix, q))
    ensures HasDir(TreeOf(prefix, B), Parent(q)) ==> WellKept(BaseKey(prefix), B')
    ensures Movable(B, Key(prefix, p), Key(prefix, q)) && Holder(Key(prefix, q)) in B'
    ensures Framed(B, B', Key(prefix, p), Key(prefix, q))
  {
    hide TreeOf, WellKept, Key, Seen, Shadowed, KeyOf, UserPath, Abs, Goes, Shallow, ValidKeys, Move, Framed, Movable,
      Conserved, IsAllMoved, ParentSeen, Holder, Parts, NameOk, ParentKey, HasSuffix, Occupied, AtOrBelow, Unshadowed;
    var t, K, N := TreeOf(prefix, B), Key(prefix, p), Key(prefix, q);
    AbsOrdinary(p, q, B, Key(prefix, p), Key(prefix, q));
    UserValid(p);
    UserValid(q);
    SourceSeen(prefix, B, p);
    TreeMovable(prefix, B, p, q);
    MoveDiffers(t, p, q);
    HolderMade(prefix, B', q);
    KeyBelow(prefix, p, q);
    AboveAtOrBelow(K, N);
    if HasDir(t, Parent(q)) {
      ParentIsDir(prefix, B, q);
      assert Tidy(BaseKey(prefix), B, K, N, Key(prefix, Parent(q)));
      if err.None? {
        RenameRefines(prefix, B, B', p, q);
      } else {
        GetIn(B, Holder(K));
        GetIn(B', Holder(K));
        HolderMade(prefix, B', p);
      }
    }
  }

  /** The rename of what is no file keeps the bucket well kept exactly if it does nothing or the target's
      parent is a directory: under a parent that is none Mkdir still puts a holder. */
  lemma RenameDirKeepsIff(prefix: string, order: Order, B: Objects, p: Path, q: Path, B': Objects)
    requires PrefixOk(prefix) && WellKept(BaseKey(prefix), B) && Usable(RenameOp(p, q))
    requires Step(prefix, order, B, RenameOp(p, q), B')
    requires !HasFile(TreeOf(prefix, B), p) && !(p <= q) && !(q <= p)
    ensures var t := TreeOf(prefix, B);
      WellKept(BaseKey(prefix), B') <==>
        (p !in t && !Shadowed(t, p)) || q in t || Shadowed(t, q) || !Mistaken(t, Parent(q))
  {
    hide TreeOf, WellKept, Key, Seen, Shadowed, KeyOf, UserPath, NameOk, Abs, Parts, Refused, Goes, RenamedOnto,
      AtOrBelow, Shallow, ValidKeys, Framed, Movable, Conserved, Tidy, IsAllMoved, ParentSeen, Occupied, ParentKey,
      Holder;
    var err :| RenameDone(prefix, order, Abs(p), Abs(q), B, B', false, false, err);
    var t := TreeOf(prefix, B);
    AbsOrdinary(p, q, B, Key(prefix, p), Key(prefix, q));
    UserValid(p);
    UserValid(q);
    AbsName(prefix, p);
    AbsName(prefix, q);
    RefusedAbs(prefix, p, q);
    KeyBelow(prefix, q, p);
    SourceSeen(prefix, B, p);
    SourceSeen(prefix, B, q);
    ParentSeenIff(prefix, B, q);
    if Seen(B, Key(prefix, p)) && !Seen(B, Key(prefix, q)) && ParentSeen(prefix, Abs(q), B) {
      if p !in t {
        MkdirKeepsIff(prefix, B, q);
      } else {
        RenameDirRight(prefix, order, B, p, q, B', err);
        if Mistaken(t, Parent(q)) {
          UnderParent(prefix, B, B', p, q);
        }
      }
    }
  }

  /** Nothing is well kept with a holder under a parent that is none. */
  lemma UnderParent(prefix: string, B: Objects, B': Objects, p: Path, q: Path)
    requires PrefixOk(prefix) && UserPath(p) && UserPath(q) && WellKept(BaseKey(prefix), B) && !(p <= q) && !(q <= p)
    requires Framed(B, B', Key(prefix, p), Key(prefix, q)) && Holder(Key(prefix, q)) in B'
    requires Mistaken(TreeOf(prefix, B), Parent(q)) && Movable(B, Key(prefix, p), Key(prefix, q))
    ensures !WellKept(BaseKey(prefix), B')
  {
    hide TreeOf, WellKept, Key, Shadowed, HasSuffix;
    var base, d, K, N := BaseKey(prefix), Parent(q), Key(prefix, p), Key(prefix, q);
    if WellKept(base, B') {
      ValidPrefix(d, q);
      TreeAt(prefix, B, d);
      HolderNotFile(prefix, B, d);
      HolderKey(prefix, d);
      KeyBelow(prefix, p, d + [DIR_HOLDER]);
      KeyBelow(prefix, q, d + [DIR_HOLDER]);
      KeyBelow(prefix, d, q);
      SiblingOfHolder(p, q);
      KeyInside(prefix, d);
      HolderIsChild(N);
      AboveTransitive(Key(prefix, d), N, Holder(N));
      assert Get(B', Holder(Key(prefix, d))) == Get(B, Holder(Key(prefix, d)));
      HeldAt(base, B', Holder(N), Key(prefix, d));
    }
  }

  lemma SiblingOfHolder(p: Path, q: Path)
    requires UserPath(p) && UserPath(q) && !(p <= q) && |q| > 1
    ensures !(p <= Parent(q) + [DIR_HOLDER]) && !(q <= Parent(q) + [DIR_HOLDER])
  {
    SelfSuffix();
    var h := Parent(q) + [DIR_HOLDER];
    BelowHolder(p, Parent(q));
    BelowHolder(q, Parent(q));
    assert Parent(q) <= q;
  }

  // ---------------------------------------------------------------- what the calls answer

  /** Whether a fault-free call on the cleaned names of the paths answers nil. */
  ghost predicate Answers(prefix: string, order: Order, B: Objects, op: Op, B': Objects, nil: bool) {
    match op
    case MkdirOp(p) =>
      p != [] && Parts(Abs(p)) == p ==> (nil <==> MkdirError(prefix, Abs(p), B).None?)
    case WriteOp(p, _) =>
      p != [] && Parts(Abs(p)) == p ==> (nil <==> ParentSeen(prefix, Abs(p), B))
    case RenameOp(p, q) =>
      exists err: Option<Error> ::
        RenameDone(prefix, order, Abs(p), Abs(q), B, B', false, false, err) && (nil <==> err.None?)
    case RemoveOp(p) => nil <==> p != []
  }

  /** The calls that answer nil exactly when they should, as seen in the tree. */
  ghost predicate Truthful(prefix: string, order: Order, B: Objects, op: Op)
    requires Usable(op)
  {
    var t := TreeOf(prefix, B);
    match op
    case MkdirOp(p) => !Shadowed(t, p) && (p in t || !Mistaken(t, Parent(p)))
    case WriteOp(p, _) => !HasDir(t, p) && !Mistaken(t, Parent(p))
    case RenameOp(p, q) =>
      if p == q then p in t
      else if p < q then true
      else if HasFile(t, p) then HasDir(t, Parent(q)) && !HasDir(t, q)
      else if p in t then
        q in t || (!Shadowed(t, q) && (HasDir(t, Parent(q)) || Mistaken(t, Parent(q)) ==>
                     (HasDir(t, Parent(q)) <==> Goes(order, B, Key(prefix, p), Key(prefix, q)))))
      else
        !Shadowed(t, p) || q in t || Shadowed(t, q) || !(HasDir(t, Parent(q)) || Mistaken(t, Parent(q)))
    case RemoveOp(p) => true
  }

  /** A call answers nil exactly when the reference does, if and only if it is truthful. */
  lemma AnswerRightIff(prefix: string, order: Order, B: Objects, op: Op, B': Objects, nil: bool)
    requires PrefixOk(prefix) && WellKept(BaseKey(prefix), B) && Usable(op) && Answers(prefix, order, B, op, B', nil)
    ensures (nil <==> FaultOf(TreeOf(prefix, B), op) == None) <==> Truthful(prefix, order, B, op)
  {
    hide WellKept, TreeOf, Shadowed, Goes, UserPath, ParentSeen, MkdirError, Parts, Abs, RenameDone;
    var t := TreeOf(prefix, B);
    TreeWellFormed(prefix, B);
    match op
    case MkdirOp(p) =>
      UserValid(p);
      AbsName(prefix, p);
      MkdirAgrees(prefix, Abs(p), B);
      MkdirFault(t, p);
      MkdirSeen(prefix, B, p);
    case WriteOp(p, _) =>
      UserValid(p);
      AbsName(prefix, p);
      ParentSeenIff(prefix, B, p);
      if HasDir(t, p) { ParentHere(t, p); }
    case RenameOp(p, q) =>
      var err: Option<Error> :|
        RenameDone(prefix, order, Abs(p), Abs(q), B, B', false, false, err) && (nil <==> err.None?);
      RenameTruthful(prefix, order, B, p, q, B', err);
    case RemoveOp(p) =>
  }

  lemma MkdirFault(t: Tree, p: Path)
    requires p != []
    ensures FaultOf(t, MkdirOp(p)) == None <==> TreeMkdirError(t, p) == None
  {
  }

  lemma MkdirSeen(prefix: string, B: Objects, p: Path)
    requires PrefixOk(prefix) && WellKept(BaseKey(prefix), B) && Usable(MkdirOp(p))
    requires Parts(Abs(p)) == p && NameOk(prefix, Abs(p)) && KeyOf(prefix, Abs(p)) == Key(prefix, p)
    ensures var t := TreeOf(prefix, B);
      MkdirError(prefix, Abs(p), B).None? <==>
        p !in t && !Shadowed(t, p) && (HasDir(t, Parent(p)) || Mistaken(t, Parent(p)))
    ensures Shadowed(TreeOf(prefix, B), p) ==> HasDir(TreeOf(prefix, B), Parent(p)) && p !in TreeOf(prefix, B)
  {
    hide TreeOf, WellKept, Key, Seen, Shadowed, ParentSeen, KeyOf, UserPath, NameOk, Abs, Parts;
    var t := TreeOf(prefix, B);
    UserValid(p);
    SeenIff(prefix, B, p);
    ParentSeenIff(prefix, B, p);
    TreeWellFormed(prefix, B);
    if Shadowed(t, p) { ShadowedParent(t, p); }
  }

  lemma RenameTruthful(prefix: string, order: Order, B: Objects, p: Path, q: Path, B': Objects, err: Option<Error>)
    requires PrefixOk(prefix) && WellKept(BaseKey(prefix), B) && Usable(RenameOp(p, q))
    requires RenameDone(prefix, order, Abs(p), Abs(q), B, B', false, false, err)
    ensures (err.None? <==> FaultOf(TreeOf(prefix, B), RenameOp(p, q)) == None) <==>
      Truthful(prefix, order, B, RenameOp(p, q))
  {
    hide TreeOf, WellKept, Key, Seen, Shadowed, KeyOf, UserPath, NameOk, Abs, Parts, Refused, Goes, RenamedOnto,
      Renamed, AtOrBelow, FaultOf, Truthful;
    UserValid(p);
    UserValid(q);
    AbsName(prefix, p);
    AbsName(prefix, q);
    RefusedAbs(prefix, p, q);
    KeyBelow(prefix, q, p);
    TreeWellFormed(prefix, B);
    if p <= q {
      AbsSame(p, q) by { AbsName(prefix, p); AbsName(prefix, q); }
      SameTruthful(prefix, order, B, p, q);
    } else if q <= p {
      UpTruthful(prefix, order, B, p, q, B', err);
    } else {
      AsideTruthful(prefix, order, B, p, q, B', err);
    }
  }

  lemma AbsSame(p: Path, q: Path)
    requires Parts(Abs(p)) == p && Parts(Abs(q)) == q
    ensures Abs(p) == Abs(q) <==> p == q
  {
    hide Abs, Parts;
  }

  lemma SameTruthful(prefix: string, order: Order, B: Objects, p: Path, q: Path)
    requires Usable(RenameOp(p, q)) && p <= q
    ensures ((p == q) <==> FaultOf(TreeOf(prefix, B), RenameOp(p, q)) == None) <==>
      Truthful(prefix, order, B, RenameOp(p, q))
  {
    hide TreeOf, Shadowed, Goes;
    assert p == q || p < q;
  }

  lemma UpTruthful(prefix: string, order: Order, B: Objects, p: Path, q: Path, B': Objects, err: Option<Error>)
    requires PrefixOk(prefix) && WellKept(BaseKey(prefix), B) && Usable(RenameOp(p, q)) && !(p <= q) && q <= p
    requires KeyOf(prefix, Abs(p)) == Key(prefix, p) && KeyOf(prefix, Abs(q)) == Key(prefix, q)
    requires RenamedOnto(prefix, Abs(p), Abs(q), B, B', false, false, err)
    ensures (err.None? <==> FaultOf(TreeOf(prefix, B), RenameOp(p, q)) == None) <==>
      Truthful(prefix, order, B, RenameOp(p, q))
  {
    hide TreeOf, WellKept, Key, Seen, Shadowed, KeyOf, UserPath, Abs, Goes, Shallow, OnlyAt, ValidKeys;
    var t := TreeOf(prefix, B);
    AbsOrdinary(p, q, B, Key(prefix, p), Key(prefix, q));
    UserValid(p);
    UserValid(q);
    SourceSeen(prefix, B, p);
    KeyBelow(prefix, p, q);
    KeyInside(prefix, q);
    TreeWellFormed(prefix, B);
    assert p in t ==> HasDir(t, q);
    if Shadowed(t, p) {
      ShadowedParent(t, p);
      UpThere(t, p, q);
    }
  }

  lemma AsideTruthful(prefix: string, order: Order, B: Objects, p: Path, q: Path, B': Objects, err: Option<Error>)
    requires PrefixOk(prefix) && WellKept(BaseKey(prefix), B) && Usable(RenameOp(p, q)) && !(p <= q) && !(q <= p)
    requires Parts(Abs(p)) == p && Parts(Abs(q)) == q && NameOk(prefix, Abs(q))
    requires KeyOf(prefix, Abs(p)) == Key(prefix, p) && KeyOf(prefix, Abs(q)) == Key(prefix, q)
    requires Renamed(prefix, order, Abs(p), Abs(q), B, B', false, false, err)
    ensures (err.None? <==> FaultOf(TreeOf(prefix, B), RenameOp(p, q)) == None) <==>
      Truthful(prefix, order, B, RenameOp(p, q))
  {
    hide TreeOf, WellKept, Key, Seen, Shadowed, KeyOf, UserPath, Abs, Goes, Shallow, ValidKeys, Framed, Movable,
      Conserved, Tidy, IsAllMoved, ParentSeen, Occupied, Holder, Parts, NameOk, ParentKey, FilesKept, FileRenamed;
    var t, K, N := TreeOf(prefix, B), Key(prefix, p), Key(prefix, q);
    AbsOrdinary(p, q, B, K, N);
    UserValid(p);
    UserValid(q);
    SourceSeen(prefix, B, p);
    SourceSeen(prefix, B, q);
    ParentSeenIff(prefix, B, q);
    TreeWellFormed(prefix, B);
    ShadowedAbsent(t, p);
    ShadowedAbsent(t, q);
    if q in t { ParentHere(t, q); }
    if Shadowed(t, q) { ShadowedParent(t, q); }
    if p in t && q !in t { TreeMovable(prefix, B, p, q); }
  }

  // ---------------------------------------------------------------- when a move goes through

  /** No directory below p has a neighbour, an entry or the holder, with a longer name that starts with
      its own. */
  ghost predicate TreeClear(t: Tree, p: Path) {
    forall r :: r in t && p < r && t[r] == Dir ==>
      !(LastName(r) < DIR_HOLDER) && forall s :: s in t ==> !Longer(s, r)
  }

  lemma AbsentFresh(prefix: string, B: Objects, q: Path)
    requires PrefixOk(prefix) && UserPath(q) && WellKept(BaseKey(prefix), B) && q !in TreeOf(prefix, B)
    ensures Fresh(B, Key(prefix, q))
  {
    hide TreeOf, WellKept, Key;
    var N, base := Key(prefix, q), BaseKey(prefix);
    KeyInside(prefix, q);
    TreeAt(prefix, B, q);
    UserKey(prefix, q);
    forall k | k in B ensures !AtOrBelow(N, k) {
      if Above(N, k) { HeldAt(base, B, k, N); }
    }
  }

  lemma TreeMovable(prefix: string, B: Objects, p: Path, q: Path)
    requires PrefixOk(prefix) && UserPath(p) && UserPath(q) && WellKept(BaseKey(prefix), B)
    requires p in TreeOf(prefix, B) && q !in TreeOf(prefix, B) && !(p <= q)
    ensures Movable(B, Key(prefix, p), Key(prefix, q))
  {
    hide TreeOf, Key, ValidKeys, Holder;
    var t, K, N := TreeOf(prefix, B), Key(prefix, p), Key(prefix, q);
    AbsentFresh(prefix, B, q);
    KeyInside(prefix, p);
    KeyInside(prefix, q);
    TreeAt(prefix, B, p);
    HolderIsChild(K);
    assert Occupied(B, K);
    KeyBelow(prefix, p, q);
    KeyBelow(prefix, q, p);
    TreeWellFormed(prefix, B);
    if q <= p { NothingBelow(t, q, p); }
    KeptWhole(BaseKey(prefix), B, K);
  }

  lemma KeptWhole(base: string, B: Objects, K: string)
    requires WellKept(base, B) && Inside(base, K) && AtOrBelow(base, K) && K != ""
    ensures Strict(B, K) && Whole(B, K)
  {
    StrictWhole(B, K) by { KeptStrict(base, B, K); }
    KeptStrict(base, B, K);
  }

  lemma KeptStrict(base: string, B: Objects, K: string)
    requires WellKept(base, B) && Inside(base, K) && AtOrBelow(base, K) && K != ""
    ensures Strict(B, K)
  {
    forall k, d | k in B && AtOrBelow(K, d) && Above(d, k)
      ensures d !in B && Get(B, Holder(d)) == Some([])
    {
      AboveTransitive(base, K, d);
      assert Inside(base, d) by { InsideBelow(base, K, d); }
      HolderIsChild(d);
      AboveTransitive(base, d, Holder(d));
    }
  }

  lemma InsideBelow(base: string, K: string, d: string)
    requires Inside(base, K) && AtOrBelow(K, d) && K != ""
    ensures Inside(base, d)
  {
    AboveTransitive(base, K, d);
  }

  /** A directory with no such neighbours can be moved in whatever order the bucket is listed. */
  lemma TreeClearGoes(prefix: string, order: Order, B: Objects, p: Path, q: Path)
    requires PrefixOk(prefix) && UserPath(p) && UserPath(q) && WellKept(BaseKey(prefix), B)
    requires var t := TreeOf(prefix, B);
      HasDir(t, p) && p in t && q !in t && !(p <= q) && !Shadowed(t, q) && TreeClear(t, p)
    ensures Goes(order, B, Key(prefix, p), Key(prefix, q))
  {
    hide TreeOf, WellKept, Key, Shadowed, TreeClear, Seen, ClearBelow, Whole, Fresh, Occupied, ValidKeys, AtOrBelow,
      Goes;
    var K, N, base := Key(prefix, p), Key(prefix, q), BaseKey(prefix);
    UserValid(p);
    UserValid(q);
    SourceSeen(prefix, B, p);
    TreeMovable(prefix, B, p, q);
    TreeUnshadowed(prefix, B, p, q);
    KeptKeys(base, B);
    ProperKey(prefix, p);
    ClearPasses(base, order, B, K);
    GoesIs(base, order, B, K, N);
    KeyBelow(prefix, p, q);
    ReadLists(base, order, B, K) by { ProperIs(base, K); }
    forall i | i in Read(order, B, K) ensures !AtOrBelow(Child(K, i.name), N) {
      ListsMember(Read(order, B, K), Children(B, K), i);
      ChildEntry(base, B, K, i) by { ProperIs(base, K); }
      ChildAtOrBelow(K, i.name, N);
    }
  }

  lemma ProperKey(prefix: string, p: Path)
    requires PrefixOk(prefix) && ValidPath(p) && p != []
    ensures Proper(BaseKey(prefix), Key(prefix, p))
  {
    KeyInside(prefix, p);
  }

  lemma TreeUnshadowed(prefix: string, B: Objects, p: Path, q: Path)
    requires PrefixOk(prefix) && UserPath(p) && UserPath(q) && WellKept(BaseKey(prefix), B)
    requires p in TreeOf(prefix, B) && q !in TreeOf(prefix, B)
    requires HasFile(TreeOf(prefix, B), p) || (!Shadowed(TreeOf(prefix, B), q) && TreeClear(TreeOf(prefix, B), p))
    ensures Unshadowed(B, Key(prefix, p), Key(prefix, q))
  {
    hide TreeOf, WellKept, Key, Holder, HasSuffix, Shadowed, TreeClear, Seen, ClearBelow;
    TreeAt(prefix, B, p);
    if !HasFile(TreeOf(prefix, B), p) {
      SeenIff(prefix, B, q);
      KeyInside(prefix, p);
      TreeClearBelow(prefix, B, p);
    }
  }

  /** What is clear in the tree is clear in the bucket; in the root there must be no directory called as a holder. */
  lemma TreeClearBelow(prefix: string, B: Objects, p: Path)
    requires PrefixOk(prefix) && ValidPath(p) && WellKept(BaseKey(prefix), B) && TreeClear(TreeOf(prefix, B), p)
    requires Key(prefix, p) != "" && (p == [] ==> [DIR_HOLDER] !in TreeOf(prefix, B))
    ensures ClearBelow(B, Key(prefix, p))
  {
    hide TreeOf, WellKept, Key, Holder, HasSuffix, TreeClear, Clear, Above, AtOrBelow, Strict;
    var K := Key(prefix, p);
    KeyInside(prefix, p);
    forall c, k | Above(K, c) && k in B && Above(c, k) ensures Clear(B, c) && !(c <= Holder(K)) {
      ClearAt(prefix, B, p, c, k);
      if p == [] {
        RootKey(prefix);
        ClearRoot(prefix, B, c, k);
      } else {
        KeptStrict(BaseKey(prefix), B, K);
        ClearOfHolder(B, K, c, k);
      }
    }
  }

  /** The path of a directory that a key lies below. */
  lemma DirPath(prefix: string, B: Objects, p: Path, c: string, k: string)
    requires PrefixOk(prefix) && ValidPath(p) && WellKept(BaseKey(prefix), B)
    requires Key(prefix, p) != "" && Above(Key(prefix, p), c) && k in B && Above(c, k)
    ensures Above(BaseKey(prefix), c)
    ensures var r := PathOf(prefix, c);
      && p < r && ValidPath(r) && Key(prefix, r) == c && r in TreeOf(prefix, B) && TreeOf(prefix, B)[r] == Dir
  {
    hide TreeOf, WellKept, Key, Holder, HasSuffix;
    var base := BaseKey(prefix);
    KeyInside(prefix, p);
    AboveTransitive(base, Key(prefix, p), c);
    AboveNotSelf(Key(prefix, p), c);
    InsideFrom(base, Key(prefix, p), c);
    assert KeyOk(base, k) by { WellKeptKey(base, B, k); }
    ParentKeyOk(base, c, k);
    assert KeyOk(base, c);
    KeyOfPath(prefix, c);
    var r := PathOf(prefix, c);
    if p != [] { KeyBelow(prefix, p, r); }
    HeldAt(base, B, k, c);
    TreeAt(prefix, B, r);
    NoFileAbove(prefix, B, r);
  }

  lemma InsideFrom(base: string, K: string, c: string)
    requires AtOrBelow(base, K) && Above(K, c) && K != ""
    ensures Inside(base, c)
  {
    AboveTransitive(base, K, c);
  }

  lemma ClearRoot(prefix: string, B: Objects, c: string, k: string)
    requires PrefixOk(prefix) && WellKept(BaseKey(prefix), B) && TreeClear(TreeOf(prefix, B), [])
    requires [DIR_HOLDER] !in TreeOf(prefix, B) && BaseKey(prefix) != ""
    requires Above(BaseKey(prefix), c) && k in B && Above(c, k)
    ensures !(c <= Holder(BaseKey(prefix)))
  {
    hide TreeOf, WellKept, Key, HasSuffix;
    var base := BaseKey(prefix);
    RootKey(prefix);
    DirPath(prefix, B, [], c, k);
    if c <= Holder(base) {
      HolderRest(base, c);
      SplitNoSlash(Rest(base, c));
      ClearTop(TreeOf(prefix, B), Rest(base, c));
    }
  }

  lemma ClearTop(t: Tree, x: string)
    requires TreeClear(t, []) && [x] in t && t[[x]] == Dir && [DIR_HOLDER] !in t
    ensures !(x <= DIR_HOLDER)
  {
    assert LastName([x]) == x && |[x]| == 1 && [] < [x];
    assert x <= DIR_HOLDER ==> x < DIR_HOLDER || x == DIR_HOLDER;
  }

  lemma HolderRest(base: string, c: string)
    requires Above(base, c) && c <= Holder(base)
    ensures Rest(base, c) <= DIR_HOLDER
    ensures NoSlash(Rest(base, c))
  {
    hide *;
    HolderSeg(base);
    RestIs(base, c);
    RestIs(base, Holder(base));
    RestStarts(Slash(base), Rest(base, c), DIR_HOLDER);
    NoSlashWithin(Rest(base, c));
  }

  lemma NoSlashWithin(x: string)
    requires x <= DIR_HOLDER
    ensures NoSlash(x)
  {
    HolderIsChild("");
    assert forall i :: 0 <= i < |x| ==> x[i] == DIR_HOLDER[i] && x[i] in DIR_HOLDER;
  }

  lemma RestStarts(s: string, x: string, y: string)
    requires s + x <= s + y
    ensures x <= y
  {
    assert x == (s + x)[|s|..] && y == (s + y)[|s|..];
    assert (s + y)[..|s + x|] == s + x;
    assert y[..|x|] == (s + y)[..|s + x|][|s|..];
  }

  lemma ClearAt(prefix: string, B: Objects, p: Path, c: string, k: string)
    requires PrefixOk(prefix) && ValidPath(p) && WellKept(BaseKey(prefix), B) && TreeClear(TreeOf(prefix, B), p)
    requires Key(prefix, p) != "" && Above(Key(prefix, p), c) && k in B && Above(c, k)
    ensures Clear(B, c)
  {
    hide TreeOf, WellKept, Key, Holder, HasSuffix, TreeClear, AtOrBelow, Above;
    DirPath(prefix, B, p, c, k);
    forall j | j in B && c <= j ensures AtOrBelow(c, j) {
      ClearFrom(prefix, B, p, PathOf(prefix, c), j);
    }
  }

  lemma ClearFrom(prefix: string, B: Objects, p: Path, r: Path, j: string)
    requires PrefixOk(prefix) && WellKept(BaseKey(prefix), B) && TreeClear(TreeOf(prefix, B), p)
    requires ValidPath(r) && p < r && r in TreeOf(prefix, B) && TreeOf(prefix, B)[r] == Dir
    requires j in B && Key(prefix, r) <= j
    ensures AtOrBelow(Key(prefix, r), j)
  {
    hide TreeOf, WellKept, Key, Holder, HasSuffix, AtOrBelow, CutOff;
    var base := BaseKey(prefix);
    KeyInside(prefix, r);
    AbovePrefix(base, Key(prefix, r), j);
    assert KeyOk(base, j) by { WellKeptKey(base, B, j); }
    KeyOfPath(prefix, j);
    var s := PathOf(prefix, j);
    KeyPrefix(prefix, r, s);
    CutAt(r, s);
    var s' := s[..|r|];
    NodeBelow(prefix, B, s', s);
    KeyBelow(prefix, r, s);
    LongerOrSame(r, s');
  }

  // ---------------------------------------------------------------- runs

  /** A run: the buckets before and after each call. */
  ghost predicate Run(prefix: string, order: Order, states: seq<Objects>, ops: seq<Op>) {
    && |states| == |ops| + 1
    && forall i :: 0 <= i < |ops| ==> Usable(ops[i]) && Step(prefix, order, states[i], ops[i], states[i + 1])
  }

  /** Each call is admissible in the bucket it finds. */
  ghost predicate AllAdmissible(prefix: string, order: Order, states: seq<Objects>, ops: seq<Op>)
    requires Run(prefix, order, states, ops)
  {
    forall i :: 0 <= i < |ops| ==> Admissible(prefix, order, states[i], ops[i])
  }

  /** The buckets stay well kept and stand for the trees of the reference. */
  ghost predicate Follows(prefix: string, states: seq<Objects>, ops: seq<Op>)
    requires |states| == |ops| + 1
  {
    forall i :: 0 <= i <= |ops| ==>
      WellKept(BaseKey(prefix), states[i]) && TreeOf(prefix, states[i]) == ApplyAll(TreeOf(prefix, states[0]), ops[..i])
  }

  lemma {:induction false} ApplyNext(t: Tree, ops: seq<Op>, i: nat)
    requires i < |ops|
    ensures ApplyAll(t, ops[..i + 1]) == Apply(ApplyAll(t, ops[..i]), ops[i])
    decreases i
  {
    hide Apply;
    if i > 0 {
      assert ops[..i + 1][1..] == ops[1..][..i] && ops[..i][1..] == ops[1..][..i - 1];
      ApplyNext(Apply(t, ops[0]), ops[1..], i - 1);
    } else {
      assert ops[..1][1..] == [] && ops[..0] == [];
    }
  }

  lemma RunStep(prefix: string, order: Order, states: seq<Objects>, ops: seq<Op>, i: nat)
    requires PrefixOk(prefix) && Run(prefix, order, states, ops) && i < |ops|
    requires WellKept(BaseKey(prefix), states[i])
    requires TreeOf(prefix, states[i]) == ApplyAll(TreeOf(prefix, states[0]), ops[..i])
    ensures Admissible(prefix, order, states[i], ops[i]) <==>
      && WellKept(BaseKey(prefix), states[i + 1])
      && TreeOf(prefix, states[i + 1]) == ApplyAll(TreeOf(prefix, states[0]), ops[..i + 1])
  {
    hide TreeOf, WellKept, Step, Admissible, Apply;
    StepRightIff(prefix, order, states[i], ops[i], states[i + 1]);
    ApplyNext(TreeOf(prefix, states[0]), ops, i);
  }

  /** Over every run from a well-kept bucket: the bucket stays well kept and goes on standing for the tree of
      the reference exactly as long as every call is admissible. */
  lemma RunFollowsIff(prefix: string, order: Order, states: seq<Objects>, ops: seq<Op>)
    requires PrefixOk(prefix) && Run(prefix, order, states, ops) && WellKept(BaseKey(prefix), states[0])
    ensures Follows(prefix, states, ops) <==> AllAdmissible(prefix, order, states, ops)
  {
    hide TreeOf, WellKept, Step, Admissible, Apply;
    if Follows(prefix, states, ops) {
      forall i | 0 <= i < |ops| ensures Admissible(prefix, order, states[i], ops[i]) {
        RunStep(prefix, order, states, ops, i);
      }
    }
    if AllAdmissible(prefix, order, states, ops) {
      forall i | 0 <= i <= |ops|
        ensures WellKept(BaseKey(prefix), states[i])
        ensures TreeOf(prefix, states[i]) == ApplyAll(TreeOf(prefix, states[0]), ops[..i])
      {
        RunFollows(prefix, order, states, ops, i);
      }
    }
  }

  lemma {:induction false} RunFollows(prefix: string, order: Order, states: seq<Objects>, ops: seq<Op>, i: nat)
    requires PrefixOk(prefix) && Run(prefix, order, states, ops) && WellKept(BaseKey(prefix), states[0]) && i <= |ops|
    requires forall j :: 0 <= j < i ==> Admissible(prefix, order, states[j], ops[j])
    ensures WellKept(BaseKey(prefix), states[i])
    ensures TreeOf(prefix, states[i]) == ApplyAll(TreeOf(prefix, states[0]), ops[..i])
    decreases i
  {
    hide TreeOf, WellKept, Step, Admissible, Apply;
    if i > 0 {
      RunFollows(prefix, order, states, ops, i - 1);
      RunStep(prefix, order, states, ops, i - 1);
    } else {
      assert ops[..0] == [];
    }
  }

  /** An empty bucket stands for the empty tree. */
  lemma EmptyBucket(prefix: string)
    ensures WellKept(BaseKey(prefix), map[]) && TreeOf(prefix, map[]) == map[]
  {
  }

  /** RemoveAll of the root in a spelling other than "/" is not refused: it empties the file system. */
  lemma RemoveRootEmpties(prefix: string, B: Objects, B': Objects)
    requires PrefixOk(prefix) && !RootPrefix(prefix) && WellKept(BaseKey(prefix), B) && WellKept(BaseKey(prefix), B')
    requires Removed(prefix, B, B', BaseKey(prefix), true)
    ensures TreeOf(prefix, B') == map[]
  {
    hide TreeOf, WellKept, Key, Holder, HasSuffix, ValidPath;
    var none: Tree := map[];
    forall r {:trigger NodeAt(prefix, B', r)} | r != [] && ValidPath(r) ensures NodeAt(prefix, B', r) == None {
      KeyInside(prefix, r);
      HolderKey(prefix, r);
      KeyInside(prefix, r + [DIR_HOLDER]);
      NotStrayFile(prefix, B', Key(prefix, r));
      NotStrayFile(prefix, B', Holder(Key(prefix, r)));
    }
    TreeEq(prefix, B', none);
  }

  /** Under the root prefix the key RemoveAll asks to remove is not the key of the file. */
  lemma RemoveAllMissesFile(prefix: string, name: string)
    requires PrefixOk(prefix) && NameOk(prefix, name) && Parts(name) != []
    ensures KeyOf(prefix, Clean(name) + "/") == KeyOf(prefix, name) <==> !RootPrefix(prefix)
  {
    DirName(prefix, name);
  }
}
