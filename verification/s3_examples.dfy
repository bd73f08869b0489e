/**
 Buckets and names on which the S3 file system parts from its promise, and one run on which it does not.
 */
module S3Examples {
  import opened Data
  import opened GoPath
  import opened Tree
  import opened S3Keys
  import opened S3Client
  import opened S3Invariant
  import opened S3Moves
  import opened S3Status
  import opened S3Removal
  import opened S3Rename
  import opened S3Passes
  import opened S3Renaming
  import opened S3Onto
  import opened S3Tree
  import opened S3Refinement
  import opened S3Attempt
  import opened S3Endless
  import opened S3Root

  // ---------------------------------------------------------------- buckets

  lemma WithDir(prefix: string, B: Objects, p: Path)
    requires PrefixOk(prefix) && UserPath(p) && WellKept(BaseKey(prefix), B)
    requires var t := TreeOf(prefix, B); HasDir(t, Parent(p)) && p !in t && !Shadowed(t, p)
    ensures var B' := B[Holder(Key(prefix, p)) := []];
      WellKept(BaseKey(prefix), B') && TreeOf(prefix, B') == TreeOf(prefix, B)[p := Dir]
  {
    hide *;
    UserValid(p);
    SeenIff(prefix, B, p);
    MkdirKeepsIff(prefix, B, p);
    MkdirRefines(prefix, B, p);
  }

  lemma WithFile(prefix: string, B: Objects, p: Path, data: Bytes)
    requires PrefixOk(prefix) && UserPath(p) && WellKept(BaseKey(prefix), B)
    requires var t := TreeOf(prefix, B); HasDir(t, Parent(p)) && !HasDir(t, p)
    ensures var B' := B[Key(prefix, p) := data];
      WellKept(BaseKey(prefix), B') && TreeOf(prefix, B') == TreeOf(prefix, B)[p := File(data)]
  {
    hide *;
    WriteKeepsIff(prefix, B, p, data);
    WriteRefines(prefix, B, p, data);
  }

  /** With nothing in the bucket but the directory /dx, Stat finds a directory /d. */
  lemma ShadowExample(prefix: string)
    requires PrefixOk(prefix)
    ensures var B: Objects := map[Holder(Key(prefix, ["dx"])) := []];
      && WellKept(BaseKey(prefix), B) && TreeOf(prefix, B) == map[["dx"] := Dir]
      && Status(prefix, "/d", B).Ok? && ["d"] !in TreeOf(prefix, B)
  {
    hide TreeOf, WellKept, Key, Holder, Status, Parts, NameOk, KeyOf;
    var p, q := ["dx"], ["d"];
    var none: Objects := map[];
    EmptyBucket(prefix);
    WithDir(prefix, none, p);
    var B: Objects := map[Holder(Key(prefix, p)) := []];
    assert B == none[Holder(Key(prefix, p)) := []];
    assert Longer(p, q) && p in TreeOf(prefix, B);
    assert Shadowed(TreeOf(prefix, B), q);
    AbsName(prefix, q);
    SeenIff(prefix, B, q);
    assert Abs(q) == "/d";
    NameStatus(prefix, "/d", B);
  }

  /** Under the root prefix, RemoveAll("/a") leaves the only file /a where it is. */
  lemma RemoveAllExample(B': Objects)
    requires var B: Objects := map["a" := [1]];
      Removed("/", B, B', "a", true)
    ensures B' == map["a" := [1]]
  {
    assert "a" in B';
    assert forall k :: k in B' ==> k == "a";
  }

  // ---------------------------------------------------------------- files moved where they should not be

  /** In a bucket with a file /f and a directory /d, moving the file onto the directory, or to a place below
      a directory that is missing, answers nil and spoils the bucket. */
  lemma RenameFileExample(prefix: string, order: Order, data: Bytes, B1: Objects, B2: Objects,
                          e1: Option<Error>, e2: Option<Error>)
    requires PrefixOk(prefix)
    requires var B: Objects := map[Holder(Key(prefix, ["d"])) := []][Key(prefix, ["f"]) := data];
      && RenameDone(prefix, order, "/f", "/d", B, B1, false, false, e1)
      && RenameDone(prefix, order, "/f", "/m/f", B, B2, false, false, e2)
    ensures var B: Objects := map[Holder(Key(prefix, ["d"])) := []][Key(prefix, ["f"]) := data];
      && WellKept(BaseKey(prefix), B) && TreeOf(prefix, B) == map[["d"] := Dir, ["f"] := File(data)]
      && e1.None? && !WellKept(BaseKey(prefix), B1)
      && e2.None? && !WellKept(BaseKey(prefix), B2)
  {
    hide TreeOf, WellKept, Key, Holder, RenameDone, Refused, NameOk, Parts, KeyOf, ParentKey;
    var none: Objects := map[];
    var D: Objects := map[Holder(Key(prefix, ["d"])) := []];
    EmptyBucket(prefix);
    WithDir(prefix, none, ["d"]);
    assert D == none[Holder(Key(prefix, ["d"])) := []];
    WithFile(prefix, D, ["f"], data);
    var B := D[Key(prefix, ["f"]) := data];
    assert Abs(["f"]) == "/f" && Abs(["d"]) == "/d" && Abs(["m", "f"]) == "/m/f";
    assert Parent(["m", "f"]) == ["m"];
    AbsName(prefix, ["f"]);
    AbsName(prefix, ["d"]);
    AbsName(prefix, ["m", "f"]);
    RefusedAbs(prefix, ["f"], ["d"]);
    RefusedAbs(prefix, ["f"], ["m", "f"]);
    FileMoved(prefix, order, B, "/f", "/d", B1, e1);
    FileMoved(prefix, order, B, "/f", "/m/f", B2, e2);
  }

  /** Moving a file to another place, itself a place below it if the guard does not see that, answers nil; the
      bucket stays well kept exactly if the place is below a directory and is none. */
  lemma FileMoved(prefix: string, order: Order, B: Objects, oldName: string, newName: string, B': Objects,
                  err: Option<Error>)
    requires PrefixOk(prefix) && NameOk(prefix, oldName) && NameOk(prefix, newName) && WellKept(BaseKey(prefix), B)
    requires UserPath(Parts(oldName)) && UserPath(Parts(newName)) && Parts(oldName) != Parts(newName)
    requires HasFile(TreeOf(prefix, B), Parts(oldName)) && !Refused(oldName, newName)
    requires RenameDone(prefix, order, oldName, newName, B, B', false, false, err)
    ensures err.None?
    ensures var t, q := TreeOf(prefix, B), Parts(newName);
      WellKept(BaseKey(prefix), B') <==> HasDir(t, Parent(q)) && !HasDir(t, q)
  {
    hide TreeOf, WellKept, Key, KeyOf, Seen, Refused, AtOrBelow, Goes, Movable, Conserved, IsAllMoved, Shallow,
      Framed, OnlyAt, Parts, NameOk, Mixed, Ordinary;
    var p, q := Parts(oldName), Parts(newName);
    UserValid(p);
    UserValid(q);
    KeyOfName(prefix, oldName);
    KeyOfName(prefix, newName);
    PlainDots();
    SourceSeen(prefix, B, p);
    KeyBelow(prefix, p, q);
    KeyInside(prefix, q);
    RenameKeepsIff(prefix, B, p, q);
  }

  /** A file moved below itself, by names of which only one starts at the root: the answer is nil, and the bucket
      is spoilt. */
  lemma FileIntoItself(prefix: string, order: Order, B: Objects, data: Bytes, B': Objects, err: Option<Error>)
    requires PrefixOk(prefix) && !RootPrefix(prefix) && WellKept(BaseKey(prefix), B)
    requires TreeOf(prefix, B) == map[["a"] := File(data)]
    requires RenameDone(prefix, order, "a", "/a/b", B, B', false, false, err)
    ensures Renameable(prefix, "a", "/a/b", B) && err.None? && !WellKept(BaseKey(prefix), B')
  {
    hide TreeOf, WellKept, Key, KeyOf, RenameDone, Parts, NoDotDot, Above;
    PartsOfName("a");
    PartsJoin(["a", "b"]);
    assert Abs(["a", "b"]) == "/a/b" && Parent(["a", "b"]) == ["a"] && "a" + "/" == "a/" && "a/"[0] != "/a/b"[0];
    KeptKeys(BaseKey(prefix), B);
    KeyOfName(prefix, "a");
    SourceSeen(prefix, B, ["a"]) by { assert UserPath(["a"]); }
    FileMoved(prefix, order, B, "a", "/a/b", B', err);
  }

  // ---------------------------------------------------------------- moves that stop half-way

  /** A directory with a subdirectory whose name is a beginning of the holder's cannot be moved. */
  lemma HolderBlocks(prefix: string, order: Order, B: Objects, p: Path, q: Path, c: string)
    requires PrefixOk(prefix) && UserPath(p) && WellKept(BaseKey(prefix), B)
    requires HasDir(TreeOf(prefix, B), p + [c]) && c <= DIR_HOLDER
    ensures !Goes(order, B, Key(prefix, p), Key(prefix, q))
  {
    hide TreeOf, WellKept, Key, Read, Children;
    var K := Key(prefix, p);
    UserValid(p);
    ReaddirAgrees(prefix, B, p, c, 0);
    ListedIs(prefix, order, B, p);
    var i :| 0 <= i < |Read(order, B, K)| && Read(order, B, K)[i] == DirInfo(c);
    assert !EntryGoes(order, B, K, Key(prefix, q), i);
  }

  lemma ListedIs(prefix: string, order: Order, B: Objects, p: Path)
    requires PrefixOk(prefix) && ValidPath(p) && WellKept(BaseKey(prefix), B)
    ensures Lists(Read(order, B, Key(prefix, p)), Children(B, Key(prefix, p)))
  {
    KeptKeys(BaseKey(prefix), B);
    KeyInside(prefix, p);
    if p == [] { RootKey(prefix); }
    ReadLists(BaseKey(prefix), order, B, Key(prefix, p));
  }

  /** A directory moved to a place beside it where nothing is: if the move is blocked, an error tells,
      and both holders are there. */
  lemma Stuck(prefix: string, order: Order, B: Objects, p: Path, q: Path, B': Objects, err: Option<Error>)
    requires PrefixOk(prefix) && Usable(RenameOp(p, q)) && WellKept(BaseKey(prefix), B) && !(p <= q) && !(q <= p)
    requires var t := TreeOf(prefix, B); HasDir(t, p) && q !in t && !Shadowed(t, q) && HasDir(t, Parent(q))
    requires RenameDone(prefix, order, Abs(p), Abs(q), B, B', false, false, err)
    ensures err.None? <==> Goes(order, B, Key(prefix, p), Key(prefix, q))
    ensures WellKept(BaseKey(prefix), B') && HasDir(TreeOf(prefix, B'), q)
    ensures err.Some? <==> HasDir(TreeOf(prefix, B'), p)
  {
    hide TreeOf, WellKept, Key, KeyOf, Seen, Abs, Refused, AtOrBelow, Goes, Movable, Conserved, IsAllMoved, Shallow,
      Framed, RenamedOnto, Parts, Shadowed, Occupied, Holder, HasSuffix, ValidKeys, Unshadowed, ParentSeen, ParentKey,
      NameOk, Move;
    var t, K, N := TreeOf(prefix, B), Key(prefix, p), Key(prefix, q);
    AbsOrdinary(p, q, B, Key(prefix, p), Key(prefix, q));
    UserValid(p);
    UserValid(q);
    AbsName(prefix, p);
    AbsName(prefix, q);
    RefusedAbs(prefix, p, q);
    KeyBelow(prefix, q, p);
    SourceSeen(prefix, B, p);
    SeenIff(prefix, B, q);
    ParentFound(prefix, B, q);
    TreeMovable(prefix, B, p, q);
    RenameDirRight(prefix, order, B, p, q, B', err);
    SourceSeen(prefix, B', q);
    SourceSeen(prefix, B', p);
    if err.None? {
      RenameRefines(prefix, B, B', p, q);
      MoveDiffers(t, p, q);
    } else {
      GetIn(B, Holder(K));
      GetIn(B', Holder(K));
    }
  }

  /** A directory with the subdirectory d and the file d.zip: it can be moved exactly if the listing gives d
      first. Otherwise Rename makes the new directory, moves d.zip and answers an error. */
  lemma OrderExample(prefix: string, order: Order, B: Objects, data: Bytes, B': Objects, err: Option<Error>)
    requires PrefixOk(prefix) && WellKept(BaseKey(prefix), B)
    requires TreeOf(prefix, B) == map[["s"] := Dir, ["s", "d"] := Dir, ["s", "d.zip"] := File(data)]
    requires RenameDone(prefix, order, "/s", "/t", B, B', false, false, err)
    ensures err.None? <==> Read(order, B, Key(prefix, ["s"])) == [DirInfo("d"), FileInfo("d.zip", |data|)]
    ensures err.Some? <==> Read(order, B, Key(prefix, ["s"])) == [FileInfo("d.zip", |data|), DirInfo("d")]
    ensures HasDir(TreeOf(prefix, B'), ["t"]) && (err.Some? <==> HasDir(TreeOf(prefix, B'), ["s"]))
  {
    hide TreeOf, WellKept, Key, RenameDone, Read, Goes, UserPath, Children;
    var p, q := ["s"], ["t"];
    assert Abs(p) == "/s" && Abs(q) == "/t";
    ExampleNames();
    ExampleTarget(TreeOf(prefix, B), data);
    Stuck(prefix, order, B, p, q, B', err);
    ExampleGoes(prefix, order, B, data);
  }

  /** Such a bucket is made by Mkdir of /s and /s/d and by writing /s/d.zip. */
  lemma OrderBucket(prefix: string, data: Bytes)
    requires PrefixOk(prefix)
    ensures var none: Objects := map[];
      var D := none[Holder(Key(prefix, ["s"])) := []][Holder(Key(prefix, ["s", "d"])) := []];
      var B := D[Key(prefix, ["s", "d.zip"]) := data];
      && WellKept(BaseKey(prefix), B)
      && TreeOf(prefix, B) == map[["s"] := Dir, ["s", "d"] := Dir, ["s", "d.zip"] := File(data)]
  {
    hide TreeOf, WellKept, Key, Holder;
    var none: Objects := map[];
    var B1 := none[Holder(Key(prefix, ["s"])) := []];
    var B2 := B1[Holder(Key(prefix, ["s", "d"])) := []];
    EmptyBucket(prefix);
    WithDir(prefix, none, ["s"]);
    assert Parent(["s", "d"]) == ["s"] && Parent(["s", "d.zip"]) == ["s"];
    assert ["s", "d"][1] == "d" && DIR_HOLDER[0] == '.';
    WithDir(prefix, B1, ["s", "d"]);
    assert ["s", "d.zip"][1] == "d.zip" && |"d.zip"| != |"d"|;
    WithFile(prefix, B2, ["s", "d.zip"], data);
  }

  /** With a directory /s that has a subdirectory ".f", Rename stops half-way in whatever order entries are
      listed. */
  lemma HalfWayExample(prefix: string, order: Order, B': Objects, err: Option<Error>)
    requires PrefixOk(prefix)
    requires RenameDone(prefix, order, "/s", "/t", DotBucket(prefix), B', false, false, err)
    ensures WellKept(BaseKey(prefix), DotBucket(prefix))
    ensures TreeOf(prefix, DotBucket(prefix)) == map[["s"] := Dir, ["s", ".f"] := Dir]
    ensures err.Some? && HasDir(TreeOf(prefix, B'), ["s"]) && HasDir(TreeOf(prefix, B'), ["t"])
  {
    hide TreeOf, WellKept, Key, RenameDone, Goes, UserPath, DotBucket;
    var B := DotBucket(prefix);
    ExampleNames();
    DotKept(prefix);
    DotTree(prefix);
    assert Abs(["s"]) == "/s" && Abs(["t"]) == "/t" && ["s"] + [".f"] == ["s", ".f"];
    assert ["s"][0] != ["t"][0] && |["t"]| != |["s", ".f"]| && Parent(["t"]) == [];
    assert !Longer(["s"], ["t"]) by { assert LastName(["t"]) == "t" && LastName(["s"]) == "s"; }
    assert DIR_HOLDER[..2] == ".f";
    HolderBlocks(prefix, order, B, ["s"], ["t"], ".f");
    Stuck(prefix, order, B, ["s"], ["t"], B', err);
  }

  function DotBucket(prefix: string): Objects {
    map[Holder(Key(prefix, ["s"])) := [], Holder(Key(prefix, ["s", ".f"])) := []]
  }

  lemma DotKept(prefix: string)
    requires PrefixOk(prefix)
    ensures WellKept(BaseKey(prefix), DotBucket(prefix))
  {
    hide Key, Holder, HasSuffix, KeyOk;
    var B, base, S, F := DotBucket(prefix), BaseKey(prefix), Key(prefix, ["s"]), Key(prefix, ["s", ".f"]);
    ExampleNames();
    DotHolder(prefix, ["s"]);
    DotHolder(prefix, ["s", ".f"]);
    forall k, d | k in B && Inside(base, d) && Above(d, k) ensures d !in B && Holder(d) in B {
      DotAbove(prefix, d, k);
      HolderIsChild(d);
      HolderIsChild(S);
      HolderIsChild(F);
      UserKey(prefix, ["s"]);
      UserKey(prefix, ["s", ".f"]);
    }
  }

  lemma DotHolder(prefix: string, p: Path)
    requires PrefixOk(prefix) && UserPath(p)
    ensures KeyOk(BaseKey(prefix), Holder(Key(prefix, p))) && IsHolder(BaseKey(prefix), Holder(Key(prefix, p)))
  {
    hide Key, Holder;
    HolderKey(prefix, p);
    PathKeyOk(prefix, p + [DIR_HOLDER]);
    KeyInside(prefix, p);
  }

  lemma DotAbove(prefix: string, d: string, k: string)
    requires PrefixOk(prefix) && Inside(BaseKey(prefix), d) && Above(d, k)
    requires k == Holder(Key(prefix, ["s"])) || k == Holder(Key(prefix, ["s", ".f"]))
    ensures d == Key(prefix, ["s"]) || d == Key(prefix, ["s", ".f"])
  {
    hide Key, Above;
    var base, S, F := BaseKey(prefix), Key(prefix, ["s"]), Key(prefix, ["s", ".f"]);
    assert ["s"] + [".f"] == ["s", ".f"] && [] + ["s"] == ["s"];
    RootKey(prefix);
    KeyChild(prefix, [], "s");
    KeyChild(prefix, ["s"], ".f");
    AboveChild(d, S, DIR_HOLDER);
    AboveChild(d, F, DIR_HOLDER);
    AboveChild(d, S, ".f");
    AboveChild(d, base, "s");
    NotBoth(base, d);
  }

  lemma NotBoth(base: string, d: string)
    requires Inside(base, d)
    ensures !AtOrBelow(d, base)
  {
  }

  lemma DotTree(prefix: string)
    requires PrefixOk(prefix)
    ensures TreeOf(prefix, DotBucket(prefix)) == map[["s"] := Dir, ["s", ".f"] := Dir]
  {
    hide TreeOf, WellKept, Key, Holder, HasSuffix;
    var B := DotBucket(prefix);
    var t: Tree := map[["s"] := Dir, ["s", ".f"] := Dir];
    DotKept(prefix);
    ExampleNames();
    forall r {:trigger NodeAt(prefix, B, r)} | r != [] && ValidPath(r)
      ensures NodeAt(prefix, B, r) == if r in t then Some(t[r]) else None
    {
      PutNode(prefix, ["s"], r);
      PutNode(prefix, ["s", ".f"], r);
    }
    TreeEq(prefix, B, t);
  }

  lemma ExampleNames()
    ensures UserPath(["s"]) && UserPath(["t"]) && UserPath(["s", ".f"]) && UserPath(["s", "d"])
  {
  }

  lemma ExampleTarget(t: Tree, data: Bytes)
    requires t == map[["s"] := Dir, ["s", "d"] := Dir, ["s", "d.zip"] := File(data)]
    ensures !Shadowed(t, ["t"]) && HasDir(t, Parent(["t"])) && ["t"] !in t
  {
    assert Parent(["t"]) == [];
    assert ["s"][0] != ["t"][0];
    assert |["t"]| != |["s", "d"]| && |["t"]| != |["s", "d.zip"]|;
    assert !Longer(["s"], ["t"]) by { assert LastName(["t"]) == "t" && LastName(["s"]) == "s"; }
  }

  lemma ExampleGoes(prefix: string, order: Order, B: Objects, data: Bytes)
    requires PrefixOk(prefix) && WellKept(BaseKey(prefix), B)
    requires TreeOf(prefix, B) == map[["s"] := Dir, ["s", "d"] := Dir, ["s", "d.zip"] := File(data)]
    ensures var infos := Read(order, B, Key(prefix, ["s"])); var d, f := DirInfo("d"), FileInfo("d.zip", |data|);
      (infos == [d, f] || infos == [f, d]) &&
        (Goes(order, B, Key(prefix, ["s"]), Key(prefix, ["t"])) <==> infos == [d, f])
  {
    hide *;
    var K, N, d, f := Key(prefix, ["s"]), Key(prefix, ["t"]), DirInfo("d"), FileInfo("d.zip", |data|);
    ExampleChildren(prefix, B, data);
    ExampleNames();
    ListedIs(prefix, order, B, ["s"]) by { UserValid(["s"]); }
    TwoListed(Read(order, B, K), d, f);
    ExampleLeaf(prefix, order, B, data);
    ExampleAside(prefix, "d");
    ExampleAside(prefix, "d.zip");
    ExampleOrder(order, B, K, N, |data|);
  }

  lemma ExampleLeaf(prefix: string, order: Order, B: Objects, data: Bytes)
    requires PrefixOk(prefix) && WellKept(BaseKey(prefix), B)
    requires TreeOf(prefix, B) == map[["s"] := Dir, ["s", "d"] := Dir, ["s", "d.zip"] := File(data)]
    ensures Passes(order, B, Child(Key(prefix, ["s"]), "d"))
  {
    hide TreeOf, WellKept, Key, Read, Children, Passes, Child;
    assert forall r :: r in TreeOf(prefix, B) ==> |r| <= 2;
    LeafPasses(prefix, order, B, ["s", "d"]);
    KeyChild(prefix, ["s"], "d");
    assert ["s"] + ["d"] == ["s", "d"];
  }

  lemma ExampleAside(prefix: string, x: string)
    requires PrefixOk(prefix) && (x == "d" || x == "d.zip")
    ensures !AtOrBelow(Child(Key(prefix, ["s"]), x), Key(prefix, ["t"]))
  {
    hide Key, Child, AtOrBelow;
    KeyChild(prefix, ["s"], x);
    KeyBelow(prefix, ["s"] + [x], ["t"]);
  }

  lemma ExampleOrder(order: Order, B: Objects, K: string, N: string, n: nat)
    requires var d, f := DirInfo("d"), FileInfo("d.zip", n);
      Read(order, B, K) == [d, f] || Read(order, B, K) == [f, d]
    requires !AtOrBelow(Child(K, "d"), N) && !AtOrBelow(Child(K, "d.zip"), N) && Passes(order, B, Child(K, "d"))
    ensures Goes(order, B, K, N) <==> Read(order, B, K) == [DirInfo("d"), FileInfo("d.zip", n)]
  {
    hide Passes, Read, Child, AtOrBelow;
    var infos := Read(order, B, K);
    assert "d.zip"[..1] == "d" && DIR_HOLDER[0] == '.';
    if infos[0].DirInfo? {
      assert Goes(order, B, K, N);
    } else {
      assert !EntryGoes(order, B, K, N, 1);
    }
  }

  lemma TwoListed<T>(s: seq<T>, a: T, b: T)
    requires Distinct(s) && a != b && forall e :: e in s <==> e == a || e == b
    ensures s == [a, b] || s == [b, a]
  {
    assert a in s && b in s;
    NoMoreThan(s, {a, b});
  }

  lemma ExampleChildren(prefix: string, B: Objects, data: Bytes)
    requires PrefixOk(prefix) && WellKept(BaseKey(prefix), B)
    requires TreeOf(prefix, B) == map[["s"] := Dir, ["s", "d"] := Dir, ["s", "d.zip"] := File(data)]
    ensures forall i :: i in Children(B, Key(prefix, ["s"])) <==> i == DirInfo("d") || i == FileInfo("d.zip", |data|)
  {
    hide TreeOf, WellKept, Key, Children;
    forall i ensures i in Children(B, Key(prefix, ["s"])) <==> i == DirInfo("d") || i == FileInfo("d.zip", |data|) {
      var q := ["s"] + [i.name];
      assert q[1] == i.name && ["s", "d"][1] == "d" && ["s", "d.zip"][1] == "d.zip";
      assert ["s"] + ["d"] == ["s", "d"] && ["s"] + ["d.zip"] == ["s", "d.zip"];
      assert "d" != "d.zip" by { assert |"d"| != |"d.zip"|; }
      ReaddirAgrees(prefix, B, ["s"], i.name, if i.FileInfo? then i.size else 0);
    }
  }

  /** An empty directory passes. */
  lemma LeafPasses(prefix: string, order: Order, B: Objects, p: Path)
    requires PrefixOk(prefix) && WellKept(BaseKey(prefix), B) && ValidPath(p)
    requires forall r :: r in TreeOf(prefix, B) ==> !(p < r)
    ensures Passes(order, B, Key(prefix, p))
  {
    hide TreeOf, WellKept, Key, Children, Read;
    var K := Key(prefix, p);
    ListedIs(prefix, order, B, p);
    forall i ensures i !in Children(B, K) {
      ReaddirAgrees(prefix, B, p, i.name, if i.FileInfo? then i.size else 0);
      assert p < p + [i.name];
    }
    SomeListed(Read(order, B, K));
  }

  lemma SomeListed<T>(s: seq<T>)
    ensures s != [] ==> exists e :: e in s
  {
    assert s != [] ==> s[0] in s;
  }

  // ---------------------------------------------------------------- targets below the source

  /** The guard of Rename compares strings: another spelling of the source passes it. */
  lemma GuardExample(prefix: string)
    requires PrefixOk(prefix) && !RootPrefix(prefix)
    ensures NameOk(prefix, "/a/") && NameOk(prefix, "/a/b") && !Refused("/a/", "/a/b")
    ensures Parts("/a/") == ["a"] && Parts("/a/b") == ["a", "b"]
    ensures KeyOf(prefix, "/a/") == Key(prefix, ["a"]) && KeyOf(prefix, "/a/b") == Key(prefix, ["a", "b"])
    ensures Above(KeyOf(prefix, "/a/"), KeyOf(prefix, "/a/b"))
  {
    hide Key, KeyOf, Above, Parts, NoDotDot;
    PartsJoin(["a"]);
    PartsJoin(["a", "b"]);
    assert Abs(["a"]) == "/a" && Abs(["a", "b"]) == "/a/b" && "/a" + "/" == "/a/";
    PartsTrailing("/a");
    KeyOfName(prefix, "/a/");
    KeyOfName(prefix, "/a/b");
    KeyBelow(prefix, ["a"], ["a", "b"]);
    KeyBelow(prefix, ["a", "b"], ["a"]);
    assert ["a"] <= ["a", "b"] && !(["a", "b"] <= ["a"]);
    assert !Refused("/a/", "/a/b") by { assert "/a/" + "/" == "/a//" && "/a/b"[3] == 'b'; }
  }

  /** A directory moved below itself, by names the guard lets pass: the move goes through exactly under the
      condition for any move, and then the directory is gone from above its new place. */
  lemma IntoItself(prefix: string, order: Order, oldName: string, newName: string, B: Objects, B': Objects,
                   err: Option<Error>)
    requires PrefixOk(prefix) && NameOk(prefix, oldName) && NameOk(prefix, newName) && !Refused(oldName, newName)
    requires UserPath(Parts(oldName)) && UserPath(Parts(newName)) && Parts(oldName) < Parts(newName)
    requires WellKept(BaseKey(prefix), B) && ParentSeen(prefix, newName, B)
    requires var t := TreeOf(prefix, B);
      && HasDir(t, Parts(oldName)) && Parts(newName) !in t && !Shadowed(t, Parts(newName))
      && (Mixed(oldName, newName) ==> PlainWay(t, Parts(oldName), Parts(newName)))
    requires RenameDone(prefix, order, oldName, newName, B, B', false, false, err)
    ensures err.None? <==> Goes(order, B, KeyOf(prefix, oldName), KeyOf(prefix, newName))
    ensures err.None? ==>
      IsAllMoved(B, B', KeyOf(prefix, oldName), KeyOf(prefix, newName)) && !WellKept(BaseKey(prefix), B')
  {
    hide TreeOf, WellKept, Key, KeyOf, Refused, Seen, Goes, Shallow, Framed, Conserved, ValidKeys, Parts, Unshadowed,
      AllMoved, Shadowed, Holder, AtOrBelow, Above, Whole, Fresh, Occupied, ParentSeen, HasSuffix, NameOk, ParentKey,
      RenamedOnto;
    var p, q, K, N := Parts(oldName), Parts(newName), KeyOf(prefix, oldName), KeyOf(prefix, newName);
    KeyOfName(prefix, oldName);
    KeyOfName(prefix, newName);
    UserValid(p);
    UserValid(q);
    SourceSeen(prefix, B, p);
    SeenIff(prefix, B, q);
    KeyBelow(prefix, q, p);
    BelowMovable(prefix, B, p, q);
    BelowOrdinary(prefix, oldName, newName, B);
    if err.None? {
      KeyBelow(prefix, p, q);
      SpoiltAbove(prefix, B, B', p, N);
    }
  }

  lemma BelowMovable(prefix: string, B: Objects, p: Path, q: Path)
    requires PrefixOk(prefix) && UserPath(p) && UserPath(q) && WellKept(BaseKey(prefix), B) && p < q
    requires p in TreeOf(prefix, B) && q !in TreeOf(prefix, B)
    ensures Movable(B, Key(prefix, p), Key(prefix, q))
  {
    hide TreeOf, WellKept, Key, Whole, Fresh, Occupied, AtOrBelow;
    UserValid(p);
    UserValid(q);
    AbsentFresh(prefix, B, q);
    KeyInside(prefix, p);
    KeyInside(prefix, q);
    KeyBelow(prefix, q, p);
    SourceSeen(prefix, B, p);
    KeptWhole(BaseKey(prefix), B, Key(prefix, p));
    HolderIsChild(Key(prefix, p));
    UserKey(prefix, q);
  }

  /** No file or holder is on the way from p to q. */
  predicate PlainWay(t: Tree, p: Path, q: Path)
    requires p < q
  {
    UserPath(q[..|p| + 1]) && !HasFile(t, q[..|p| + 1])
  }

  lemma BelowOrdinary(prefix: string, oldName: string, newName: string, B: Objects)
    requires PrefixOk(prefix) && NameOk(prefix, oldName) && NameOk(prefix, newName) && WellKept(BaseKey(prefix), B)
    requires UserPath(Parts(oldName)) && UserPath(Parts(newName)) && Parts(oldName) < Parts(newName)
    requires Mixed(oldName, newName) ==> PlainWay(TreeOf(prefix, B), Parts(oldName), Parts(newName))
    requires Parts(newName) !in TreeOf(prefix, B)
    ensures oldName != "." && Ordinary(oldName, newName, B, KeyOf(prefix, oldName), KeyOf(prefix, newName))
  {
    hide TreeOf, WellKept, Key, KeyOf, Parts, Above, HasSuffix, Mixed, Way;
    var p, q := Parts(oldName), Parts(newName);
    var r := q[..|p| + 1];
    KeyOfName(prefix, oldName);
    KeyOfName(prefix, newName);
    UserValid(p);
    UserValid(q);
    PlainDots();
    WayKey(prefix, p, q);
    if Mixed(oldName, newName) {
      SourceSeen(prefix, B, r);
    }
  }

  lemma StrictlyAbove(K: string, N: string)
    requires AtOrBelow(K, N) && N != K
    ensures Above(K, N)
  {
  }

  lemma SpoiltAbove(prefix: string, B: Objects, B': Objects, p: Path, N: string)
    requires PrefixOk(prefix) && ValidPath(p) && p != [] && Movable(B, Key(prefix, p), N) && Key(prefix, p) !in B
    requires IsAllMoved(B, B', Key(prefix, p), N) && AtOrBelow(Key(prefix, p), N) && N != Key(prefix, p)
    ensures !WellKept(BaseKey(prefix), B')
  {
    hide WellKept, Key, Whole, Fresh, Occupied, Stray, Holder, Moved, Above, AtOrBelow;
    AboveAtOrBelow(Key(prefix, p), Holder(Key(prefix, p)));
    StrictlyAbove(Key(prefix, p), N);
    var K := Key(prefix, p);
    KeyInside(prefix, p);
    HolderThere(K, N);
    HolderAtMoved(K, N);
    HolderNotStray(K);
    HolderIsChild(K);
    HolderIsChild(N);
    AboveTransitive(K, N, Holder(N));
    assert Get(B', Holder(K)) == AllMoved(B, K, N, Holder(K)) == None;
    assert Get(B', Holder(N)) == AllMoved(B, K, N, Holder(N)) == Some([]);
    if WellKept(BaseKey(prefix), B') {
      HeldAt(BaseKey(prefix), B', Holder(N), K);
    }
  }

  /** In that spelling a directory /a with the file /a/f is moved to its own /a/b, and the answer is nil. */
  lemma IntoItselfExample(prefix: string, order: Order, B: Objects, data: Bytes, B': Objects, err: Option<Error>)
    requires PrefixOk(prefix) && !RootPrefix(prefix) && WellKept(BaseKey(prefix), B)
    requires TreeOf(prefix, B) == map[["a"] := Dir, ["a", "f"] := File(data)]
    requires RenameDone(prefix, order, "/a/", "/a/b", B, B', false, false, err)
    ensures err.None? && !WellKept(BaseKey(prefix), B')
  {
    hide TreeOf, WellKept, Key, KeyOf, Refused, Parts, RenameDone, Seen, AtOrBelow, Read, Children, NameOk;
    var K, N := Key(prefix, ["a"]), Key(prefix, ["a", "b"]);
    GuardExample(prefix);
    ListedIs(prefix, order, B, ["a"]);
    forall i | 0 <= i < |Read(order, B, K)| ensures EntryGoes(order, B, K, N, i) {
      var e := Read(order, B, K)[i];
      assert e in Read(order, B, K);
      ReaddirAgrees(prefix, B, ["a"], e.name, if e.FileInfo? then e.size else 0);
      assert (["a"] + [e.name])[1] == e.name && ["a", "f"][1] == "f";
      assert e == FileInfo("f", |data|);
      KeyChild(prefix, ["a"], "f");
      KeyBelow(prefix, ["a"] + ["f"], ["a", "b"]);
    }
    assert Parent(["a", "b"]) == ["a"] && ["a"] < ["a", "b"];
    IntoItselfTarget(prefix, B, data);
    IntoItself(prefix, order, "/a/", "/a/b", B, B', err);
  }

  lemma IntoItselfTarget(prefix: string, B: Objects, data: Bytes)
    requires PrefixOk(prefix) && !RootPrefix(prefix) && WellKept(BaseKey(prefix), B)
    requires TreeOf(prefix, B) == map[["a"] := Dir, ["a", "f"] := File(data)]
    ensures UserPath(["a"]) && UserPath(["a", "b"]) && Parts("/a/b") != [] && ParentSeen(prefix, "/a/b", B)
    ensures !Shadowed(TreeOf(prefix, B), ["a", "b"])
  {
    hide TreeOf, WellKept, Key, Parts, Seen, KeyOf;
    GuardExample(prefix);
    assert Parent(["a", "b"]) == ["a"];
    SourceSeen(prefix, B, ["a"]);
    assert ["a", "f"][1] == "f" && ["a", "b"][1] == "b" && DIR_HOLDER[0] == '.';
    assert LastName(["a", "b"]) == "b" && LastName(["a", "f"]) == "f";
    assert !Longer(["a", "f"], ["a", "b"]) && !Longer(["a"], ["a", "b"]);
  }

  /** With the directories /a and /a/b and the file /a/f, Rename("a", "/a/b/c") never ends; Rename("a", "/a/c"), to
      one of its own entries, does. */
  lemma EndlessExample(prefix: string, order: Order, B: Objects, data: Bytes)
    requires PrefixOk(prefix) && !RootPrefix(prefix) && WellKept(BaseKey(prefix), B)
    requires TreeOf(prefix, B) == map[["a"] := Dir, ["a", "b"] := Dir, ["a", "f"] := File(data)]
    ensures !Ends(prefix, order, "a", "/a/b/c", B) && Ends(prefix, order, "a", "/a/c", B)
  {
    hide TreeOf, WellKept, Ends, Parts, NameOk, Refused, TreeClear, Shadowed, UserPath;
    EndlessNames(prefix);
    EndlessTree(TreeOf(prefix, B), data);
    EndsIff(prefix, order, "a", "/a/b/c", B);
    EndsIff(prefix, order, "a", "/a/c", B);
  }

  /** Such a bucket is made by Mkdir of /a and /a/b and by writing /a/f. */
  lemma EndlessBucket(prefix: string, data: Bytes)
    requires PrefixOk(prefix)
    ensures var none: Objects := map[];
      var D := none[Holder(Key(prefix, ["a"])) := []][Holder(Key(prefix, ["a", "b"])) := []];
      var B := D[Key(prefix, ["a", "f"]) := data];
      && WellKept(BaseKey(prefix), B)
      && TreeOf(prefix, B) == map[["a"] := Dir, ["a", "b"] := Dir, ["a", "f"] := File(data)]
  {
    hide TreeOf, WellKept, Key, Holder;
    var none: Objects := map[];
    var B1 := none[Holder(Key(prefix, ["a"])) := []];
    var B2 := B1[Holder(Key(prefix, ["a", "b"])) := []];
    EmptyBucket(prefix);
    WithDir(prefix, none, ["a"]);
    assert Parent(["a", "b"]) == ["a"] && Parent(["a", "f"]) == ["a"];
    assert ["a", "b"][1] == "b" && DIR_HOLDER[0] == '.';
    WithDir(prefix, B1, ["a", "b"]);
    assert ["a", "f"][1] == "f" && "f" != "b";
    WithFile(prefix, B2, ["a", "f"], data);
  }

  lemma EndlessNames(prefix: string)
    requires PrefixOk(prefix) && !RootPrefix(prefix)
    ensures NameOk(prefix, "a") && NameOk(prefix, "/a/b/c") && NameOk(prefix, "/a/c")
    ensures Parts("a") == ["a"] && Parts("/a/b/c") == ["a", "b", "c"] && Parts("/a/c") == ["a", "c"]
    ensures Mixed("a", "/a/b/c") && !Refused("a", "/a/b/c") && Mixed("a", "/a/c") && !Refused("a", "/a/c")
  {
    hide Parts, NoDotDot;
    PartsOfName("a");
    PartsJoin(["a", "b", "c"]);
    PartsJoin(["a", "c"]);
    assert Abs(["a", "b", "c"]) == "/a/b/c" && Abs(["a", "c"]) == "/a/c";
    assert "a" + "/" == "a/" && "a/"[0] == 'a';
  }

  lemma EndlessTree(t: Tree, data: Bytes)
    requires t == map[["a"] := Dir, ["a", "b"] := Dir, ["a", "f"] := File(data)]
    ensures UserPath(["a"]) && UserPath(["a", "b", "c"]) && UserPath(["a", "c"]) && TreeClear(t, ["a"])
    ensures HasDir(t, Parent(["a", "b", "c"])) && HasDir(t, Parent(["a", "c"]))
    ensures ["a", "b", "c"] !in t && !Shadowed(t, ["a", "b", "c"]) && ["a"] < ["a", "b", "c"] && ["a"] < ["a", "c"]
  {
    assert Parent(["a", "b", "c"]) == ["a", "b"] && Parent(["a", "c"]) == ["a"];
    assert LastName(["a", "b", "c"]) == "c" && LastName(["a", "b"]) == "b" && LastName(["a", "f"]) == "f";
    assert DIR_HOLDER[0] == '.' && |["a", "b", "c"]| == 3;
  }

  // ---------------------------------------------------------------- the root

  /** Rename(".", "/x") is not refused: the root moves into its own /x, and the answer is nil. */
  lemma RootExample(prefix: string, order: Order, B: Objects, data: Bytes, B': Objects, err: Option<Error>)
    requires PrefixOk(prefix) && !RootPrefix(prefix) && WellKept(BaseKey(prefix), B) && BaseKey(prefix) !in B
    requires TreeOf(prefix, B) == map[["f"] := File(data)]
    requires RenameDone(prefix, order, ".", "/x", B, B', false, false, err)
    ensures Renameable(prefix, ".", "/x", B) && err.None? && WellKept(BaseKey(prefix), B')
    ensures TreeOf(prefix, B') == map[["x"] := Dir, ["x", "f"] := File(data)]
  {
    hide TreeOf, WellKept, Parts, NameOk, Refused, TreeClear, Shadowed, UserPath, RenameDone, Bounded, KeyOf, Graft,
      Above;
    var t: Tree := map[["f"] := File(data)];
    RootNames(prefix);
    RootTree(t, data);
    BelowNames(prefix, ".", "/x", B);
    NearBounded(".", "/x", B, KeyOf(prefix, "."), KeyOf(prefix, "/x"));
    RootMoved(prefix, order, ".", "/x", B, B', err);
    RootGraft(data);
  }

  /** Such a bucket is made by writing /f. */
  lemma RootBucket(prefix: string, data: Bytes)
    requires PrefixOk(prefix) && !RootPrefix(prefix)
    ensures var none: Objects := map[]; var B := none[Key(prefix, ["f"]) := data];
      WellKept(BaseKey(prefix), B) && TreeOf(prefix, B) == map[["f"] := File(data)] && BaseKey(prefix) !in B
  {
    hide TreeOf, WellKept, Key;
    var none: Objects := map[];
    EmptyBucket(prefix);
    assert UserPath(["f"]) && Parent(["f"]) == [];
    WithFile(prefix, none, ["f"], data);
    KeyInside(prefix, ["f"]);
  }

  lemma NearBounded(oldName: string, newName: string, B: Objects, K: string, N: string)
    requires Above(K, N) && Way(K, N) == N
    ensures Bounded(oldName, newName, B, K, N)
  {
  }

  lemma RootNames(prefix: string)
    requires PrefixOk(prefix) && !RootPrefix(prefix)
    ensures NameOk(prefix, ".") && NameOk(prefix, "/x") && NameOk(prefix, "/a/b")
    ensures Parts(".") == [] && Parts("/x") == ["x"] && Parts("/a/b") == ["a", "b"]
    ensures !Refused(".", "/x") && !Refused(".", "/a/b") && Mixed(".", "/a/b")
  {
    hide Parts, NoDotDot;
    PlainDots();
    PartsJoin(["x"]);
    PartsJoin(["a", "b"]);
    assert Abs(["x"]) == "/x" && Abs(["a", "b"]) == "/a/b";
    assert "." + "/" == "./" && "./"[0] == '.';
  }

  lemma RootTree(t: Tree, data: Bytes)
    requires t == map[["f"] := File(data)]
    ensures UserPath(["x"]) && ["x"] !in t && !Shadowed(t, ["x"]) && TreeClear(t, []) && [DIR_HOLDER] !in t
    ensures ["f"] in t
  {
    assert ["f"][0] == "f" && ["x"][0] == "x" && [DIR_HOLDER][0] == DIR_HOLDER && |DIR_HOLDER| != 1;
    assert LastName(["x"]) == "x" && LastName(["f"]) == "f";
  }

  lemma RootGraft(data: Bytes)
    ensures Graft(map[["f"] := File(data)], ["x"])[["x"] := Dir] == map[["x"] := Dir, ["x", "f"] := File(data)]
  {
    hide Graft;
    var t: Tree := map[["f"] := File(data)];
    var t': Tree := map[["x"] := Dir, ["x", "f"] := File(data)];
    var g := Graft(t, ["x"])[["x"] := Dir];
    forall r ensures (r in g <==> r in t') && (r in t' ==> g[r] == t'[r]) {
      GraftAt(t, ["x"], r);
      assert ["x", "f"][1..] == ["f"] && ["x"] <= ["x", "f"];
      if ["x"] <= r && r[1..] == ["f"] {
        assert r == ["x"] + r[1..] == ["x", "f"];
      }
    }
  }

  /** With the directory /a, Rename(".", "/a/b") never ends. */
  lemma RootEndless(prefix: string, order: Order, B: Objects)
    requires PrefixOk(prefix) && !RootPrefix(prefix) && WellKept(BaseKey(prefix), B) && BaseKey(prefix) !in B
    requires TreeOf(prefix, B) == map[["a"] := Dir]
    ensures !Ends(prefix, order, ".", "/a/b", B)
  {
    hide TreeOf, WellKept, Ends, Parts, NameOk, Refused, TreeClear, Shadowed, UserPath;
    RootNames(prefix);
    RootDirs(TreeOf(prefix, B));
    EndsIff(prefix, order, ".", "/a/b", B);
  }

  lemma RootDirs(t: Tree)
    requires t == map[["a"] := Dir]
    ensures UserPath(["a", "b"]) && TreeClear(t, []) && [DIR_HOLDER] !in t && HasDir(t, Parent(["a", "b"]))
    ensures ["a", "b"] !in t && !Shadowed(t, ["a", "b"]) && [] < ["a", "b"]
  {
    assert Parent(["a", "b"]) == ["a"] && LastName(["a", "b"]) == "b" && LastName(["a"]) == "a";
    assert DIR_HOLDER[0] == '.' && |["a", "b"]| == 2 && [DIR_HOLDER][0] == DIR_HOLDER && ["a"][0] == "a";
  }

  // ---------------------------------------------------------------- a run

  lemma UserNames()
    ensures UserPath(["d"]) && UserPath(["t"]) && UserPath(["d", "e"])
    ensures Parent(["d"]) == [] && Parent(["t"]) == [] && Parent(["d", "e"]) == ["d"]
  {
    assert Parent(["d", "e"]) == ["d"];
  }

  lemma ExampleMove(data: Bytes)
    ensures Move(map[["d"] := Dir, ["d", "e"] := File(data)], ["d"], ["t"]) ==
      map[["t"] := Dir, ["t", "e"] := File(data)]
  {
    hide Move;
    var t: Tree := map[["d"] := Dir, ["d", "e"] := File(data)];
    var t': Tree := map[["t"] := Dir, ["t", "e"] := File(data)];
    forall r ensures (r in Move(t, ["d"], ["t"]) <==> r in t') && (r in t' ==> Move(t, ["d"], ["t"])[r] == t'[r]) {
      ExampleMoveAt(data, r);
    }
  }

  lemma ExampleMoveAt(data: Bytes, r: Path)
    ensures var m := Move(map[["d"] := Dir, ["d", "e"] := File(data)], ["d"], ["t"]);
      (r in m <==> r == ["t"] || r == ["t", "e"]) && (r in m ==> m[r] == if r == ["t"] then Dir else File(data))
  {
    hide Move;
    var t: Tree := map[["d"] := Dir, ["d", "e"] := File(data)];
    MoveAt(t, ["d"], ["t"], r);
    if ["t"] <= r {
      var x := r[1..];
      SameTail("d", "t", x, r);
    }
    assert ["d"] <= ["d", "e"];
  }

  lemma SameTail(a: string, b: string, x: Path, r: Path)
    requires [b] <= r && x == r[1..]
    ensures [a] + x == [a] <==> r == [b]
    ensures [a] + x == [a, "e"] <==> r == [b, "e"]
  {
    assert r == [b] + x;
    assert ([a] + x)[1..] == x && [a, "e"][1..] == ["e"] && [b, "e"][1..] == ["e"];
    if x == ["e"] { assert [a] + x == [a, "e"] && [b] + x == [b, "e"]; }
  }

  /** A directory is made, a file written into it, the directory moved and removed again: from an empty
      bucket, under every prefix and in every order of listing, each of these calls is admissible when its
      turn comes, and the tree is empty at the end. */
  lemma RunExample(prefix: string, order: Order, data: Bytes, states: seq<Objects>)
    requires PrefixOk(prefix)
    requires var ops := [MkdirOp(["d"]), WriteOp(["d", "e"], data), RenameOp(["d"], ["t"]), RemoveOp(["t"])];
      Run(prefix, order, states, ops) && states[0] == map[]
    ensures var ops := [MkdirOp(["d"]), WriteOp(["d", "e"], data), RenameOp(["d"], ["t"]), RemoveOp(["t"])];
      AllAdmissible(prefix, order, states, ops) && TreeOf(prefix, states[4]) == map[]
  {
    hide Move, UserPath, Apply, Admissible, Step, TreeOf, WellKept;
    var ops := [MkdirOp(["d"]), WriteOp(["d", "e"], data), RenameOp(["d"], ["t"]), RemoveOp(["t"])];
    EmptyBucket(prefix);
    ExampleSteps(data);
    StepRightIff(prefix, order, states[0], ops[0], states[1]);
    ExampleStart(prefix, order, states[0], data);
    StepRightIff(prefix, order, states[1], ops[1], states[2]);
    ExampleWrite(prefix, order, states[1], data);
    StepRightIff(prefix, order, states[2], ops[2], states[3]);
    ExampleRename(prefix, order, states[2], data);
    StepRightIff(prefix, order, states[3], ops[3], states[4]);
    ExampleRemove(prefix, order, states[3], data);
  }

  lemma ExampleSteps(data: Bytes)
    ensures var t1: Tree := map[["d"] := Dir];
      var t2: Tree := map[["d"] := Dir, ["d", "e"] := File(data)];
      var t3: Tree := map[["t"] := Dir, ["t", "e"] := File(data)];
      && Apply(map[], MkdirOp(["d"])) == t1
      && Apply(t1, WriteOp(["d", "e"], data)) == t2
      && Apply(t2, RenameOp(["d"], ["t"])) == t3
      && Apply(t3, RemoveOp(["t"])) == map[]
  {
    hide Move, UserPath;
    UserNames();
    ExampleMove(data);
    var t2: Tree := map[["d"] := Dir, ["d", "e"] := File(data)];
    var t3: Tree := map[["t"] := Dir, ["t", "e"] := File(data)];
    assert ["d"][0] != ["t"][0];
    assert |["t"]| != |["t", "e"]| && |["d"]| != |["d", "e"]|;
    assert t3[["t"]] == Dir;
    assert ["t"] <= ["t", "e"];
    assert ["t"] !in t2;
    assert Apply(t2, RenameOp(["d"], ["t"])) == Move(t2, ["d"], ["t"]);
  }

  lemma ExampleStart(prefix: string, order: Order, B: Objects, data: Bytes)
    requires TreeOf(prefix, B) == map[]
    ensures Usable(MkdirOp(["d"])) && Admissible(prefix, order, B, MkdirOp(["d"]))
  {
    hide TreeOf;
  }

  lemma ExampleWrite(prefix: string, order: Order, B: Objects, data: Bytes)
    requires TreeOf(prefix, B) == map[["d"] := Dir]
    ensures Usable(WriteOp(["d", "e"], data)) && Admissible(prefix, order, B, WriteOp(["d", "e"], data))
  {
    hide TreeOf;
    UserNames();
    assert |["d"]| != |["d", "e"]|;
  }

  lemma ExampleRename(prefix: string, order: Order, B: Objects, data: Bytes)
    requires PrefixOk(prefix) && WellKept(BaseKey(prefix), B)
    requires TreeOf(prefix, B) == map[["d"] := Dir, ["d", "e"] := File(data)]
    ensures Usable(RenameOp(["d"], ["t"])) && Admissible(prefix, order, B, RenameOp(["d"], ["t"]))
  {
    hide TreeOf, WellKept, Goes;
    UserNames();
    var t := TreeOf(prefix, B);
    assert ["d"][0] != ["t"][0] && |["t"]| != |["d", "e"]|;
    assert LastName(["t"]) == "t" && LastName(["d"]) == "d";
    assert !Longer(["d"], ["t"]) && !Longer(["d", "e"], ["t"]);
    TreeClearGoes(prefix, order, B, ["d"], ["t"]);
  }

  lemma ExampleRemove(prefix: string, order: Order, B: Objects, data: Bytes)
    requires TreeOf(prefix, B) == map[["t"] := Dir, ["t", "e"] := File(data)]
    ensures Usable(RemoveOp(["t"])) && Admissible(prefix, order, B, RemoveOp(["t"]))
  {
    hide TreeOf;
    UserNames();
    assert |["t"]| != |["t", "e"]|;
  }
}
