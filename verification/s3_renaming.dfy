/**
 What Rename promises of a target that is not the source and not above it, and what its loop over the
 entries of a directory keeps.
 */
module S3Renaming {
  import opened Data
  import opened GoPath
  import opened S3Keys
  import opened S3Client
  import opened S3Invariant
  import opened S3Moves
  import opened S3Status
  import opened S3Removal
  import opened S3Rename
  import opened S3Passes
  import opened S3Keeping

  // ---------------------------------------------------------------- names Rename does not start on

  /** The names are the same, the old one is the root, or the new one is below the old, as far as the
      spelling of the names shows. */
  predicate Refused(oldName: string, newName: string) {
    newName == oldName || oldName == "/" || oldName + "/" <= newName
  }

  lemma RefusedBelow(prefix: string, oldName: string, newName: string)
    requires PrefixOk(prefix) && NameOk(prefix, oldName) && NameOk(prefix, newName)
    requires oldName + "/" <= newName
    ensures AtOrBelow(KeyOf(prefix, oldName), KeyOf(prefix, newName))
  {
    hide KeyOf, Parts, PrefixOk, NoDotDot, Key;
    if Parts(oldName) == [] {
      RootAbove(prefix, newName, oldName);
      return;
    }
    var rest := newName[|oldName| + 1..];
    assert newName == oldName + "/" + rest;
    PartsConcat(oldName, rest);
    KeyOfName(prefix, oldName);
    KeyOfName(prefix, newName);
    PartsValid(newName);
    KeyConcat(prefix, Parts(oldName), Parts(rest));
  }

  /** Everything is at or below the root. */
  lemma RootAbove(prefix: string, name: string, root: string)
    requires PrefixOk(prefix) && NameOk(prefix, name) && NameOk(prefix, root) && Parts(root) == []
    ensures AtOrBelow(KeyOf(prefix, root), KeyOf(prefix, name))
    ensures KeyOf(prefix, root) == BaseKey(prefix)
  {
    NameInside(prefix, name);
    KeyOfName(prefix, root);
    assert PrefixParts(prefix) + [] == PrefixParts(prefix);
  }

  lemma KeyConcat(prefix: string, p: Path, q: Path)
    requires p != []
    ensures AtOrBelow(Key(prefix, p), Key(prefix, p + q))
  {
    var b := PrefixParts(prefix);
    if q == [] {
      assert p + q == p;
    } else {
      JoinConcat(b + p, q);
      assert b + (p + q) == (b + p) + q;
    }
  }

  /** Of cleaned names exactly those are refused that both start at the root, or both do not, and whose target is the
      source or below it. */
  lemma RefusedExactly(prefix: string, oldName: string, newName: string)
    requires PrefixOk(prefix) && NameOk(prefix, oldName) && NameOk(prefix, newName) && Parts(oldName) != []
    requires Clean(oldName) == oldName && Clean(newName) == newName
    ensures Refused(oldName, newName) <==>
      AtOrBelow(KeyOf(prefix, oldName), KeyOf(prefix, newName)) && !Mixed(oldName, newName)
  {
    hide KeyOf, Parts, NoDotDot, Clean, AtOrBelow, Rooted, NameOk, PrefixOk;
    PlainDots();
    CleanNotEmpty(oldName) by { NameOkIs(prefix, oldName); }
    StartsRooted(oldName, newName);
    if !Mixed(oldName, newName) {
      RefusedAlike(prefix, oldName, newName);
    }
  }

  lemma RefusedAlike(prefix: string, oldName: string, newName: string)
    requires PrefixOk(prefix) && NameOk(prefix, oldName) && NameOk(prefix, newName) && Parts(oldName) != []
    requires Clean(oldName) == oldName && Clean(newName) == newName && (Rooted(oldName) <==> Rooted(newName))
    ensures Refused(oldName, newName) <==> AtOrBelow(KeyOf(prefix, oldName), KeyOf(prefix, newName))
  {
    hide KeyOf, Parts, NoDotDot, Key, Clean, AtOrBelow;
    var p, q := Parts(oldName), Parts(newName);
    KeyOfName(prefix, oldName);
    KeyOfName(prefix, newName);
    PartsValid(oldName);
    PartsValid(newName);
    CleanNoDotDot(oldName);
    CleanNoDotDot(newName);
    PlainDots();
    if oldName + "/" <= newName {
      RefusedBelow(prefix, oldName, newName);
    }
    if newName == oldName {
      SelfAtOrBelow(KeyOf(prefix, oldName));
    }
    if AtOrBelow(Key(prefix, p), Key(prefix, q)) {
      if q == [] {
        RootNotBelow(prefix, p);
      } else {
        KeyBelow(prefix, p, q);
        if p != q {
          SpelledBelow(p, q, Rooted(oldName));
        }
      }
    }
  }

  lemma SelfAtOrBelow(K: string)
    ensures AtOrBelow(K, K)
  {
  }

  lemma RootNotBelow(prefix: string, p: Path)
    requires PrefixOk(prefix) && ValidPath(p) && p != []
    ensures !AtOrBelow(Key(prefix, p), Key(prefix, []))
  {
    KeyInside(prefix, p);
    assert PrefixParts(prefix) + [] == PrefixParts(prefix);
  }

  lemma SpelledBelow(p: Path, q: Path, rooted: bool)
    requires p <= q && p != q && p != []
    ensures (if rooted then Abs(p) + "/" <= Abs(q) else Join(p) + "/" <= Join(q))
  {
    var s := q[|p|..];
    assert q == p + s;
    JoinConcat(p, s);
    assert Join(q) == Join(p) + "/" + Join(s);
    assert rooted ==> Abs(q) == Abs(p) + "/" + Join(s);
  }

  // ---------------------------------------------------------------- what Rename promises

  /** The keys that are new are not much deeper than those moved. */
  ghost predicate Shallow(B: Objects, B': Objects, K: string, N: string) {
    forall k :: k in B' && k !in B ==> Depth(k) <= Depth(N) + 1 + Tall(B, K)
  }

  /** What Stat says of the source when no call fails: there is a directory. The root called "." always is one. */
  ghost predicate DirSource(oldName: string, B: Objects, K: string) {
    oldName == "." || (K !in B && Seen(B, K))
  }

  /** Only one of the names starts at the root, so the guard against moves into the source sees nothing. */
  predicate Mixed(oldName: string, newName: string) {
    Rooted(oldName) != Rooted(newName)
  }

  /** The entry of K that N lies at or below. */
  function Way(K: string, N: string): string
    requires Above(K, N)
  {
    Child(K, Seg(K, N))
  }

  /** Something is below the entry that leads from K to N. */
  ghost predicate WayThere(B: Objects, K: string, N: string)
    requires Above(K, N)
  {
    exists k :: k in B && Above(Way(K, N), k)
  }

  /** Rename is sure to end, whatever calls fail: the guard sees a target below the source, or the source is a
      file, or the target is one of its entries, or no directory leads there. */
  ghost predicate Bounded(oldName: string, newName: string, B: Objects, K: string, N: string) {
    Mixed(oldName, newName) && Above(K, N) ==>
      (K in B && oldName != ".") || Way(K, N) == N || !WayThere(B, K, N)
  }

  /** The source is not the root called "." with an object at its own key, and no file lies on the way to a
      target that the guard does not see. */
  ghost predicate Ordinary(oldName: string, newName: string, B: Objects, K: string, N: string) {
    && !(oldName == "." && K in B)
    && !(Mixed(oldName, newName) && Above(K, N) && Way(K, N) in B)
  }

  /** The move can be said all about. */
  ghost predicate Sure(oldName: string, newName: string, B: Objects, K: string, N: string) {
    Movable(B, K, N) && Ordinary(oldName, newName, B, K, N)
  }

  /** What Rename answers when no call fails, and what that tells of the bucket. */
  ghost predicate Answered(prefix: string, order: Order, oldName: string, newName: string, B: Objects, B': Objects,
                           err: Option<Error>)
    requires Parts(newName) != []
  {
    var K, N := KeyOf(prefix, oldName), KeyOf(prefix, newName);
    var free := DirSource(oldName, B, K) && !Seen(B, N) && ParentSeen(prefix, newName, B);
    && (oldName != "." && !Seen(B, K) ==> err == Some(NotExist) && B' == B)
    && (oldName != "." && K in B ==> err.None?)
    && (DirSource(oldName, B, K) && Seen(B, N) ==> err == Some(Exist) && B' == B)
    && (DirSource(oldName, B, K) && !Seen(B, N) && !ParentSeen(prefix, newName, B) ==> err == Some(NotExist) && B' == B)
    && (free && !Occupied(B, K) ==> err.None? && B' == B[Holder(N) := []])
    && (free && Sure(oldName, newName, B, K, N) ==>
          && (err.None? <==> Goes(order, B, K, N))
          && Holder(N) in B' && (err.Some? ==> Get(B', Holder(K)) == Get(B, Holder(K))))
  }

  /** What has become of a file that is moved. */
  predicate FileRenamed(B: Objects, B': Objects, K: string, N: string)
    requires K in B
  {
    B' == B || B' == B[N := B[K]] || B' == B[N := B[K]] - {K}
  }

  /** What Rename has done when it returns err, having found B and left B'. */
  ghost predicate Renamed(prefix: string, order: Order, oldName: string, newName: string, B: Objects, B': Objects,
                          faulted: bool, blind: bool, err: Option<Error>)
    requires Parts(newName) != []
  {
    var K, N, base, P := KeyOf(prefix, oldName), KeyOf(prefix, newName), BaseKey(prefix), ParentKey(prefix, newName);
    && ValidKeys(base, B') && Framed(B, B', K, N) && (!Above(K, N) || !Mixed(oldName, newName) ==> Shallow(B, B', K, N))
    && (Sure(oldName, newName, B, K, N) && Trusted(B, K, N, faulted, blind) ==>
          && Conserved(B, B', K, N)
          && (err.None? ==> IsAllMoved(B, B', K, N))
          && (Tidy(base, B, K, N, P) ==> WellKept(base, B')))
    && (Sure(oldName, newName, B, K, N) ==> FilesKept(B, B', K, N))
    && (K in B && oldName != "." ==> FileRenamed(B, B', K, N) && (err.None? ==> B' == B[N := B[K]] - {K}))
    && (!faulted && !blind ==> Answered(prefix, order, oldName, newName, B, B', err))
  }

  /** Where Rename of a directory is after its first idx entries. */
  ghost predicate Moving(prefix: string, order: Order, oldName: string, newName: string, B: Objects, B1: Objects,
                         idx: nat, faulted: bool, blind: bool)
    requires Parts(newName) != []
  {
    var K, N, base, P := KeyOf(prefix, oldName), KeyOf(prefix, newName), BaseKey(prefix), ParentKey(prefix, newName);
    && idx <= |Read(order, B, K)| && (K !in B || oldName == ".")
    && ValidKeys(base, B1) && Framed(B, B1, K, N)
    && (if Above(K, N) && Mixed(oldName, newName) then WayKept(order, B, B1, K, N, idx) else Shallow(B, B1, K, N))
    && (Sure(oldName, newName, B, K, N) && Trusted(B, K, N, faulted, blind) ==>
          && IsSomeMoved(B, B1, K, N, Names(Read(order, B, K)[..idx]))
          && (WellKept(base, B) && IsDir(base, B, P) ==> WellKept(base, B1)))
    && (Sure(oldName, newName, B, K, N) ==>
          Underway(B, B1, K, N, Names(Read(order, B, K)[..idx])))
    && (!faulted && !blind ==>
          && DirSource(oldName, B, K) && !Seen(B, N) && ParentSeen(prefix, newName, B)
          && (idx == 0 ==> B1 == B[Holder(N) := []])
          && (Sure(oldName, newName, B, K, N) ==>
                forall i :: 0 <= i < idx ==> EntryGoes(order, B, K, N, i)))
  }

  /** Until an entry leads to a target that the guard does not see, the key of that entry is as it was; and while
      one is still to come, nothing new is where the next one would lead. */
  ghost predicate WayKept(order: Order, B: Objects, B1: Objects, K: string, N: string, idx: nat)
    requires Above(K, N) && idx <= |Read(order, B, K)|
  {
    && (Leading(order, B, K, N, 0, idx) || Get(B1, Way(K, N)) == Get(B, Way(K, N)))
    && (Leading(order, B, K, N, idx, |Read(order, B, K)|) ==>
          forall k :: k in B1 && Above(Child(N, Seg(K, N)), k) ==> k in B)
  }

  /** Some entry from the i-th to before the j-th leads to N. */
  ghost predicate Leading(order: Order, B: Objects, K: string, N: string, i: nat, j: nat)
    requires Above(K, N) && j <= |Read(order, B, K)|
  {
    exists m :: i <= m < j && Read(order, B, K)[m].name == Seg(K, N)
  }

  /** The names Rename works on, when the target is not the source and not above it. */
  ghost predicate RenameNames(prefix: string, oldName: string, newName: string, B: Objects) {
    && PrefixOk(prefix) && NameOk(prefix, oldName) && NameOk(prefix, newName)
    && KeyOf(prefix, oldName) != "" && Parts(newName) != [] && ValidKeys(BaseKey(prefix), B)
    && !AtOrBelow(KeyOf(prefix, newName), KeyOf(prefix, oldName))
  }

  // ---------------------------------------------------------------- how deep the new keys are

  lemma ShallowSame(B: Objects, K: string, N: string)
    ensures Shallow(B, B, K, N)
  {
  }

  lemma ShallowPut(B: Objects, K: string, N: string, k: string, v: Bytes)
    requires k == N || (k == Holder(N) && N != "")
    ensures Shallow(B, B[k := v], K, N)
  {
    DepthChild(N, DIR_HOLDER);
  }

  lemma ShallowFewer(B: Objects, B1: Objects, B2: Objects, K: string, N: string)
    requires Shallow(B, B1, K, N) && forall k :: k in B2 ==> k in B1
    ensures Shallow(B, B2, K, N)
  {
  }

  lemma ShallowEntry(B: Objects, B1: Objects, B2: Objects, K: string, N: string, x: string)
    requires Shallow(B, B1, K, N) && Shallow(B1, B2, Child(K, x), Child(N, x)) && NoSlash(x)
    requires Tall(B1, Child(K, x)) < Tall(B, K)
    ensures Shallow(B, B2, K, N)
  {
    DepthChild(N, x);
  }

  // ---------------------------------------------------------------- Rename stops at once

  lemma PresentSeen(B: Objects, K: string)
    requires Occupied(B, K)
    ensures Seen(B, K)
  {
    var k :| k in B && AtOrBelow(K, k);
    assert K <= k;
  }

  lemma InSeen(B: Objects, K: string)
    ensures K in B ==> Seen(B, K)
  {
    assert K <= K;
  }

  /** Rename stopped before it changed anything. */
  lemma RenamedNothing(prefix: string, order: Order, oldName: string, newName: string, B: Objects,
                       faulted: bool, blind: bool, e: Error)
    requires RenameNames(prefix, oldName, newName, B)
    requires !faulted ==> e == NotExist && !Seen(B, KeyOf(prefix, oldName)) && oldName != "."
    ensures Renamed(prefix, order, oldName, newName, B, B, faulted, blind, Some(e))
  {
    hide KeyOf, NameOk, Parts, BaseKey, ParentKey, Whole, Fresh, ValidKeys, Seen, Conserved, Unshadowed, WellKept,
      Occupied, Goes, Shallow, Tall, Ordinary;
    var K, N := KeyOf(prefix, oldName), KeyOf(prefix, newName);
    FramedSame(B, K, N);
    ShallowSame(B, K, N);
    KeptSame(B, K, N);
    if Movable(B, K, N) {
      MoveBegun(B, B, K, N);
      PresentSeen(B, K);
    }
    InSeen(B, K);
  }

  /** What Mkdir of the new name has done. */
  ghost predicate MadeDir(prefix: string, newName: string, B: Objects, B1: Objects,
                          faulted: bool, blind: bool, err: Option<Error>)
    requires Parts(newName) != []
  {
    var N := KeyOf(prefix, newName);
    && (B1 == B || (!Seen(B, N) && B1 == B[Holder(N) := []]))
    && (err.None? && !Seen(B, N) && !blind ==> B1 == B[Holder(N) := []])
    && (!faulted ==> err == MkdirError(prefix, newName, B))
    && (!faulted && err.Some? ==> B1 == B)
  }

  lemma MadeDirFramed(prefix: string, oldName: string, newName: string, B: Objects, B1: Objects)
    requires RenameNames(prefix, oldName, newName, B)
    requires B1 == B || B1 == B[Holder(KeyOf(prefix, newName)) := []]
    ensures var K, N := KeyOf(prefix, oldName), KeyOf(prefix, newName);
      ValidKeys(BaseKey(prefix), B1) && Framed(B, B1, K, N) && Shallow(B, B1, K, N)
  {
    hide KeyOf, NameOk, Parts, BaseKey, ValidKeys, Framed, KeyOk, Shallow, Tall;
    var K, N := KeyOf(prefix, oldName), KeyOf(prefix, newName);
    FramedSame(B, K, N);
    ShallowSame(B, K, N);
    if B1 != B {
      HolderIsChild(N);
      AboveAtOrBelow(N, Holder(N));
      FramedPut(B, K, N, Holder(N), []);
      NameInside(prefix, newName);
      ShallowPut(B, K, N, Holder(N), []);
      NameKeyOk(prefix, newName);
      PutKeys(BaseKey(prefix), B, Holder(N), []);
    }
  }

  lemma MadeDirKeeps(prefix: string, newName: string, B: Objects, B1: Objects)
    requires PrefixOk(prefix) && NameOk(prefix, newName) && Parts(newName) != []
    requires var N := KeyOf(prefix, newName); B1 == B || (!Seen(B, N) && B1 == B[Holder(N) := []])
    requires WellKept(BaseKey(prefix), B) && IsDir(BaseKey(prefix), B, ParentKey(prefix, newName))
    ensures WellKept(BaseKey(prefix), B1)
  {
    hide KeyOf, NameOk, Parts, BaseKey, ParentKey, WellKept, Seen;
    NameParent(prefix, newName);
    var p := Parts(newName);
    if B1 != B {
      PutHolderKeeps(BaseKey(prefix), B, ParentKey(prefix, newName), p[|p| - 1]);
    }
  }

  lemma RenamedNoDir(prefix: string, order: Order, oldName: string, newName: string, B: Objects, B1: Objects,
                     faulted: bool, blind: bool, e: Error)
    requires RenameNames(prefix, oldName, newName, B) && (KeyOf(prefix, oldName) !in B || oldName == ".")
    requires MadeDir(prefix, newName, B, B1, faulted, blind, Some(e))
    requires !faulted ==> DirSource(oldName, B, KeyOf(prefix, oldName))
    ensures Renamed(prefix, order, oldName, newName, B, B1, faulted, blind, Some(e))
  {
    hide KeyOf, NameOk, Parts, BaseKey, ParentKey, Whole, Fresh, ValidKeys, Seen, Conserved, WellKept, Occupied,
      ParentSeen, Framed, ClearBelow, PrefixOk, Shallow, Goes, AtOrBelow, Above;
    var K, N := KeyOf(prefix, oldName), KeyOf(prefix, newName);
    MadeDirFramed(prefix, oldName, newName, B, B1);
    if Sure(oldName, newName, B, K, N) {
      MoveBegun(B, B1, K, N);
      UnderwayStarts(B, B1, K, N);
    }
    if Tidy(BaseKey(prefix), B, K, N, ParentKey(prefix, newName)) {
      MadeDirKeeps(prefix, newName, B, B1);
    }
  }

  // ---------------------------------------------------------------- the loop

  lemma MovingStarts(prefix: string, order: Order, oldName: string, newName: string, B: Objects, B1: Objects,
                     faulted: bool, blind: bool)
    requires RenameNames(prefix, oldName, newName, B) && (KeyOf(prefix, oldName) !in B || oldName == ".")
    requires MadeDir(prefix, newName, B, B1, faulted, blind, None)
    requires !faulted ==> DirSource(oldName, B, KeyOf(prefix, oldName))
    ensures Moving(prefix, order, oldName, newName, B, B1, 0, faulted, blind)
  {
    hide KeyOf, NameOk, Parts, BaseKey, ParentKey, Whole, Fresh, ValidKeys, Seen, WellKept, Occupied, ParentSeen,
      Framed, ClearBelow, PrefixOk, IsSomeMoved, Shallow, Read, AtOrBelow, Above, EntryGoes, WayKept, Way;
    var K, N := KeyOf(prefix, oldName), KeyOf(prefix, newName);
    MadeDirFramed(prefix, oldName, newName, B, B1);
    NameInside(prefix, oldName);
    if Above(K, N) {
      WayKeptStarts(prefix, order, newName, B, B1, K);
    }
    assert Names([]) == {};
    assert Read(order, B, K)[..0] == [];
    if Sure(oldName, newName, B, K, N) {
      UnderwayStarts(B, B1, K, N);
      if Trusted(B, K, N, faulted, blind) {
        MoveStarts(B, B1, K, N);
      }
    }
    if WellKept(BaseKey(prefix), B) && IsDir(BaseKey(prefix), B, ParentKey(prefix, newName)) {
      MadeDirKeeps(prefix, newName, B, B1);
    }
  }

  lemma WayKeptStarts(prefix: string, order: Order, newName: string, B: Objects, B1: Objects, K: string)
    requires PrefixOk(prefix) && NameOk(prefix, newName) && Parts(newName) != []
    requires var N := KeyOf(prefix, newName); Above(K, N) && AtOrBelow(BaseKey(prefix), K)
    requires B1 == B || B1 == B[Holder(KeyOf(prefix, newName)) := []]
    ensures WayKept(order, B, B1, K, KeyOf(prefix, newName), 0)
  {
    hide KeyOf, NameOk, Parts, BaseKey, Read, Seg, Leading, PrefixOk, KeyOk;
    var N := KeyOf(prefix, newName);
    NameInside(prefix, newName);
    NameKeyOk(prefix, newName);
    SegValid(BaseKey(prefix), K, N);
    WayLeads(K, N);
    HolderIsChild(N);
    NotBelowHolder(N, Seg(K, N));
    assert Way(K, N) != Holder(N) by { AboveChild(N, N, DIR_HOLDER); }
  }

  /** The way to N is at or above N. */
  lemma WayLeads(K: string, N: string)
    requires Above(K, N) && ValidName(Seg(K, N))
    ensures AtOrBelow(Way(K, N), N) && Way(K, N) <= N
  {
    NameNotEmpty(Seg(K, N));
    SegIsChild(K, Seg(K, N), N);
  }

  lemma NotBelowHolder(N: string, x: string)
    requires ValidName(x)
    ensures !Above(Child(N, x), Holder(N))
  {
    hide Seg;
    NameNotEmpty(x);
    HolderSeg(N);
    HolderIsChild(N);
    AboveAtOrBelow(Child(N, x), Holder(N));
    SegIsChild(N, x, Holder(N));
  }

  lemma JoinedClean(name: string, x: string)
    requires NoDotDot(name) && ValidName(x)
    ensures Clean(PathJoin(name, x)) == PathJoin(name, x) && (Rooted(PathJoin(name, x)) <==> Rooted(name))
  {
    hide Clean, NoDotDot, Parts;
    PartsOfName(x);
    if name == "" {
      JoinOne(x);
      CleanNoDotDot(x);
      CleanNoDotDot(Clean(x));
    } else {
      PartsConcat(name, x);
      PathJoinIs(name, x);
      CleanNoDotDot(name + "/" + x);
      CleanNoDotDot(Clean(name + "/" + x));
    }
  }

  lemma JoinOne(x: string)
    requires x != ""
    ensures PathJoin("", x) == Clean(x)
  {
  }

  /** The names an entry is moved from and to. They are refused exactly when the entry leads to the new place and
      both start at the root, or both do not; an entry that does not lead there is apart from it, and less deep. */
  lemma EntryNames(prefix: string, order: Order, oldName: string, newName: string, B: Objects, B1: Objects, i: Info)
    requires RenameNames(prefix, oldName, newName, B) && ValidKeys(BaseKey(prefix), B1)
    requires Framed(B, B1, KeyOf(prefix, oldName), KeyOf(prefix, newName))
    requires i in Children(B, KeyOf(prefix, oldName))
    ensures var full, dest := PathJoin(oldName, i.name), PathJoin(newName, i.name);
      && ValidName(i.name) && full != dest && full != "."
      && RenameNames(prefix, full, dest, B1) && Parts(full) != [] && (Mixed(full, dest) <==> Mixed(oldName, newName))
      && KeyOf(prefix, full) == Child(KeyOf(prefix, oldName), i.name)
      && KeyOf(prefix, dest) == Child(KeyOf(prefix, newName), i.name)
      && ParentKey(prefix, dest) == KeyOf(prefix, newName) && |Parts(dest)| > 1
    ensures var full, dest, c, N := PathJoin(oldName, i.name), PathJoin(newName, i.name),
                                    Child(KeyOf(prefix, oldName), i.name), KeyOf(prefix, newName);
      && (Refused(full, dest) <==> AtOrBelow(c, N) && !Mixed(oldName, newName))
      && (!AtOrBelow(c, N) ==> Disjoint(c, N) && Tall(B1, c) < Tall(B, KeyOf(prefix, oldName)))
  {
    hide KeyOf, Parts, BaseKey, ValidKeys, Framed, PrefixOk, NameOk, PathJoin, Children, ValidName, Child, Refused,
      Tall, AtOrBelow, Above, Key, NoDotDot, Rooted;
    var K, N, x := KeyOf(prefix, oldName), KeyOf(prefix, newName), i.name;
    NameInside(prefix, oldName);
    NameInside(prefix, newName);
    ChildEntry(BaseKey(prefix), B, K, i);
    NameNotEmpty(x);
    NameChild(prefix, oldName, x);
    NameChild(prefix, newName, x);
    NameOkIs(prefix, oldName);
    NameOkIs(prefix, newName);
    JoinedClean(oldName, x);
    JoinedClean(newName, x);
    PlainDots();
    ChildNotRoot(K, x);
    var full, dest, c, n := PathJoin(oldName, x), PathJoin(newName, x), Child(K, x), Child(N, x);
    assert Parts(dest)[..|Parts(dest)| - 1] == Parts(newName);
    KeyOfName(prefix, newName);
    ChildrenApart(K, N, x);
    RefusedExactly(prefix, full, dest);
    if !AtOrBelow(c, N) {
      EntryShorter(BaseKey(prefix), B, B1, K, N, i);
    }
  }

  lemma NameOkIs(prefix: string, name: string)
    requires NameOk(prefix, name)
    ensures NoDotDot(name)
  {
  }

  lemma ChildrenApart(K: string, N: string, x: string)
    requires !AtOrBelow(N, K) && ValidName(x) && K != "" && N != ""
    ensures var c, n := Child(K, x), Child(N, x);
      && !AtOrBelow(n, c) && c != n
      && (AtOrBelow(c, n) <==> AtOrBelow(c, N))
      && (!AtOrBelow(c, N) ==> Disjoint(c, N))
      && (Above(c, n) ==> Above(K, N))
  {
    var c, n := Child(K, x), Child(N, x);
    AboveChild(c, N, x);
    AboveChild(n, K, x);
    AboveChild(N, K, x);
    AboveChild(K, K, x);
    AboveChild(N, N, x);
    assert c == n ==> K == N by { SameParent(K, N, x); }
    if AtOrBelow(n, K) { AboveTransitive(N, n, K); }
    if AtOrBelow(c, N) { AboveTransitive(K, c, N); }
  }

  lemma SameParent(K: string, N: string, x: string)
    requires K != "" && N != ""
    ensures Child(K, x) == Child(N, x) ==> K == N
  {
    if Child(K, x) == Child(N, x) {
      var c := Child(K, x);
      assert K == c[..|c| - |x| - 1] && N == c[..|c| - |x| - 1];
    }
  }

  lemma StartsRooted(a: string, b: string)
    requires a != ""
    ensures a + "/" <= b ==> (Rooted(a) <==> Rooted(b))
  {
    if a + "/" <= b {
      assert a[0] == (a + "/")[0] == b[0];
    }
  }

  lemma EntryShorter(base: string, B: Objects, B1: Objects, K: string, N: string, i: Info)
    requires ValidKeys(base, B) && AtOrBelow(base, K) && K != "" && i in Children(B, K)
    requires Framed(B, B1, K, N) && Disjoint(Child(K, i.name), N)
    ensures Tall(B1, Child(K, i.name)) < Tall(B, K)
  {
    hide ValidKeys, Tall, Framed, Seg;
    ChildEntry(base, B, K, i);
    NameNotEmpty(i.name);
    var c := Child(K, i.name);
    var k0 :| k0 in B && Above(K, k0) && !Hidden(K, k0) && i == InfoOf(B, K, k0);
    FramedBelow(B, B1, K, N);
    forall k | k in B1 && Above(c, k) ensures Depth(k) <= Depth(K) + Tall(B, K) {
      ChildBelow(K, i.name, k);
      ApartSides(c, N, k);
      TallBound(B, K, k);
    }
    TallChild(B, B1, K, i.name, k0);
  }

  /** An entry on the way to the new place ends the move. */
  lemma MovingRefused(prefix: string, order: Order, oldName: string, newName: string, B: Objects, B1: Objects,
                      idx: nat, f1: bool, b1: bool, f2: bool, b2: bool, e: Error)
    requires RenameNames(prefix, oldName, newName, B) && (f1 ==> f2) && (b1 ==> b2)
    requires Moving(prefix, order, oldName, newName, B, B1, idx, f1, b1)
    requires idx < |Read(order, B, KeyOf(prefix, oldName))|
    requires AtOrBelow(Child(KeyOf(prefix, oldName), Read(order, B, KeyOf(prefix, oldName))[idx].name),
      KeyOf(prefix, newName))
    requires !Mixed(oldName, newName)
    ensures Renamed(prefix, order, oldName, newName, B, B1, f2, b2, Some(e))
  {
    hide KeyOf, Parts, BaseKey, ValidKeys, PrefixOk, NameOk, Child, Framed, Shallow, Read, Whole, Fresh, AtOrBelow,
      Above, Answered, Seen, WellKept, ParentSeen, ClearBelow, IsSomeMoved, IsAllMoved, Conserved, HasSuffix, Names,
      ParentKey, Passes, Unblocked, Holder, Mixed, Ordinary, Way, WayKept;
    var K, N := KeyOf(prefix, oldName), KeyOf(prefix, newName);
    if Sure(oldName, newName, B, K, N) && Trusted(B, K, N, f2, b2) {
      MovableIs(B, K, N);
      WholeTop(B, K);
      SureFile(oldName, newName, B, K, N);
      SomeMovedConserves(B, B1, K, N, Names(Read(order, B, K)[..idx]));
    }
    if !f2 && !b2 {
      assert !EntryGoes(order, B, K, N, idx);
      if Sure(oldName, newName, B, K, N) {
        MovedSoFar(prefix, order, oldName, newName, B, B1, idx);
      }
      EntriesOccupy(BaseKey(prefix), order, B, K, idx) by { NameInside(prefix, oldName); }
      EntryBroken(prefix, order, oldName, newName, B, B1, B1, idx, Some(e));
    }
  }

  lemma SureFile(oldName: string, newName: string, B: Objects, K: string, N: string)
    requires Sure(oldName, newName, B, K, N) && (K !in B || oldName == ".")
    ensures K !in B
  {
  }

  lemma SourceProper(prefix: string, oldName: string)
    requires PrefixOk(prefix) && NameOk(prefix, oldName) && KeyOf(prefix, oldName) != ""
    ensures Proper(BaseKey(prefix), KeyOf(prefix, oldName))
  {
    if RootPrefix(prefix) && Parts(oldName) == [] {
      SlashKey(prefix, oldName);
    }
    ProperName(prefix, oldName);
  }

  lemma SlashKey(prefix: string, name: string)
    requires RootPrefix(prefix) && NameOk(prefix, name) && Parts(name) == []
    ensures KeyOf(prefix, name) == ""
  {
    assert name == Abs([]);
  }

  /** With no failing call the new holder is there, and the old one still is. */
  lemma MovedSoFar(prefix: string, order: Order, oldName: string, newName: string, B: Objects, B1: Objects, idx: nat)
    requires RenameNames(prefix, oldName, newName, B)
    requires Moving(prefix, order, oldName, newName, B, B1, idx, false, false)
    requires Sure(oldName, newName, B, KeyOf(prefix, oldName), KeyOf(prefix, newName))
    ensures var K, N := KeyOf(prefix, oldName), KeyOf(prefix, newName);
      && IsSomeMoved(B, B1, K, N, Names(Read(order, B, K)[..idx]))
      && Holder(N) in B1 && Get(B1, Holder(K)) == Get(B, Holder(K)) && !AtOrBelow(N, Holder(K))
  {
    hide KeyOf, Parts, BaseKey, ValidKeys, PrefixOk, NameOk, Framed, Shallow, Read, Whole, Fresh, AtOrBelow, Above,
      Holder, Seen, WellKept, ParentSeen, ClearBelow, HasSuffix, Names, ParentKey, Passes, Unblocked, EntryGoes, Seg,
      Stray, SomeMoved, Ordinary, WayKept, Mixed;
    var K, N := KeyOf(prefix, oldName), KeyOf(prefix, newName);
    SureFile(oldName, newName, B, K, N);
    MovableIs(B, K, N);
    var S := Names(Read(order, B, K)[..idx]);
    HolderMoved(B, B1, K, N, S);
    HolderThere(K, N);
    NoHolderName(BaseKey(prefix), order, B, K, idx) by { SourceProper(prefix, oldName); }
    HolderStays(B, B1, K, N, S);
  }

  lemma NoHolderName(base: string, order: Order, B: Objects, K: string, idx: nat)
    requires ValidKeys(base, B) && Proper(base, K) && Whole(B, K) && K !in B && idx <= |Read(order, B, K)|
    ensures DIR_HOLDER !in Names(Read(order, B, K)[..idx])
  {
    hide ValidKeys, Whole, Read, Children;
    ReadLists(base, order, B, K);
    forall i | i in Read(order, B, K)[..idx] ensures i.name != DIR_HOLDER {
      assert i in Read(order, B, K);
      WholeEntry(base, B, K, i);
    }
  }

  lemma HolderStays(B: Objects, B1: Objects, K: string, N: string, S: set<string>)
    requires Movable(B, K, N) && K !in B && IsSomeMoved(B, B1, K, N, S) && DIR_HOLDER !in S
    ensures Get(B1, Holder(K)) == Get(B, Holder(K))
  {
    hide Movable, Seg, Stray;
    MovableIs(B, K, N);
    HolderThere(K, N);
    HolderSeg(K);
    assert Get(B1, Holder(K)) == SomeMoved(B, K, N, S, Holder(K));
  }

  lemma EntriesOccupy(base: string, order: Order, B: Objects, K: string, idx: nat)
    requires ValidKeys(base, B) && AtOrBelow(base, K) && idx < |Read(order, B, K)|
    ensures Occupied(B, K)
  {
    hide ValidKeys, Read;
    ReadLists(base, order, B, K);
    var i := Read(order, B, K)[idx];
    assert i in Read(order, B, K);
    var k :| k in B && Above(K, k) && !Hidden(K, k) && i == InfoOf(B, K, k);
    assert AtOrBelow(K, k);
  }

  /** One turn of the loop. */
  lemma MovingEntry(prefix: string, order: Order, oldName: string, newName: string, B: Objects, B1: Objects,
                    B2: Objects, idx: nat, f1: bool, b1: bool, f2: bool, b2: bool, e: Option<Error>)
    requires RenameNames(prefix, oldName, newName, B) && (f1 ==> f2) && (b1 ==> b2)
    requires Moving(prefix, order, oldName, newName, B, B1, idx, f1, b1)
    requires idx < |Read(order, B, KeyOf(prefix, oldName))|
    requires var x := Read(order, B, KeyOf(prefix, oldName))[idx].name;
      var full, dest := PathJoin(oldName, x), PathJoin(newName, x);
      && !AtOrBelow(Child(KeyOf(prefix, oldName), x), KeyOf(prefix, newName))
      && RenameNames(prefix, full, dest, B1) && Renamed(prefix, order, full, dest, B1, B2, f2, b2, e)
    ensures e.None? ==> Moving(prefix, order, oldName, newName, B, B2, idx + 1, f2, b2)
    ensures e.Some? ==> Renamed(prefix, order, oldName, newName, B, B2, f2, b2, e)
  {
    hide KeyOf, Parts, BaseKey, ValidKeys, PrefixOk, NameOk, PathJoin, Children, ValidName, Child, Refused, Read;
    hide Whole, Fresh, Occupied, Seen, WellKept, ParentSeen, Framed, ClearBelow, Lists, IsSomeMoved, IsAllMoved,
      Conserved, HasSuffix, Names, ParentKey, Shallow, Tall, AtOrBelow, Above, Passes, Unblocked, EntryGoes, Holder,
      Answered, Ordinary, WayKept, Mixed, FileRenamed;
    var K, N, base, P := KeyOf(prefix, oldName), KeyOf(prefix, newName), BaseKey(prefix), ParentKey(prefix, newName);
    var infos := Read(order, B, K);
    SourceProper(prefix, oldName);
    ReadLists(base, order, B, K) by { ProperIs(base, K); }
    var i := infos[idx];
    assert i in infos;
    ListsMember(infos, Children(B, K), i);
    EntryNames(prefix, order, oldName, newName, B, B1, i);
    FramedEntry(B, B1, B2, K, N, i.name);
    NameNotEmpty(i.name);
    NameInside(prefix, newName);
    NotAboveEntry(K, N, i.name);
    ProperIs(base, K);
    if Above(K, N) && Mixed(oldName, newName) {
      WayKeptOther(prefix, order, newName, B, B1, B2, K, idx);
    } else {
      ShallowEntry(B, B1, B2, K, N, i.name);
    }
    if Sure(oldName, newName, B, K, N) {
      MovingEntryKept(prefix, order, oldName, newName, B, B1, B2, idx, f1, b1, f2, b2, e);
    }
    if Sure(oldName, newName, B, K, N) && Trusted(B, K, N, f2, b2) {
      MovingEntryTrusted(prefix, order, oldName, newName, B, B1, B2, idx, f2, b2, e);
    }
    if Sure(oldName, newName, B, K, N) && !f2 && !b2 {
      MovingEntryExact(prefix, order, oldName, newName, B, B1, B2, idx, e);
    }
    EntriesOccupy(base, order, B, K, idx) by { ProperIs(base, K); }
    if e.Some? && !f2 && !b2 {
      EntryBroken(prefix, order, oldName, newName, B, B1, B2, idx, e);
    }
  }

  /** An entry that does not lead to N is not above its own new place. */
  lemma NotAboveEntry(K: string, N: string, x: string)
    requires !AtOrBelow(N, K) && ValidName(x) && K != "" && N != ""
    ensures !AtOrBelow(Child(K, x), N) ==> !Above(Child(K, x), Child(N, x)) && Disjoint(Child(K, x), N)
  {
    ChildrenApart(K, N, x);
  }

  lemma EntryOrdinary(full: string, dest: string, B1: Objects, c: string, n: string)
    requires full != "." && !Above(c, n)
    ensures Ordinary(full, dest, B1, c, n)
  {
  }

  /** An entry that does not lead to N leaves alone what WayKept speaks of. */
  lemma WayKeptOther(prefix: string, order: Order, newName: string, B: Objects, B1: Objects, B2: Objects, K: string,
                     idx: nat)
    requires PrefixOk(prefix) && NameOk(prefix, newName) && Parts(newName) != [] && AtOrBelow(BaseKey(prefix), K)
    requires idx < |Read(order, B, K)| && ValidName(Read(order, B, K)[idx].name)
    requires var N, x := KeyOf(prefix, newName), Read(order, B, K)[idx].name;
      && Above(K, N) && WayKept(order, B, B1, K, N, idx) && !AtOrBelow(Child(K, x), N)
      && Framed(B1, B2, Child(K, x), Child(N, x))
    ensures WayKept(order, B, B2, K, KeyOf(prefix, newName), idx + 1)
  {
    hide KeyOf, NameOk, Parts, BaseKey, Read, Seg, PrefixOk, KeyOk, Child, Framed, Above, AtOrBelow, ValidName, Get;
    var N, x := KeyOf(prefix, newName), Read(order, B, K)[idx].name;
    NameKeyOk(prefix, newName);
    SegValid(BaseKey(prefix), K, N);
    var w := Seg(K, N);
    NameNotEmpty(w);
    NameNotEmpty(x);
    SegIsChild(K, w, N);
    SegIsChild(K, x, N);
    assert x != w;
    WayStays(B1, B2, K, N, w, x);
    forall k | k in B2 && Above(Child(N, w), k) &&
      Leading(order, B, K, N, idx + 1, |Read(order, B, K)|) ensures k in B {
      BelowStays(B1, B2, K, N, w, x, k);
      GetIn(B1, k);
      GetIn(B2, k);
    }
  }

  lemma WayStays(B1: Objects, B2: Objects, K: string, N: string, w: string, x: string)
    requires ValidName(w) && ValidName(x) && w != x && AtOrBelow(Child(K, w), N)
    requires Framed(B1, B2, Child(K, x), Child(N, x))
    ensures Get(B2, Child(K, w)) == Get(B1, Child(K, w))
  {
    hide Get, Seg, ValidName;
    NameNotEmpty(w);
    NameNotEmpty(x);
    var k := Child(K, w);
    SelfBelow(k);
    SegIsChild(K, w, k);
    SegIsChild(K, x, k);
    AboveChild(N, N, x);
    if AtOrBelow(Child(N, x), k) { AboveTransitive(Child(N, x), k, N); NotBelowAbove(N, Child(N, x)); }
  }

  lemma BelowStays(B1: Objects, B2: Objects, K: string, N: string, w: string, x: string, k: string)
    requires ValidName(w) && ValidName(x) && w != x && AtOrBelow(Child(K, w), N) && Above(Child(N, w), k)
    requires Framed(B1, B2, Child(K, x), Child(N, x))
    ensures Get(B2, k) == Get(B1, k)
  {
    hide Get, Seg, ValidName;
    NameNotEmpty(w);
    NameNotEmpty(x);
    AboveAtOrBelow(Child(N, w), k);
    SegIsChild(N, w, k);
    SegIsChild(N, x, k);
    AboveChild(N, N, w);
    AboveTransitive(N, Child(N, w), k);
    AboveTransitive(Child(K, w), N, k);
    SegIsChild(K, w, k);
    SegIsChild(K, x, k);
  }

  /** Whatever fails, no file is lost. */
  lemma MovingEntryKept(prefix: string, order: Order, oldName: string, newName: string, B: Objects, B1: Objects,
                        B2: Objects, idx: nat, f1: bool, b1: bool, f2: bool, b2: bool, e: Option<Error>)
    requires RenameNames(prefix, oldName, newName, B)
    requires Sure(oldName, newName, B, KeyOf(prefix, oldName), KeyOf(prefix, newName))
    requires Moving(prefix, order, oldName, newName, B, B1, idx, f1, b1)
    requires idx < |Read(order, B, KeyOf(prefix, oldName))|
    requires var x := Read(order, B, KeyOf(prefix, oldName))[idx].name;
      var full, dest := PathJoin(oldName, x), PathJoin(newName, x);
      && !AtOrBelow(Child(KeyOf(prefix, oldName), x), KeyOf(prefix, newName))
      && RenameNames(prefix, full, dest, B1) && Renamed(prefix, order, full, dest, B1, B2, f2, b2, e)
    ensures var K, N := KeyOf(prefix, oldName), KeyOf(prefix, newName);
      FilesKept(B, B2, K, N) && Underway(B, B2, K, N, Names(Read(order, B, K)[..idx + 1]))
  {
    hide KeyOf, Parts, BaseKey, ValidKeys, PrefixOk, NameOk, PathJoin, Children, ValidName, Child, Refused, Read;
    hide Whole, Occupied, Seen, WellKept, Framed, ClearBelow, Lists, IsSomeMoved, IsAllMoved, Conserved, HasSuffix,
      Names, ParentKey, Proper, Disjoint, AtOrBelow, Above, Shallow, Answered, EntryGoes, Tall, Fresh, FilesKept,
      RestSame, RoomLeft, SameAt, ParentSeen, Unshadowed, Trusted, Tidy, Movable, Ordinary, WayKept, Mixed, FileRenamed;
    var K, N, base := KeyOf(prefix, oldName), KeyOf(prefix, newName), BaseKey(prefix);
    var infos := Read(order, B, K);
    SourceProper(prefix, oldName);
    ReadLists(base, order, B, K) by { ProperIs(base, K); }
    var i := infos[idx];
    assert i in infos;
    ListsMember(infos, Children(B, K), i);
    EntryNames(prefix, order, oldName, newName, B, B1, i);
    MovableIs(B, K, N);
    SureFile(oldName, newName, B, K, N);
    NotAboveEntry(K, N, i.name);
    NewName(base, B, K, infos, idx);
    NamesNext(infos, idx);
    EntryOrdinary(PathJoin(oldName, i.name), PathJoin(newName, i.name), B1, Child(K, i.name), Child(N, i.name));
    UnderwayEntry(base, B, B1, K, N, Names(infos[..idx]), i);
    UnderwayNext(B, B1, B2, K, N, Names(infos[..idx]), i.name);
  }

  /** What an error in the loop tells, when no call failed. */
  lemma EntryBroken(prefix: string, order: Order, oldName: string, newName: string, B: Objects, B1: Objects,
                    B2: Objects, idx: nat, e: Option<Error>)
    requires Parts(newName) != [] && Moving(prefix, order, oldName, newName, B, B1, idx, false, false)
    requires idx < |Read(order, B, KeyOf(prefix, oldName))| && Occupied(B, KeyOf(prefix, oldName)) && e.Some?
    requires var K, N := KeyOf(prefix, oldName), KeyOf(prefix, newName);
      Sure(oldName, newName, B, K, N) ==>
        !EntryGoes(order, B, K, N, idx) && Holder(N) in B2 && Get(B2, Holder(K)) == Get(B, Holder(K))
    ensures Answered(prefix, order, oldName, newName, B, B2, e)
  {
    hide KeyOf, Parts, ValidKeys, EntryGoes, Movable, Occupied, Seen, ParentSeen, Framed, Shallow, Holder, Get, Read,
      Ordinary, WayKept, Mixed;
  }

  lemma MovingEntryTrusted(prefix: string, order: Order, oldName: string, newName: string, B: Objects, B1: Objects,
                           B2: Objects, idx: nat, f2: bool, b2: bool, e: Option<Error>)
    requires RenameNames(prefix, oldName, newName, B) && idx < |Read(order, B, KeyOf(prefix, oldName))|
    requires Moving(prefix, order, oldName, newName, B, B1, idx, f2, b2)
    requires var x := Read(order, B, KeyOf(prefix, oldName))[idx].name;
      var full, dest := PathJoin(oldName, x), PathJoin(newName, x);
      && !AtOrBelow(Child(KeyOf(prefix, oldName), x), KeyOf(prefix, newName))
      && RenameNames(prefix, full, dest, B1) && Renamed(prefix, order, full, dest, B1, B2, f2, b2, e)
    requires var K, N := KeyOf(prefix, oldName), KeyOf(prefix, newName);
      Sure(oldName, newName, B, K, N) && Trusted(B, K, N, f2, b2)
    ensures var K, N := KeyOf(prefix, oldName), KeyOf(prefix, newName);
      && Conserved(B, B2, K, N)
      && (e.None? ==> IsSomeMoved(B, B2, K, N, Names(Read(order, B, K)[..idx + 1])))
      && (WellKept(BaseKey(prefix), B) && IsDir(BaseKey(prefix), B, ParentKey(prefix, newName)) ==>
            WellKept(BaseKey(prefix), B2))
  {
    hide KeyOf, Parts, BaseKey, ValidKeys, PrefixOk, NameOk, PathJoin, Children, ValidName, Child, Refused, Read;
    hide Whole, Occupied, Seen, WellKept, Framed, ClearBelow, Lists, IsSomeMoved, IsAllMoved, Conserved, HasSuffix,
      Names, ParentKey, Stray, Proper, Disjoint, AtOrBelow, Above, Shallow, Answered, EntryGoes, Tall, Ordinary,
      WayKept, Mixed, FileRenamed;
    var K, N, base, P := KeyOf(prefix, oldName), KeyOf(prefix, newName), BaseKey(prefix), ParentKey(prefix, newName);
    var infos := Read(order, B, K);
    var S := Names(infos[..idx]);
    SourceProper(prefix, oldName);
    ReadLists(base, order, B, K) by { ProperIs(base, K); }
    var i := infos[idx];
    assert i in infos;
    ListsMember(infos, Children(B, K), i);
    EntryNames(prefix, order, oldName, newName, B, B1, i);
    var c, n := Child(K, i.name), Child(N, i.name);
    SureFile(oldName, newName, B, K, N);
    MovableIs(B, K, N);
    NotAboveEntry(K, N, i.name);
    EntryOrdinary(PathJoin(oldName, i.name), PathJoin(newName, i.name), B1, c, n);
    NewName(base, B, K, infos, idx);
    WholeEntry(base, B, K, i);
    EntryMovable(base, B, B1, K, N, S, i);
    HolderMoved(B, B1, K, N, S);
    NamesNext(infos, idx);
    EntrySameAt(B, B1, K, N, S, i.name);
    EntryPresent(base, B, B1, K, i);
    WholeTop(B, K);
    BrokenEntryConserves(B, B1, B2, K, N, S, i.name);
    if e.None? {
      MoveEntry(B, B1, B2, K, N, S, i.name);
    }
    SuffixOfChild(K, N, i.name);
    ChildApart(c, N, i.name);
    NotAbove(c, n);
  }

  lemma NotAbove(a: string, b: string)
    requires Disjoint(a, b)
    ensures !Above(a, b)
  {
  }

  /** Whether a child has a holder's ending does not depend on where it is. */
  lemma SuffixOfChild(K: string, N: string, x: string)
    requires ValidName(x)
    ensures HasSuffix(Child(K, x), DIR_HOLDER) <==> HasSuffix(Child(N, x), DIR_HOLDER)
  {
    SuffixOfTail(Slash(K), x);
    SuffixOfTail(Slash(N), x);
  }

  /** With no failing call an entry is moved exactly if nothing blocks it. */
  lemma MovingEntryExact(prefix: string, order: Order, oldName: string, newName: string, B: Objects, B1: Objects,
                         B2: Objects, idx: nat, e: Option<Error>)
    requires RenameNames(prefix, oldName, newName, B) && idx < |Read(order, B, KeyOf(prefix, oldName))|
    requires Moving(prefix, order, oldName, newName, B, B1, idx, false, false)
    requires var x := Read(order, B, KeyOf(prefix, oldName))[idx].name;
      var full, dest := PathJoin(oldName, x), PathJoin(newName, x);
      && !AtOrBelow(Child(KeyOf(prefix, oldName), x), KeyOf(prefix, newName))
      && RenameNames(prefix, full, dest, B1) && Renamed(prefix, order, full, dest, B1, B2, false, false, e)
    requires Sure(oldName, newName, B, KeyOf(prefix, oldName), KeyOf(prefix, newName))
    ensures var K, N := KeyOf(prefix, oldName), KeyOf(prefix, newName);
      && (e.None? <==> EntryGoes(order, B, K, N, idx))
      && Holder(N) in B2 && Get(B2, Holder(K)) == Get(B, Holder(K))
  {
    hide KeyOf, Parts, BaseKey, ValidKeys, PrefixOk, NameOk, PathJoin, Children, ValidName, Child, Refused, Read;
    hide Whole, Occupied, Seen, WellKept, ClearBelow, Lists, IsSomeMoved, IsAllMoved, Conserved, HasSuffix, Names,
      ParentKey, Stray, Proper, Disjoint, AtOrBelow, Above, Shallow, Tall, Holder, Framed, Passes, Unblocked,
      ParentSeen, Goes, EntryGoes, Ordinary, WayKept, Mixed, FileRenamed;
    var K, N, base := KeyOf(prefix, oldName), KeyOf(prefix, newName), BaseKey(prefix);
    var infos := Read(order, B, K);
    var S := Names(infos[..idx]);
    SourceProper(prefix, oldName);
    ReadLists(base, order, B, K) by { ProperIs(base, K); }
    var i := infos[idx];
    assert i in infos;
    ListsMember(infos, Children(B, K), i);
    EntryNames(prefix, order, oldName, newName, B, B1, i);
    var full, dest, c, n := PathJoin(oldName, i.name), PathJoin(newName, i.name), Child(K, i.name), Child(N, i.name);
    SureFile(oldName, newName, B, K, N);
    MovableIs(B, K, N);
    NotAboveEntry(K, N, i.name);
    EntryOrdinary(full, dest, B1, c, n);
    NewName(base, B, K, infos, idx);
    WholeEntry(base, B, K, i);
    MovedSoFar(prefix, order, oldName, newName, B, B1, idx);
    EntryMovable(base, B, B1, K, N, S, i);
    EntrySameAt(B, B1, K, N, S, i.name);
    EntryPresent(base, B, B1, K, i);
    HoldersKept(B1, B2, K, N, i.name);
    if i.DirInfo? {
      EntrySeen(base, B, B1, K, N, infos, idx, i.name);
      PresentSeen(B1, c);
      HolderMoved(B, B1, K, N, S);
      ParentThere(prefix, dest, B1, N);
      EntrySame(base, order, B, B1, K, N, S, i, n);
    }
    EntryGoesIs(order, B, K, N, idx);
  }

  lemma EntryGoesIs(order: Order, B: Objects, K: string, N: string, idx: nat)
    requires idx < |Read(order, B, K)|
    ensures var infos := Read(order, B, K);
      EntryGoes(order, B, K, N, idx) <==>
        !AtOrBelow(Child(K, infos[idx].name), N) &&
        (infos[idx].DirInfo? ==>
          && !(infos[idx].name <= DIR_HOLDER)
          && !(exists j :: 0 <= j < idx && infos[idx].name <= infos[j].name)
          && Passes(order, B, Child(K, infos[idx].name)))
  {
    hide Passes;
  }

  lemma HoldersKept(B1: Objects, B2: Objects, K: string, N: string, x: string)
    requires Framed(B1, B2, Child(K, x), Child(N, x)) && ValidName(x) && x != DIR_HOLDER
    requires Disjoint(Child(K, x), N) && K != "" && N != "" && !AtOrBelow(N, Holder(K)) && Holder(N) in B1
    ensures Holder(N) in B2 && Get(B2, Holder(K)) == Get(B1, Holder(K))
  {
    hide Disjoint, Seg;
    NameNotEmpty(x);
    HolderSeg(K);
    HolderSeg(N);
    SegIsChild(K, x, Holder(K));
    SegIsChild(N, x, Holder(N));
    HolderIsChild(N);
    DisjointSwaps(Child(K, x), N);
    ApartSides(N, Child(K, x), Holder(N));
    ChildAtOrBelow(N, x, Holder(K));
    assert Get(B2, Holder(N)) == Get(B1, Holder(N));
  }

  lemma ParentThere(prefix: string, dest: string, B1: Objects, N: string)
    requires |Parts(dest)| > 1 && ParentKey(prefix, dest) == N && Seen(B1, N)
    ensures ParentSeen(prefix, dest, B1)
  {
  }

  /** An entry not yet moved passes as it did at the start. */
  lemma EntrySame(base: string, order: Order, B: Objects, B1: Objects, K: string, N: string, S: set<string>, i: Info,
                  n: string)
    requires ValidKeys(base, B) && ValidKeys(base, B1) && Proper(base, K) && ValidName(i.name) && i.name !in S
    requires Disjoint(Child(K, i.name), N) && IsSomeMoved(B, B1, K, N, S) && n == Child(N, i.name)
    ensures Goes(order, B1, Child(K, i.name), n) <==> Passes(order, B, Child(K, i.name))
  {
    hide ValidKeys, Proper, Disjoint, IsSomeMoved, Goes, Passes, Read, Child, ValidName, Above, AtOrBelow;
    var c := Child(K, i.name);
    ProperChild(base, K, i.name);
    forall k | Above(c, k) ensures Get(B1, k) == Get(B, k) {
      AboveAtOrBelow(c, k);
      EntryUntouched(B, B1, K, N, S, i.name, k);
    }
    PassesSame(base, order, B, B1, c);
    GoesIs(base, order, B1, c, n);
    ChildApart(c, N, i.name);
    ProperIs(base, c);
    ReadLists(base, order, B1, c);
    forall j | j in Read(order, B1, c) ensures !AtOrBelow(Child(c, j.name), n) {
      ListsMember(Read(order, B1, c), Children(B1, c), j);
      ChildEntry(base, B1, c, j);
      ApartFromChild(c, n, j.name);
    }
  }

  lemma ApartFromChild(c: string, n: string, x: string)
    requires Disjoint(c, n) && ValidName(x)
    ensures !AtOrBelow(Child(c, x), n)
  {
    ChildAtOrBelow(c, x, n);
  }

  // ---------------------------------------------------------------- the end

  lemma MovingEnds(prefix: string, order: Order, oldName: string, newName: string, B: Objects, B1: Objects, B2: Objects,
                   f1: bool, b1: bool, f2: bool, b2: bool, err: Option<Error>)
    requires RenameNames(prefix, oldName, newName, B) && (f1 ==> f2) && (b1 ==> b2)
    requires Moving(prefix, order, oldName, newName, B, B1, |Read(order, B, KeyOf(prefix, oldName))|, f1, b1)
    requires var K := KeyOf(prefix, oldName);
      && (B2 == B1 || B2 == B1 - {Holder(K)} || B2 == B1 - {Holder(K)} - {K})
      && (err.None? ==> B2 == B1 - {Holder(K)} - {K})
    requires err.Some? ==> f2
    ensures Renamed(prefix, order, oldName, newName, B, B2, f2, b2, err)
  {
    hide KeyOf, Parts, BaseKey, ValidKeys, PrefixOk, NameOk, Children, Holder, Read;
    hide Whole, Fresh, Occupied, Seen, WellKept, ParentSeen, Framed, ClearBelow, Lists, IsSomeMoved, IsAllMoved,
      Conserved, HasSuffix, Names, ParentKey, Shallow, Tall, AtOrBelow, Above, Passes, Unblocked, EntryGoes, Answered,
      Ordinary, WayKept, Mixed, FileRenamed;
    var K, N, base, P := KeyOf(prefix, oldName), KeyOf(prefix, newName), BaseKey(prefix), ParentKey(prefix, newName);
    var infos := Read(order, B, K);
    HolderIsChild(K);
    AboveAtOrBelow(K, Holder(K));
    FramedRemove(B, B1, K, N, Holder(K));
    SelfAtOrBelow(K);
    FramedRemove(B, B1 - {Holder(K)}, K, N, K);
    FewerKeys(base, B1, B2);
    if !Above(K, N) || !Mixed(oldName, newName) {
      ShallowFewer(B, B1, B2, K, N);
    }
    SourceProper(prefix, oldName);
    ReadLists(base, order, B, K) by { ProperIs(base, K); }
    assert infos[..|infos|] == infos;
    if Sure(oldName, newName, B, K, N) {
      MovableIs(B, K, N);
      SureFile(oldName, newName, B, K, N);
      KeptEnds(B, B1, B2, K, N);
    }
    if Sure(oldName, newName, B, K, N) && Trusted(B, K, N, f2, b2) {
      MoveEndConserves(base, B, B1, B2, K, N, infos);
      if Tidy(base, B, K, N, P) {
        ApartFromAbove(K, N);
        MoveEndKeeps(base, B, B1, B2, K, N, infos);
      }
    }
    if !f2 && !b2 {
      MovingAnswers(prefix, order, oldName, newName, B, B1, B2, err);
    }
  }

  lemma ApartFromAbove(K: string, N: string)
    requires !AtOrBelow(N, K) && !Above(K, N)
    ensures Disjoint(K, N)
  {
  }

  lemma FewerKeys(base: string, B1: Objects, B2: Objects)
    requires ValidKeys(base, B1) && forall k :: k in B2 ==> k in B1
    ensures ValidKeys(base, B2)
  {
  }

  lemma MovingAnswers(prefix: string, order: Order, oldName: string, newName: string, B: Objects, B1: Objects,
                      B2: Objects, err: Option<Error>)
    requires RenameNames(prefix, oldName, newName, B) && err.None?
    requires Moving(prefix, order, oldName, newName, B, B1, |Read(order, B, KeyOf(prefix, oldName))|, false, false)
    requires var K := KeyOf(prefix, oldName); B2 == B1 - {Holder(K)} - {K}
    ensures Answered(prefix, order, oldName, newName, B, B2, err)
  {
    hide KeyOf, Parts, BaseKey, ValidKeys, PrefixOk, NameOk, Children, Holder, Read;
    hide Whole, Fresh, Seen, WellKept, ParentSeen, Framed, ClearBelow, IsSomeMoved, HasSuffix, Names, ParentKey,
      Shallow, Tall, AtOrBelow, Above, Passes, Unblocked, EntryGoes, Occupied, Ordinary, WayKept, Mixed;
    var K, N := KeyOf(prefix, oldName), KeyOf(prefix, newName);
    NameInside(prefix, oldName);
    NameInside(prefix, newName);
    if Sure(oldName, newName, B, K, N) {
      MovedSoFar(prefix, order, oldName, newName, B, B1, |Read(order, B, K)|);
      HoldersDiffer(K, N);
    }
    if !Occupied(B, K) {
      EmptyRead(BaseKey(prefix), order, B, K);
      HoldersDiffer(K, N);
      NothingAt(B, K);
      assert B[Holder(N) := []] - {Holder(K)} - {K} == B[Holder(N) := []];
    }
  }

  lemma HoldersDiffer(K: string, N: string)
    requires !AtOrBelow(N, K) && K != "" && N != ""
    ensures Holder(N) != Holder(K) && Holder(N) != K
  {
    if Holder(N) == Holder(K) {
      HolderInjective(N, K);
    }
    HolderIsChild(N);
  }

  lemma EmptyRead(base: string, order: Order, B: Objects, K: string)
    requires ValidKeys(base, B) && AtOrBelow(base, K) && !Occupied(B, K)
    ensures Read(order, B, K) == []
  {
    if Read(order, B, K) != [] {
      EntriesOccupy(base, order, B, K, 0);
    }
  }

  lemma NothingAt(B: Objects, K: string)
    requires !Occupied(B, K)
    ensures K !in B && Holder(K) !in B
  {
    HolderIsChild(K);
    assert K in B ==> AtOrBelow(K, K);
    assert Holder(K) in B ==> AtOrBelow(K, Holder(K));
  }

  /** The move of a file. */
  lemma RenamedFile(prefix: string, order: Order, oldName: string, newName: string, B: Objects, B2: Objects,
                    faulted: bool, blind: bool, err: Option<Error>)
    requires RenameNames(prefix, oldName, newName, B) && KeyOf(prefix, oldName) in B && oldName != "."
    requires var K, N := KeyOf(prefix, oldName), KeyOf(prefix, newName);
      var B1 := B[N := B[K]];
      && (B2 == B || B2 == B1 || B2 == B1 - {K})
      && (err.None? ==> B2 == B1 - {K})
    requires err.Some? ==> faulted
    ensures Renamed(prefix, order, oldName, newName, B, B2, faulted, blind, err)
  {
    hide KeyOf, Parts, BaseKey, ValidKeys, PrefixOk, NameOk, AtOrBelow, Above;
    hide Whole, Fresh, Occupied, WellKept, ParentSeen, Framed, ClearBelow, IsAllMoved, Conserved, HasSuffix,
      ParentKey, KeyOk, Shallow, Goes, Seen, Tall, Ordinary, Mixed;
    var K, N, base, P := KeyOf(prefix, oldName), KeyOf(prefix, newName), BaseKey(prefix), ParentKey(prefix, newName);
    var B1 := B[N := B[K]];
    SelfAtOrBelow(K);
    SelfAtOrBelow(N);
    FramedSame(B, K, N);
    FramedPut(B, K, N, N, B[K]);
    FramedRemove(B, B1, K, N, K);
    ShallowSame(B, K, N);
    ShallowPut(B, K, N, N, B[K]);
    ShallowFewer(B, B1, B1 - {K}, K, N);
    NameKeyOk(prefix, newName);
    PutKeys(base, B, N, B[K]);
    FewerKeys(base, B1, B1 - {K});
    InSeen(B, K);
    NameParent(prefix, newName);
    if Movable(B, K, N) {
      KeptFile(B, B2, K, N);
      MoveFileConserves(B, B2, K, N);
      if Tidy(base, B, K, N, P) {
        var p := Parts(newName);
        MoveFileKeeps(base, B, B2, K, N, P, p[|p| - 1]);
      }
    }
  }

  // ---------------------------------------------------------------- definitions, one at a time

  lemma RefusedIs(oldName: string, newName: string)
    ensures Refused(oldName, newName) <==> newName == oldName || oldName == "/" || oldName + "/" <= newName
  {
  }

  lemma SourceIs(oldName: string, B: Objects, K: string)
    ensures RootName(oldName) <==> oldName == "/" || oldName == "."
    ensures DirSource(oldName, B, K) <==> oldName == "." || (K !in B && Seen(B, K))
  {
  }

  lemma MovingFacts(prefix: string, order: Order, oldName: string, newName: string, B: Objects, B1: Objects,
                    idx: nat, faulted: bool, blind: bool)
    requires Parts(newName) != [] && Moving(prefix, order, oldName, newName, B, B1, idx, faulted, blind)
    ensures ValidKeys(BaseKey(prefix), B1) && Framed(B, B1, KeyOf(prefix, oldName), KeyOf(prefix, newName))
  {
  }
}
