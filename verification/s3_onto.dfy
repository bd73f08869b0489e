/**
 What Rename does when its target is the source in another spelling, or above it: files go, and
 directories only when a failing call hides that the target is there.
 */
module S3Onto {
  import opened Data
  import opened GoPath
  import opened S3Keys
  import opened S3Client
  import opened S3Invariant
  import opened S3Moves
  import opened S3Status
  import opened S3Removal
  import opened S3Rename
  import opened S3Passes
  import opened S3Renaming
  import opened S3Ways

  /** Only keys at or below N have changed. */
  ghost predicate OnlyAt(B: Objects, B': Objects, N: string) {
    forall k :: !AtOrBelow(N, k) ==> Get(B', k) == Get(B, k)
  }

  ghost predicate RenamedOnto(prefix: string, oldName: string, newName: string, B: Objects, B': Objects,
                              faulted: bool, blind: bool, err: Option<Error>) {
    var K, N := KeyOf(prefix, oldName), KeyOf(prefix, newName);
    && ValidKeys(BaseKey(prefix), B') && OnlyAt(B, B', N) && Shallow(B, B', K, N)
    && (oldName == "." ==> err.Some? && B' == B && (!faulted ==> err == Some(Exist)))
    && (oldName != "." && K in B && (K == N || N == "") ==> err.Some?)
    && (oldName != "." && K in B && err.None? ==> B' == B[N := B[K]] - {K})
    && (oldName != "." && K in B && !faulted ==>
          if K == N || N == "" then err == Some(Invalid) && B' == B else err.None?)
    && (oldName != "." && !faulted && !blind && !Seen(B, K) ==> err == Some(NotExist) && B' == B)
    && (!faulted && !blind && Seen(B, K) && K !in B ==> err == Some(Exist) && B' == B)
  }

  /** The names Rename works on, when the target is the source or above it. */
  ghost predicate OntoNames(prefix: string, oldName: string, newName: string, B: Objects) {
    && PrefixOk(prefix) && NameOk(prefix, oldName) && NameOk(prefix, newName)
    && ValidKeys(BaseKey(prefix), B)
    && AtOrBelow(KeyOf(prefix, newName), KeyOf(prefix, oldName))
  }

  /** Where Rename of a directory is after its first idx entries; some call has failed by then. Of a
      directory renamed to itself only the entries tried have changed, and none of them is a file. */
  ghost predicate OntoMoving(prefix: string, order: Order, oldName: string, newName: string, B: Objects, B1: Objects,
                             idx: nat) {
    var K, N := KeyOf(prefix, oldName), KeyOf(prefix, newName);
    && idx <= |Read(order, B, K)| && K !in B && N != "" && oldName != "."
    && ValidKeys(BaseKey(prefix), B1) && OnlyAt(B, B1, N) && Shallow(B, B1, K, N)
    && (K == N && Rooted(oldName) != Rooted(newName) && Read(order, B, K) != [] ==> TriedOnly(order, B, B1, K, idx))
  }

  ghost predicate TriedOnly(order: Order, B: Objects, B1: Objects, K: string, idx: nat)
    requires idx <= |Read(order, B, K)|
  {
    && (forall i :: 0 <= i < idx ==> Child(K, Read(order, B, K)[i].name) !in B)
    && (forall k :: Above(K, k) && Untried(order, B, K, idx, k) ==> Get(B1, k) == Get(B, k))
  }

  predicate Untried(order: Order, B: Objects, K: string, idx: nat, k: string)
    requires idx <= |Read(order, B, K)|
  {
    forall i :: 0 <= i < idx ==> !AtOrBelow(Child(K, Read(order, B, K)[i].name), k)
  }

  lemma OntoNothing(prefix: string, oldName: string, newName: string, B: Objects, faulted: bool, blind: bool, e: Error)
    requires OntoNames(prefix, oldName, newName, B)
    requires !faulted ==> e == NotExist && !Seen(B, KeyOf(prefix, oldName)) && oldName != "."
    ensures RenamedOnto(prefix, oldName, newName, B, B, faulted, blind, Some(e))
  {
    InSeen(B, KeyOf(prefix, oldName));
  }

  lemma OntoFile(prefix: string, oldName: string, newName: string, B: Objects, B2: Objects, faulted: bool,
                 blind: bool, err: Option<Error>)
    requires OntoNames(prefix, oldName, newName, B) && KeyOf(prefix, oldName) in B && oldName != "."
    requires var K, N := KeyOf(prefix, oldName), KeyOf(prefix, newName); var B1 := B[N := B[K]];
      && (B2 == B || (K != N && N != "" && (B2 == B1 || B2 == B1 - {K})))
      && (err.None? ==> K != N && N != "" && B2 == B1 - {K})
      && (err.Some? && !faulted ==> (K == N || N == "") && err == Some(Invalid) && B2 == B)
    ensures RenamedOnto(prefix, oldName, newName, B, B2, faulted, blind, err)
  {
    hide KeyOf, Parts, BaseKey, ValidKeys, PrefixOk, NameOk, Seen, Shallow, KeyOk;
    var K, N := KeyOf(prefix, oldName), KeyOf(prefix, newName);
    var B1 := B[N := B[K]];
    InSeen(B, K);
    ShallowSame(B, K, N);
    if N != "" {
      ShallowPut(B, K, N, N, B[K]);
      ShallowFewer(B, B1, B1 - {K}, K, N);
      TargetKeyOk(prefix, newName);
      PutKeys(BaseKey(prefix), B, N, B[K]);
      FewerKeys(BaseKey(prefix), B1, B1 - {K});
    }
  }

  lemma TargetKeyOk(prefix: string, name: string)
    requires PrefixOk(prefix) && NameOk(prefix, name) && KeyOf(prefix, name) != ""
    ensures KeyOk(BaseKey(prefix), KeyOf(prefix, name))
  {
    if Parts(name) != [] {
      NameKeyOk(prefix, name);
    } else {
      KeyOfName(prefix, name);
      assert PrefixParts(prefix) + [] == PrefixParts(prefix);
    }
  }

  /** A target above the source is seen when the source is. */
  lemma SeenAbove(B: Objects, K: string, N: string)
    requires AtOrBelow(N, K) && Seen(B, K)
    ensures Seen(B, N)
  {
    var k :| k in B && K <= k;
    assert N <= K;
    assert N <= k;
  }

  /** Mkdir of the target did not find it missing. */
  lemma OntoNoDir(prefix: string, oldName: string, newName: string, B: Objects, B1: Objects, faulted: bool,
                  blind: bool, e: Error)
    requires OntoNames(prefix, oldName, newName, B) && (KeyOf(prefix, oldName) !in B || oldName == ".")
    requires if Parts(newName) == [] then B1 == B && e == Exist
      else MadeDir(prefix, newName, B, B1, faulted, blind, Some(e))
    requires !faulted ==> DirSource(oldName, B, KeyOf(prefix, oldName))
    ensures RenamedOnto(prefix, oldName, newName, B, B1, faulted, blind, Some(e))
  {
    hide KeyOf, NameOk, Parts, BaseKey, ValidKeys, Seen, Shallow, PrefixOk, ParentSeen;
    OntoMade(prefix, oldName, newName, B, B1);
    OntoRoot(prefix, oldName, newName, B);
    if !faulted && oldName != "." {
      SeenAbove(B, KeyOf(prefix, oldName), KeyOf(prefix, newName));
    }
  }

  /** What is at or above the root is the root. */
  lemma OntoRoot(prefix: string, oldName: string, newName: string, B: Objects)
    requires OntoNames(prefix, oldName, newName, B)
    ensures oldName == "." ==> Parts(newName) == [] && Parts(oldName) == []
  {
    hide KeyOf, NameOk, Parts, ValidKeys, PrefixOk;
    PlainDots();
    NameInside(prefix, newName);
    if oldName == "." {
      RootAbove(prefix, newName, oldName);
    }
  }

  lemma OntoMade(prefix: string, oldName: string, newName: string, B: Objects, B1: Objects)
    requires OntoNames(prefix, oldName, newName, B)
    requires B1 == B || (Parts(newName) != [] && B1 == B[Holder(KeyOf(prefix, newName)) := []])
    ensures var K, N := KeyOf(prefix, oldName), KeyOf(prefix, newName);
      ValidKeys(BaseKey(prefix), B1) && OnlyAt(B, B1, N) && Shallow(B, B1, K, N)
  {
    hide KeyOf, NameOk, Parts, BaseKey, ValidKeys, KeyOk, Shallow, PrefixOk;
    var K, N := KeyOf(prefix, oldName), KeyOf(prefix, newName);
    ShallowSame(B, K, N);
    if B1 != B {
      HolderIsChild(N);
      NameInside(prefix, newName);
      ShallowPut(B, K, N, Holder(N), []);
      NameKeyOk(prefix, newName);
      PutKeys(BaseKey(prefix), B, Holder(N), []);
    }
  }

  lemma OntoStarts(prefix: string, order: Order, oldName: string, newName: string, B: Objects, B1: Objects,
                   faulted: bool, blind: bool)
    requires OntoNames(prefix, oldName, newName, B) && Parts(newName) != []
    requires KeyOf(prefix, oldName) !in B || oldName == "."
    requires MadeDir(prefix, newName, B, B1, faulted, blind, None)
    requires !faulted ==> DirSource(oldName, B, KeyOf(prefix, oldName))
    ensures OntoMoving(prefix, order, oldName, newName, B, B1, 0) && faulted
  {
    hide KeyOf, NameOk, Parts, BaseKey, ValidKeys, Seen, Shallow, PrefixOk, ParentSeen, Read;
    var K, N := KeyOf(prefix, oldName), KeyOf(prefix, newName);
    OntoMade(prefix, oldName, newName, B, B1);
    OntoRoot(prefix, oldName, newName, B);
    NameInside(prefix, newName);
    if Read(order, B, K) != [] {
      EntriesOccupy(BaseKey(prefix), order, B, K, 0) by { NameInside(prefix, oldName); }
      PresentSeen(B, K);
    }
    if Seen(B, K) {
      SeenAbove(B, K, N);
    }
  }

  /** Which target an entry has, seen from the entry. */
  lemma OntoChildren(K: string, N: string, x: string)
    requires AtOrBelow(N, K) && ValidName(x) && N != ""
    ensures var c, n := Child(K, x), Child(N, x);
      (c == n <==> K == N) && (AtOrBelow(n, c) || Disjoint(c, n)) && AtOrBelow(N, n) && AtOrBelow(N, c)
      && (Above(c, n) ==> false)
  {
    var c, n := Child(K, x), Child(N, x);
    SameParent(K, N, x);
    AboveChild(N, N, x);
    AboveChild(N, K, x);
    AboveChild(c, N, x);
    assert |c| > |K|;
    if AtOrBelow(c, N) {
      AboveTransitive(c, N, K);
    }
  }

  lemma SamePath(prefix: string, a: string, b: string)
    requires PrefixOk(prefix) && NameOk(prefix, a) && NameOk(prefix, b) && KeyOf(prefix, a) == KeyOf(prefix, b)
    requires Parts(a) != [] && Parts(b) != [] && Clean(a) == a && Clean(b) == b
    ensures a == b <==> (Rooted(a) <==> Rooted(b))
    ensures Rooted(a) != Rooted(b) ==> !Refused(a, b)
  {
    hide KeyOf, Parts, NoDotDot, Key, Clean;
    KeyOfName(prefix, a);
    KeyOfName(prefix, b);
    PartsValid(a);
    PartsValid(b);
    KeyBelow(prefix, Parts(a), Parts(b));
    CleanNoDotDot(a);
    CleanNoDotDot(b);
    PlainDots();
    if a + "/" <= b {
      assert (a + "/")[0] == b[0];
      CleanNotEmpty(a);
    }
  }

  /** The names of an entry and of its target. */
  lemma OntoEntryNames(prefix: string, order: Order, oldName: string, newName: string, B: Objects, B1: Objects,
                       idx: nat)
    requires OntoNames(prefix, oldName, newName, B) && OntoMoving(prefix, order, oldName, newName, B, B1, idx)
    requires idx < |Read(order, B, KeyOf(prefix, oldName))|
    ensures var x := Read(order, B, KeyOf(prefix, oldName))[idx].name;
      var full, dest, c, n := PathJoin(oldName, x), PathJoin(newName, x),
                              Child(KeyOf(prefix, oldName), x), Child(KeyOf(prefix, newName), x);
      && ValidName(x) && KeyOf(prefix, full) == c && KeyOf(prefix, dest) == n
      && Parts(full) != [] && Parts(dest) != []
      && (if AtOrBelow(n, c) then OntoNames(prefix, full, dest, B1) else RenameNames(prefix, full, dest, B1))
      && (AtOrBelow(n, c) || Disjoint(c, n)) && !Above(c, n)
      && (c == n ==> (full == dest <==> (Rooted(oldName) <==> Rooted(newName))))
      && (Refused(full, dest) <==> full == dest)
      && (!Refused(full, dest) ==> Tall(B1, c) < Tall(B, KeyOf(prefix, oldName)))
  {
    hide KeyOf, Parts, BaseKey, ValidKeys, PrefixOk, NameOk, PathJoin, Children, ValidName, Child, Refused, Tall,
      AtOrBelow, Above, Key, NoDotDot, Rooted, Read, Shallow, TriedOnly, OnlyAt, Disjoint, Clean;
    var K, N := KeyOf(prefix, oldName), KeyOf(prefix, newName);
    var i := Read(order, B, K)[idx];
    var x := i.name;
    NameInside(prefix, oldName);
    ReadLists(BaseKey(prefix), order, B, K);
    assert i in Read(order, B, K);
    ListsMember(Read(order, B, K), Children(B, K), i);
    ChildEntry(BaseKey(prefix), B, K, i);
    NameNotEmpty(x);
    NameChild(prefix, oldName, x);
    NameChild(prefix, newName, x);
    NameOkIs(prefix, oldName);
    NameOkIs(prefix, newName);
    JoinedClean(oldName, x);
    JoinedClean(newName, x);
    var full, dest, c, n := PathJoin(oldName, x), PathJoin(newName, x), Child(K, x), Child(N, x);
    ChildNotRoot(K, x);
    OntoChildren(K, N, x);
    if c == n {
      SamePath(prefix, full, dest);
      RefusedIs(full, dest);
    }
    NotRefusedOnto(prefix, full, dest);
    if !Refused(full, dest) {
      OntoShorter(prefix, order, oldName, newName, B, B1, idx);
    }
  }

  lemma NotRefusedOnto(prefix: string, full: string, dest: string)
    requires PrefixOk(prefix) && NameOk(prefix, full) && NameOk(prefix, dest) && Parts(full) != []
    requires KeyOf(prefix, full) != KeyOf(prefix, dest) ==> !Above(KeyOf(prefix, full), KeyOf(prefix, dest))
    ensures KeyOf(prefix, full) != KeyOf(prefix, dest) ==> !Refused(full, dest) && full != dest
    ensures full == dest ==> Refused(full, dest)
  {
    hide KeyOf, Parts, NameOk, PrefixOk;
    PlainDots();
    if full + "/" <= dest {
      RefusedBelow(prefix, full, dest);
    }
  }

  lemma OntoShorter(prefix: string, order: Order, oldName: string, newName: string, B: Objects, B1: Objects, idx: nat)
    requires OntoNames(prefix, oldName, newName, B) && OntoMoving(prefix, order, oldName, newName, B, B1, idx)
    requires idx < |Read(order, B, KeyOf(prefix, oldName))|
    requires KeyOf(prefix, oldName) == KeyOf(prefix, newName) ==> Rooted(oldName) != Rooted(newName)
    ensures var K := KeyOf(prefix, oldName); Tall(B1, Child(K, Read(order, B, K)[idx].name)) < Tall(B, K)
  {
    hide KeyOf, Parts, BaseKey, ValidKeys, PrefixOk, NameOk, Children, Child, Tall, Key, NoDotDot, Rooted, Read,
      TriedOnly, OnlyAt, Seg;
    var K, N := KeyOf(prefix, oldName), KeyOf(prefix, newName);
    var i := Read(order, B, K)[idx];
    NameInside(prefix, oldName);
    ReadLists(BaseKey(prefix), order, B, K);
    assert i in Read(order, B, K);
    ListsMember(Read(order, B, K), Children(B, K), i);
    ChildEntry(BaseKey(prefix), B, K, i);
    NameNotEmpty(i.name);
    var c := Child(K, i.name);
    var k0 := EntryAt(B, K, i);
    forall k | k in B1 && Above(c, k) ensures Depth(k) <= Depth(K) + Tall(B, K) {
      ChildBelow(K, i.name, k);
      if k in B {
        TallBound(B, K, k);
      } else if K == N {
        UntriedEntry(BaseKey(prefix), order, B, B1, K, idx, k);
      } else {
        DepthAbove(N, K);
      }
    }
    TallChild(B, B1, K, i.name, k0);
  }

  lemma EntryAt(B: Objects, K: string, i: Info) returns (k0: string)
    requires i in Children(B, K)
    ensures k0 in B && Above(K, k0)
  {
    k0 :| k0 in B && Above(K, k0) && !Hidden(K, k0) && i == InfoOf(B, K, k0);
  }

  /** An entry that has not been tried is as it was. */
  lemma UntriedEntry(base: string, order: Order, B: Objects, B1: Objects, K: string, idx: nat, k: string)
    requires ValidKeys(base, B) && AtOrBelow(base, K) && K !in B && idx < |Read(order, B, K)|
    requires TriedOnly(order, B, B1, K, idx) && AtOrBelow(Child(K, Read(order, B, K)[idx].name), k)
    ensures Get(B1, k) == Get(B, k) && Above(K, k)
  {
    hide ValidKeys, Read, Children, Child, Seg, Above, AtOrBelow;
    var infos := Read(order, B, K);
    ReadLists(base, order, B, K);
    var i := infos[idx];
    assert i in infos;
    ChildEntry(base, B, K, i);
    NameNotEmpty(i.name);
    SegIsChild(K, i.name, k);
    forall j | 0 <= j < idx ensures !AtOrBelow(Child(K, infos[j].name), k) {
      assert infos[j] in infos;
      ChildEntry(base, B, K, infos[j]);
      NameNotEmpty(infos[j].name);
      SegIsChild(K, infos[j].name, k);
    }
    assert Untried(order, B, K, idx, k);
  }

  /** One turn of the loop. */
  lemma OntoEntry(prefix: string, order: Order, oldName: string, newName: string, B: Objects, B1: Objects, B2: Objects,
                  idx: nat, f2: bool, b2: bool, e: Option<Error>)
    requires OntoNames(prefix, oldName, newName, B) && OntoMoving(prefix, order, oldName, newName, B, B1, idx)
    requires idx < |Read(order, B, KeyOf(prefix, oldName))| && f2
    requires var x := Read(order, B, KeyOf(prefix, oldName))[idx].name;
      var full, dest := PathJoin(oldName, x), PathJoin(newName, x);
      var c, n := Child(KeyOf(prefix, oldName), x), Child(KeyOf(prefix, newName), x);
      if Refused(full, dest) then B2 == B1
      else if AtOrBelow(n, c) then RenamedOnto(prefix, full, dest, B1, B2, f2, b2, e)
      else Parts(dest) != [] && Renamed(prefix, order, full, dest, B1, B2, f2, b2, e)
    ensures e.None? ==> OntoMoving(prefix, order, oldName, newName, B, B2, idx + 1)
    ensures e.Some? ==> RenamedOnto(prefix, oldName, newName, B, B2, f2, b2, e)
  {
    hide KeyOf, Parts, BaseKey, ValidKeys, PrefixOk, NameOk, PathJoin, Children, ValidName, Child, Refused, Tall,
      AtOrBelow, Above, Rooted, Read, Shallow, Disjoint, OnlyAt, TriedOnly, Trusted, Conserved, IsAllMoved, Tidy,
      WellKept, Movable, Answered, Framed;
    var K, N := KeyOf(prefix, oldName), KeyOf(prefix, newName);
    var x := Read(order, B, K)[idx].name;
    OntoEntryNames(prefix, order, oldName, newName, B, B1, idx);
    var full, dest, c, n := PathJoin(oldName, x), PathJoin(newName, x), Child(K, x), Child(N, x);
    NameNotEmpty(x);
    OntoChildren(K, N, x);
    SelfAtOrBelow(c);
    if !Refused(full, dest) {
      ShallowEntry(B, B1, B2, K, N, x);
      OnlyAtEntry(B, B1, B2, N, c, n);
    }
    if e.None? && K == N && Rooted(oldName) != Rooted(newName) {
      UntriedEntry(BaseKey(prefix), order, B, B1, K, idx, c) by { NameInside(prefix, oldName); }
      GetIn(B, c);
      GetIn(B1, c);
      TriedNext(order, B, B1, B2, K, idx);
    }
  }

  lemma OnlyAtEntry(B: Objects, B1: Objects, B2: Objects, N: string, c: string, n: string)
    requires OnlyAt(B, B1, N) && AtOrBelow(N, n) && AtOrBelow(N, c)
    requires OnlyAt(B1, B2, n) || Framed(B1, B2, c, n)
    ensures OnlyAt(B, B2, N)
  {
    hide AtOrBelow, Get;
    forall k | !AtOrBelow(N, k) ensures Get(B2, k) == Get(B, k) {
      if AtOrBelow(n, k) { AboveTransitive(N, n, k); }
      if AtOrBelow(c, k) { AboveTransitive(N, c, k); }
    }
  }

  lemma TriedNext(order: Order, B: Objects, B1: Objects, B2: Objects, K: string, idx: nat)
    requires idx < |Read(order, B, K)| && TriedOnly(order, B, B1, K, idx)
    requires var c := Child(K, Read(order, B, K)[idx].name); c !in B && OnlyAt(B1, B2, c)
    ensures TriedOnly(order, B, B2, K, idx + 1)
  {
    hide Read, Child, AtOrBelow, Above, Get;
    forall k | Above(K, k) && Untried(order, B, K, idx + 1, k) ensures Get(B2, k) == Get(B, k) {
      assert !AtOrBelow(Child(K, Read(order, B, K)[idx].name), k);
      assert Untried(order, B, K, idx, k);
    }
  }

  lemma OntoEnds(prefix: string, order: Order, oldName: string, newName: string, B: Objects, B1: Objects, B2: Objects,
                 b2: bool, err: Option<Error>)
    requires OntoNames(prefix, oldName, newName, B)
    requires OntoMoving(prefix, order, oldName, newName, B, B1, |Read(order, B, KeyOf(prefix, oldName))|)
    requires var K := KeyOf(prefix, oldName); B2 == B1 || B2 == B1 - {Holder(K)} || B2 == B1 - {Holder(K)} - {K}
    ensures RenamedOnto(prefix, oldName, newName, B, B2, true, b2, err)
  {
    hide KeyOf, Parts, BaseKey, ValidKeys, PrefixOk, NameOk, Read, Shallow, TriedOnly;
    var K, N := KeyOf(prefix, oldName), KeyOf(prefix, newName);
    HolderIsChild(K);
    AboveTransitive(N, K, Holder(K));
    FewerKeys(BaseKey(prefix), B1, B2);
    ShallowFewer(B, B1, B2, K, N);
    forall k | !AtOrBelow(N, k) ensures Get(B2, k) == Get(B, k) {
      assert k != K && k != Holder(K);
      assert Get(B1, k) == Get(B, k);
    }
  }

  // ---------------------------------------------------------------- every target

  /** The names Rename works on, and that it is sure to end. */
  ghost predicate Renameable(prefix: string, oldName: string, newName: string, B: Objects) {
    && PrefixOk(prefix) && NameOk(prefix, oldName) && NameOk(prefix, newName) && ValidKeys(BaseKey(prefix), B)
    && (Parts(newName) != [] || newName == "/" || newName == ".")
    && (!Refused(oldName, newName) ==>
          Bounded(oldName, newName, B, KeyOf(prefix, oldName), KeyOf(prefix, newName)))
  }

  /** What Rename has done when it returns err. */
  ghost predicate RenameDone(prefix: string, order: Order, oldName: string, newName: string, B: Objects, B': Objects,
                             faulted: bool, blind: bool, err: Option<Error>) {
    if Refused(oldName, newName) then
      && B' == B
      && (newName == oldName <==> err.None?)
      && (newName != oldName && !faulted && !blind ==>
            err == Some(if RootName(oldName) || Seen(B, KeyOf(prefix, oldName)) then Permission else NotExist))
    else if AtOrBelow(KeyOf(prefix, newName), KeyOf(prefix, oldName)) then
      RenamedOnto(prefix, oldName, newName, B, B', faulted, blind, err)
    else
      Parts(newName) != [] && Renamed(prefix, order, oldName, newName, B, B', faulted, blind, err)
  }

  // ---------------------------------------------------------------- the two cases together

  lemma NamesReady(prefix: string, oldName: string, newName: string, B: Objects)
    requires Renameable(prefix, oldName, newName, B) && !Refused(oldName, newName)
    ensures PrefixOk(prefix) && NameOk(prefix, oldName) && NameOk(prefix, newName) && ValidKeys(BaseKey(prefix), B)
    ensures KeyOf(prefix, oldName) != "" && (Parts(newName) != [] || newName == "/" || newName == ".")
    ensures Bounded(oldName, newName, B, KeyOf(prefix, oldName), KeyOf(prefix, newName))
    ensures if AtOrBelow(KeyOf(prefix, newName), KeyOf(prefix, oldName)) then OntoNames(prefix, oldName, newName, B)
            else Parts(newName) != [] && RenameNames(prefix, oldName, newName, B)
  {
    hide KeyOf, Parts, ValidKeys, PrefixOk, NameOk, AtOrBelow, Above, Bounded;
    SourceNotEmpty(prefix, oldName, newName);
    if Parts(newName) == [] {
      RootAbove(prefix, oldName, newName);
    }
  }

  /** Only the root under the root prefix has the empty key, and its one name there is refused. */
  lemma SourceNotEmpty(prefix: string, oldName: string, newName: string)
    requires PrefixOk(prefix) && NameOk(prefix, oldName) && !Refused(oldName, newName)
    ensures KeyOf(prefix, oldName) != ""
  {
    hide KeyOf, Parts;
    NameInside(prefix, oldName);
    if Parts(oldName) == [] {
      KeyOfName(prefix, oldName);
      assert PrefixParts(prefix) + [] == PrefixParts(prefix);
      if !RootPrefix(prefix) {
        PartsValid(prefix);
        JoinHead(Parts(prefix));
      }
    }
  }

  lemma NamesOf(prefix: string, oldName: string, newName: string, B: Objects)
    requires Renameable(prefix, oldName, newName, B)
    ensures PrefixOk(prefix) && NameOk(prefix, oldName) && ValidKeys(BaseKey(prefix), B)
  {
  }

  lemma DoneRefused(prefix: string, order: Order, oldName: string, newName: string, B: Objects,
                    faulted: bool, blind: bool, err: Option<Error>)
    requires Refused(oldName, newName)
    requires newName == oldName <==> err.None?
    requires newName != oldName && !faulted && !blind ==>
      err == Some(if RootName(oldName) || Seen(B, KeyOf(prefix, oldName)) then Permission else NotExist)
    ensures RenameDone(prefix, order, oldName, newName, B, B, faulted, blind, err)
  {
  }

  lemma DoneNothing(prefix: string, order: Order, oldName: string, newName: string, B: Objects,
                    faulted: bool, blind: bool, e: Error)
    requires Renameable(prefix, oldName, newName, B) && !Refused(oldName, newName)
    requires !faulted ==> e == NotExist && !Seen(B, KeyOf(prefix, oldName)) && oldName != "."
    ensures RenameDone(prefix, order, oldName, newName, B, B, faulted, blind, Some(e))
  {
    hide KeyOf, Parts, Seen, AtOrBelow, Renameable, Renamed, RenamedOnto, OntoNames, RenameNames;
    NamesReady(prefix, oldName, newName, B);
    if AtOrBelow(KeyOf(prefix, newName), KeyOf(prefix, oldName)) {
      OntoNothing(prefix, oldName, newName, B, faulted, blind, e);
    } else {
      RenamedNothing(prefix, order, oldName, newName, B, faulted, blind, e);
    }
  }

  /** What Mkdir of the target has done. */
  ghost predicate Made(prefix: string, newName: string, B: Objects, B1: Objects, faulted: bool, blind: bool,
                       err: Option<Error>) {
    if Parts(newName) == [] then err == Some(Exist) && B1 == B
    else MadeDir(prefix, newName, B, B1, faulted, blind, err)
  }

  lemma MadeIs(prefix: string, newName: string, B: Objects, B1: Objects, faulted: bool, blind: bool, err: Option<Error>)
    requires Parts(newName) == [] ==> err == Some(Exist) && B1 == B
    requires Parts(newName) != [] ==>
      var N := KeyOf(prefix, newName);
      && (B1 == B || (!Seen(B, N) && B1 == B[Holder(N) := []]))
      && (err.None? && !Seen(B, N) && !blind ==> B1 == B[Holder(N) := []])
    requires !faulted && Parts(newName) != [] ==> err == MkdirError(prefix, newName, B)
    requires !faulted && err.Some? ==> B1 == B
    ensures Made(prefix, newName, B, B1, faulted, blind, err)
  {
  }

  lemma DoneNoDir(prefix: string, order: Order, oldName: string, newName: string, B: Objects, B1: Objects,
                  faulted: bool, blind: bool, e: Error)
    requires Renameable(prefix, oldName, newName, B) && !Refused(oldName, newName)
    requires KeyOf(prefix, oldName) !in B || oldName == "."
    requires Made(prefix, newName, B, B1, faulted, blind, Some(e))
    requires !faulted ==> DirSource(oldName, B, KeyOf(prefix, oldName))
    ensures RenameDone(prefix, order, oldName, newName, B, B1, faulted, blind, Some(e))
  {
    hide KeyOf, Parts, Seen, AtOrBelow, Renameable, Renamed, RenamedOnto, OntoNames, RenameNames, MadeDir;
    NamesReady(prefix, oldName, newName, B);
    if AtOrBelow(KeyOf(prefix, newName), KeyOf(prefix, oldName)) {
      OntoNoDir(prefix, oldName, newName, B, B1, faulted, blind, e);
    } else {
      RenamedNoDir(prefix, order, oldName, newName, B, B1, faulted, blind, e);
    }
  }

  /** Where Rename of a directory is after its first idx entries. */
  ghost predicate Going(prefix: string, order: Order, oldName: string, newName: string, B: Objects, B1: Objects,
                        idx: nat, faulted: bool, blind: bool) {
    if AtOrBelow(KeyOf(prefix, newName), KeyOf(prefix, oldName)) then
      faulted && OntoMoving(prefix, order, oldName, newName, B, B1, idx)
    else
      Parts(newName) != [] && Moving(prefix, order, oldName, newName, B, B1, idx, faulted, blind)
  }

  lemma GoingStarts(prefix: string, order: Order, oldName: string, newName: string, B: Objects, B1: Objects,
                    faulted: bool, blind: bool)
    requires Renameable(prefix, oldName, newName, B) && !Refused(oldName, newName)
    requires KeyOf(prefix, oldName) !in B || oldName == "."
    requires Made(prefix, newName, B, B1, faulted, blind, None)
    requires !faulted ==> DirSource(oldName, B, KeyOf(prefix, oldName))
    ensures Going(prefix, order, oldName, newName, B, B1, 0, faulted, blind)
  {
    hide KeyOf, Parts, Seen, AtOrBelow, Renameable, Moving, OntoMoving, OntoNames, RenameNames, MadeDir;
    NamesReady(prefix, oldName, newName, B);
    if AtOrBelow(KeyOf(prefix, newName), KeyOf(prefix, oldName)) {
      OntoStarts(prefix, order, oldName, newName, B, B1, faulted, blind);
    } else {
      MovingStarts(prefix, order, oldName, newName, B, B1, faulted, blind);
    }
  }

  /** The call for an entry meets what Rename asks for, and has less to do. */
  lemma GoingNames(prefix: string, order: Order, oldName: string, newName: string, B: Objects, B1: Objects,
                   idx: nat, faulted: bool, blind: bool)
    requires Renameable(prefix, oldName, newName, B) && !Refused(oldName, newName)
    requires Going(prefix, order, oldName, newName, B, B1, idx, faulted, blind)
    requires idx < |Read(order, B, KeyOf(prefix, oldName))|
    ensures var K, N, x := KeyOf(prefix, oldName), KeyOf(prefix, newName),
      Read(order, B, KeyOf(prefix, oldName))[idx].name;
      var full, dest := PathJoin(oldName, x), PathJoin(newName, x);
      var c, n := KeyOf(prefix, full), KeyOf(prefix, dest);
      && Renameable(prefix, full, dest, B1)
      && (Turns(full, dest, B1, c, n) < Turns(oldName, newName, B, K, N)
          || (Turns(full, dest, B1, c, n) == 0 && Levels(full, dest, B1, c) < Levels(oldName, newName, B, K)))
  {
    hide KeyOf, Parts, ValidKeys, PrefixOk, NameOk, AtOrBelow, Above, Refused, Tall, Read, Children, PathJoin, Child,
      Moving, OntoMoving, Rooted, Disjoint, Bounded, Mixed;
    var K, N := KeyOf(prefix, oldName), KeyOf(prefix, newName);
    var i := Read(order, B, K)[idx];
    NamesReady(prefix, oldName, newName, B);
    if AtOrBelow(N, K) {
      OntoEntryNames(prefix, order, oldName, newName, B, B1, idx);
      NotAboveBounded(PathJoin(oldName, i.name), PathJoin(newName, i.name), B1, Child(K, i.name), Child(N, i.name));
    } else {
      MovingFacts(prefix, order, oldName, newName, B, B1, idx, faulted, blind);
      ReadLists(BaseKey(prefix), order, B, K) by { NameInside(prefix, oldName); }
      assert i in Read(order, B, K);
      ListsMember(Read(order, B, K), Children(B, K), i);
      EntryNames(prefix, order, oldName, newName, B, B1, i);
      RenameNamesIs(prefix, oldName, newName, B);
      if !AtOrBelow(Child(K, i.name), N) {
        NameInside(prefix, newName);
        NotAboveEntry(K, N, i.name);
        NotAboveBounded(PathJoin(oldName, i.name), PathJoin(newName, i.name), B1, Child(K, i.name), Child(N, i.name));
      } else if Mixed(oldName, newName) {
        WayCall(prefix, order, oldName, newName, B, B1, idx, faulted, blind);
      }
    }
  }

  lemma NotAboveBounded(full: string, dest: string, B1: Objects, c: string, n: string)
    requires !Above(c, n)
    ensures Bounded(full, dest, B1, c, n) && Turns(full, dest, B1, c, n) == 0
  {
  }

  lemma GoingEntry(prefix: string, order: Order, oldName: string, newName: string, B: Objects, B1: Objects, B2: Objects,
                   idx: nat, f1: bool, b1: bool, f2: bool, b2: bool, e: Option<Error>)
    requires Renameable(prefix, oldName, newName, B) && !Refused(oldName, newName) && (f1 ==> f2) && (b1 ==> b2)
    requires Going(prefix, order, oldName, newName, B, B1, idx, f1, b1)
    requires idx < |Read(order, B, KeyOf(prefix, oldName))|
    requires var x := Read(order, B, KeyOf(prefix, oldName))[idx].name;
      RenameDone(prefix, order, PathJoin(oldName, x), PathJoin(newName, x), B1, B2, f2, b2, e)
    ensures e.None? ==> Going(prefix, order, oldName, newName, B, B2, idx + 1, f2, b2)
    ensures e.Some? ==> RenameDone(prefix, order, oldName, newName, B, B2, f2, b2, e)
  {
    hide KeyOf, Parts, ValidKeys, PrefixOk, NameOk, AtOrBelow, Above, Refused, Tall, Read, Children, PathJoin, Child,
      Moving, OntoMoving, Rooted, Disjoint, Renamed, RenamedOnto, RenameNames, OntoNames, Renameable, Bounded, Mixed;
    var K, N := KeyOf(prefix, oldName), KeyOf(prefix, newName);
    var i := Read(order, B, K)[idx];
    NamesReady(prefix, oldName, newName, B);
    if AtOrBelow(N, K) {
      OntoEntryNames(prefix, order, oldName, newName, B, B1, idx);
      OntoEntry(prefix, order, oldName, newName, B, B1, B2, idx, f2, b2, e);
    } else {
      MovingFacts(prefix, order, oldName, newName, B, B1, idx, f1, b1);
      ReadLists(BaseKey(prefix), order, B, K) by { NameInside(prefix, oldName); }
      assert i in Read(order, B, K);
      ListsMember(Read(order, B, K), Children(B, K), i);
      EntryNames(prefix, order, oldName, newName, B, B1, i);
      RenameNamesIs(prefix, PathJoin(oldName, i.name), PathJoin(newName, i.name), B1);
      if !AtOrBelow(Child(K, i.name), N) {
        MovingEntry(prefix, order, oldName, newName, B, B1, B2, idx, f1, b1, f2, b2, e);
      } else if Mixed(oldName, newName) {
        MovingWay(prefix, order, oldName, newName, B, B1, B2, idx, f1, b1, f2, b2, e);
      } else {
        MovingRefused(prefix, order, oldName, newName, B, B1, idx, f1, b1, f2, b2, e.value);
      }
    }
  }

  lemma RenameNamesIs(prefix: string, oldName: string, newName: string, B: Objects)
    requires RenameNames(prefix, oldName, newName, B)
    ensures !AtOrBelow(KeyOf(prefix, newName), KeyOf(prefix, oldName)) && KeyOf(prefix, oldName) != ""
    ensures PrefixOk(prefix) && NameOk(prefix, newName) && Parts(newName) != []
  {
  }

  lemma GoingEnds(prefix: string, order: Order, oldName: string, newName: string, B: Objects, B1: Objects, B2: Objects,
                  f1: bool, b1: bool, f2: bool, b2: bool, err: Option<Error>)
    requires Renameable(prefix, oldName, newName, B) && !Refused(oldName, newName) && (f1 ==> f2) && (b1 ==> b2)
    requires Going(prefix, order, oldName, newName, B, B1, |Read(order, B, KeyOf(prefix, oldName))|, f1, b1)
    requires var K := KeyOf(prefix, oldName);
      && (B2 == B1 || B2 == B1 - {Holder(K)} || B2 == B1 - {Holder(K)} - {K})
      && (err.None? ==> B2 == B1 - {Holder(K)} - {K})
    requires err.Some? ==> f2
    ensures RenameDone(prefix, order, oldName, newName, B, B2, f2, b2, err)
  {
    hide KeyOf, Parts, AtOrBelow, Read, Moving, OntoMoving, Renamed, RenamedOnto, RenameNames, OntoNames, Renameable,
      Holder;
    NamesReady(prefix, oldName, newName, B);
    if AtOrBelow(KeyOf(prefix, newName), KeyOf(prefix, oldName)) {
      OntoEnds(prefix, order, oldName, newName, B, B1, B2, b2, err);
    } else {
      MovingEnds(prefix, order, oldName, newName, B, B1, B2, f1, b1, f2, b2, err);
    }
  }

  lemma DoneFile(prefix: string, order: Order, oldName: string, newName: string, B: Objects, B2: Objects,
                 faulted: bool, blind: bool, err: Option<Error>)
    requires Renameable(prefix, oldName, newName, B) && !Refused(oldName, newName)
    requires KeyOf(prefix, oldName) in B && oldName != "."
    requires var K, N := KeyOf(prefix, oldName), KeyOf(prefix, newName); var B1 := B[N := B[K]];
      && (B2 == B || (K != N && N != "" && (B2 == B1 || B2 == B1 - {K})))
      && (err.None? ==> K != N && N != "" && B2 == B1 - {K})
      && (err.Some? && !faulted ==> (K == N || N == "") && err == Some(Invalid) && B2 == B)
    ensures RenameDone(prefix, order, oldName, newName, B, B2, faulted, blind, err)
  {
    hide KeyOf, Parts, Renamed, RenamedOnto, Renameable, RenameNames, OntoNames;
    NamesReady(prefix, oldName, newName, B);
    if AtOrBelow(KeyOf(prefix, newName), KeyOf(prefix, oldName)) {
      OntoFile(prefix, oldName, newName, B, B2, faulted, blind, err);
    } else {
      RenamedFile(prefix, order, oldName, newName, B, B2, faulted, blind, err);
    }
  }
}
