/**
 Rename of a directory to a place below it, by names of which only one starts at the root, so that the guard does
 not see it: for the entry that leads there Rename calls itself, and finds itself in the same place again.
 */
module S3Endless {
  import opened Data
  import opened GoPath
  import opened S3Keys
  import opened S3Client
  import opened S3Invariant
  import opened S3Moves
  import opened S3Status
  import opened S3Removal
  import opened S3Rename
  import opened S3Passes
  import opened S3Keeping
  import opened S3Calm
  import opened S3Renaming
  import opened S3Ways
  import opened S3Onto
  import opened S3Attempt
  import opened Tree
  import opened S3Tree
  import opened S3Refinement

  /** A directory is renamed to a place below it that the guard does not see and that is none of its entries; a
      directory leads there, and no file is on the way. */
  ghost predicate Chases(prefix: string, oldName: string, newName: string, B: Objects) {
    var K, N := KeyOf(prefix, oldName), KeyOf(prefix, newName);
    && RenameNames(prefix, oldName, newName, B) && Mixed(oldName, newName) && !Refused(oldName, newName)
    && Above(K, N) && Way(K, N) != N && WayThere(B, K, N)
    && (forall d :: AtOrBelow(K, d) && Above(d, N) ==> d !in B)
  }

  /** In the middle of the loop, before it comes to the way: the new holder is there, and no file is on the way. */
  ghost predicate OnWay(prefix: string, order: Order, oldName: string, newName: string, B: Objects, B1: Objects, i: nat)
    requires Parts(newName) != []
  {
    var K, N := KeyOf(prefix, oldName), KeyOf(prefix, newName);
    && Moving(prefix, order, oldName, newName, B, B1, i, false, false) && Above(K, N) && Holder(N) in B1
    && (forall d :: AtOrBelow(Way(K, N), d) && AtOrBelow(d, N) ==> d !in B1)
  }

  /** A chase in a well-kept bucket in which nothing is in the way: the target is absent and below a directory, and
      no name starts with another, but on the way. */
  ghost predicate Lost(prefix: string, oldName: string, newName: string, B: Objects) {
    && Chases(prefix, oldName, newName, B)
    && WellKept(BaseKey(prefix), B) && Whole(B, KeyOf(prefix, oldName))
    && IsDir(BaseKey(prefix), B, ParentKey(prefix, newName)) && !Seen(B, KeyOf(prefix, newName))
    && Calm(B, KeyOf(prefix, oldName), KeyOf(prefix, newName))
  }

  // ---------------------------------------------------------------- where the way is

  /** The way is a child of K at or above N; if it is not N, it is above it. */
  lemma WayIs(prefix: string, oldName: string, newName: string, B: Objects)
    requires Chases(prefix, oldName, newName, B)
    ensures var K, N := KeyOf(prefix, oldName), KeyOf(prefix, newName); var w := Seg(K, N);
      && K != "" && N != "" && AtOrBelow(BaseKey(prefix), K) && ValidName(w) && Way(K, N) == Child(K, w)
      && Above(Way(K, N), N) && AtOrBelow(K, Way(K, N)) && Way(K, N) !in B && K !in B && !AtOrBelow(N, K)
      && PrefixOk(prefix) && NameOk(prefix, oldName) && NameOk(prefix, newName) && Parts(newName) != []
      && ValidKeys(BaseKey(prefix), B)
  {
    hide KeyOf, NameOk, PrefixOk, Parts, BaseKey, ValidKeys, Seg, Child, WayThere, Refused, Mixed, KeyOk;
    var K, N := KeyOf(prefix, oldName), KeyOf(prefix, newName);
    NameInside(prefix, oldName);
    NameInside(prefix, newName);
    NameKeyOk(prefix, newName);
    SegValid(BaseKey(prefix), K, N);
    WayLeads(K, N);
    AboveChild(K, K, Seg(K, N));
    SelfBelow(K);
  }

  /** The loop comes to the way once, and it is a directory there. */
  lemma WayListed(prefix: string, order: Order, oldName: string, newName: string, B: Objects) returns (m: nat)
    requires Chases(prefix, oldName, newName, B)
    ensures var K, N := KeyOf(prefix, oldName), KeyOf(prefix, newName);
      && m < |Read(order, B, K)| && Read(order, B, K)[m] == DirInfo(Seg(K, N))
      && (forall i :: 0 <= i < |Read(order, B, K)| && i != m ==> Read(order, B, K)[i].name != Seg(K, N))
  {
    hide KeyOf, NameOk, PrefixOk, Parts, BaseKey, ValidKeys, Seg, Child, Read, Children, Above, AtOrBelow;
    var K, N, base := KeyOf(prefix, oldName), KeyOf(prefix, newName), BaseKey(prefix);
    WayIs(prefix, oldName, newName, B);
    ReadLists(base, order, B, K);
    var k :| k in B && Above(Way(K, N), k);
    ListedDir(B, K, Seg(K, N), k);
    m :| 0 <= m < |Read(order, B, K)| && Read(order, B, K)[m] == DirInfo(Seg(K, N));
    forall i | 0 <= i < |Read(order, B, K)| && i != m ensures Read(order, B, K)[i].name != Seg(K, N) {
      if Read(order, B, K)[i].name == Seg(K, N) {
        TwoKinds(base, B, K, Read(order, B, K), i, m);
      }
    }
  }

  // ---------------------------------------------------------------- the entries before the way

  lemma OnWayStarts(prefix: string, order: Order, oldName: string, newName: string, B: Objects)
    requires Chases(prefix, oldName, newName, B) && Makes(prefix, oldName, newName, B)
    ensures Parts(newName) != []
    ensures OnWay(prefix, order, oldName, newName, B, B[Holder(KeyOf(prefix, newName)) := []], 0)
  {
    hide KeyOf, NameOk, PrefixOk, Parts, BaseKey, ValidKeys, Seg, Read, Above, AtOrBelow, Moving, Seen, WayThere;
    var K, N := KeyOf(prefix, oldName), KeyOf(prefix, newName);
    WayIs(prefix, oldName, newName, B);
    MakesIs(prefix, oldName, newName, B);
    MadeHere(prefix, newName, B);
    MovingStarts(prefix, order, oldName, newName, B, B[Holder(N) := []], false, false);
    forall d | AtOrBelow(Way(K, N), d) && AtOrBelow(d, N) ensures d !in B[Holder(N) := []] {
      AboveTransitive(K, Way(K, N), d);
      HolderNotAbove(d, N);
      InSeen(B, N);
      AtOrAbove(d, N);
    }
  }

  lemma AtOrAbove(d: string, N: string)
    requires AtOrBelow(d, N)
    ensures d == N || Above(d, N)
  {
  }

  /** No holder is at or above its directory. */
  lemma HolderNotAbove(d: string, N: string)
    requires AtOrBelow(d, N)
    ensures d != Holder(N)
  {
    HolderIsChild(N);
  }

  lemma MadeHere(prefix: string, newName: string, B: Objects)
    requires Parts(newName) != [] && MkdirError(prefix, newName, B).None?
    ensures MadeDir(prefix, newName, B, B[Holder(KeyOf(prefix, newName)) := []], false, false, None)
    ensures !Seen(B, KeyOf(prefix, newName))
  {
    hide Parts, KeyOf;
  }

  /** The call for an entry that does not lead to the new place ends; after it the loop is still on the way. */
  lemma OnWayNext(prefix: string, order: Order, oldName: string, newName: string, B: Objects, B1: Objects, i: nat)
    returns (o: Outcome)
    requires Chases(prefix, oldName, newName, B) && Parts(newName) != []
    requires OnWay(prefix, order, oldName, newName, B, B1, i) && i < |Read(order, B, KeyOf(prefix, oldName))|
    requires Read(order, B, KeyOf(prefix, oldName))[i].name != Seg(KeyOf(prefix, oldName), KeyOf(prefix, newName))
    ensures var x := Read(order, B, KeyOf(prefix, oldName))[i].name;
      Tried(prefix, order, PathJoin(oldName, x), PathJoin(newName, x), B1, o)
    ensures o.err.None? ==> OnWay(prefix, order, oldName, newName, B, o.objects, i + 1)
    ensures Sure(oldName, newName, B, KeyOf(prefix, oldName), KeyOf(prefix, newName)) ==>
      (o.err.None? <==> EntryGoes(order, B, KeyOf(prefix, oldName), KeyOf(prefix, newName), i))
  {
    hide KeyOf, NameOk, PrefixOk, Parts, BaseKey, ValidKeys, Seg, Read, Children, Above, AtOrBelow, Moving, WayThere,
      Refused, Mixed, PathJoin, Child, Renamed, Tall, Disjoint, Bounded, Sure, EntryGoes;
    var K, N, base := KeyOf(prefix, oldName), KeyOf(prefix, newName), BaseKey(prefix);
    var x := Read(order, B, K)[i].name;
    var full, dest := PathJoin(oldName, x), PathJoin(newName, x);
    WayIs(prefix, oldName, newName, B);
    MovingFacts(prefix, order, oldName, newName, B, B1, i, false, false);
    ReadLists(base, order, B, K);
    var e := Read(order, B, K)[i];
    assert e in Read(order, B, K) by { hide *; }
    ListsMember(Read(order, B, K), Children(B, K), e);
    EntryNames(prefix, order, oldName, newName, B, B1, e);
    if AtOrBelow(Child(K, x), N) {
      LeadsIsWay(K, N, x);
    }
    NotAboveEntry(K, N, x);
    EntryDone(prefix, full, dest, B1);
    o := Ending(prefix, order, full, dest, B1);
    DoneRenamed(prefix, order, full, dest, B1, o.objects, o.err);
    MovingEntry(prefix, order, oldName, newName, B, B1, o.objects, i, false, false, false, false, o.err);
    if Sure(oldName, newName, B, K, N) {
      MovingEntryExact(prefix, order, oldName, newName, B, B1, o.objects, i, o.err);
    }
    if o.err.None? {
      RenamedFrames(prefix, order, full, dest, B1, o.objects, o.err);
      WayClear(B1, o.objects, K, N, x);
      HolderKept(prefix, order, full, dest, B1, o.objects, K, N, x);
    }
  }

  lemma EntryDone(prefix: string, full: string, dest: string, B1: Objects)
    requires RenameNames(prefix, full, dest, B1) && !Above(KeyOf(prefix, full), KeyOf(prefix, dest))
    ensures Renameable(prefix, full, dest, B1)
  {
    hide KeyOf, Parts, Refused;
    NotAboveBounded(full, dest, B1, KeyOf(prefix, full), KeyOf(prefix, dest));
  }

  lemma DoneRenamed(prefix: string, order: Order, full: string, dest: string, B1: Objects, B2: Objects,
                    e: Option<Error>)
    requires RenameNames(prefix, full, dest, B1) && !Refused(full, dest)
    requires RenameDone(prefix, order, full, dest, B1, B2, false, false, e)
    ensures Parts(dest) != [] && Renamed(prefix, order, full, dest, B1, B2, false, false, e)
  {
    hide KeyOf, Parts, Refused, Renamed;
  }

  lemma RenamedFrames(prefix: string, order: Order, full: string, dest: string, B1: Objects, B2: Objects,
                      e: Option<Error>)
    requires Parts(dest) != [] && Renamed(prefix, order, full, dest, B1, B2, false, false, e)
    ensures Framed(B1, B2, KeyOf(prefix, full), KeyOf(prefix, dest))
  {
    hide KeyOf, Parts;
  }

  /** No file comes to be on the way. */
  lemma WayClear(B1: Objects, B2: Objects, K: string, N: string, x: string)
    requires Above(K, N) && Framed(B1, B2, Child(K, x), Child(N, x)) && !AtOrBelow(Child(K, x), N) && ValidName(x)
    requires N != ""
    requires forall d :: AtOrBelow(Way(K, N), d) && AtOrBelow(d, N) ==> d !in B1
    ensures forall d :: AtOrBelow(Way(K, N), d) && AtOrBelow(d, N) ==> d !in B2
  {
    hide Child, Way, AtOrBelow;
    forall d | AtOrBelow(Way(K, N), d) && AtOrBelow(d, N) ensures d !in B2 {
      if AtOrBelow(Child(K, x), d) { AboveTransitive(Child(K, x), d, N); }
      if AtOrBelow(Child(N, x), d) {
        AboveTransitive(Child(N, x), d, N);
        AboveChild(N, N, x);
        NotBelowAbove(N, Child(N, x));
      }
      GetIn(B1, d);
      GetIn(B2, d);
      assert Get(B2, d) == Get(B1, d);
    }
  }

  /** The holder at the new place stays. */
  lemma HolderKept(prefix: string, order: Order, full: string, dest: string, B1: Objects, B2: Objects, K: string,
                   N: string, x: string)
    requires RenameNames(prefix, full, dest, B1) && Parts(dest) != [] && full != "."
    requires KeyOf(prefix, full) == Child(K, x) && KeyOf(prefix, dest) == Child(N, x) && ValidName(x)
    requires Renamed(prefix, order, full, dest, B1, B2, false, false, None) && Holder(N) in B1
    requires Disjoint(Child(K, x), N) && K != "" && N != "" && Above(K, N) && Way(K, N) != N && !AtOrBelow(N, K)
    ensures Holder(N) in B2
  {
    hide *;
    RenamedFrames(prefix, order, full, dest, B1, B2, None);
    if x != DIR_HOLDER {
      BesideHolder(B1, B2, K, N, x);
    } else {
      HoldersDiffer(K, N);
      HolderIsChild(K);
      HolderIsChild(N);
      InSeen(B1, Holder(N));
      OntoHolder(prefix, order, full, dest, B1, B2);
    }
  }

  lemma BesideHolder(B1: Objects, B2: Objects, K: string, N: string, x: string)
    requires Framed(B1, B2, Child(K, x), Child(N, x)) && ValidName(x) && x != DIR_HOLDER && Disjoint(Child(K, x), N)
    requires Holder(N) in B1
    ensures Holder(N) in B2
  {
    hide Seg, Child, Disjoint, ValidName;
    NameNotEmpty(x);
    HolderSeg(N);
    SegIsChild(N, x, Holder(N));
    HolderIsChild(N);
    DisjointSwaps(Child(K, x), N);
    ApartSides(N, Child(K, x), Holder(N));
    GetIn(B1, Holder(N));
    GetIn(B2, Holder(N));
  }

  /** A call that answers nil, for a target that is there, has moved a file over it. */
  lemma OntoHolder(prefix: string, order: Order, full: string, dest: string, B1: Objects, B2: Objects)
    requires Parts(dest) != [] && Renamed(prefix, order, full, dest, B1, B2, false, false, None) && full != "."
    requires KeyOf(prefix, full) != KeyOf(prefix, dest) && KeyOf(prefix, dest) in B1
    requires Seen(B1, KeyOf(prefix, dest))
    ensures KeyOf(prefix, dest) in B2
  {
    hide KeyOf, Parts, Seen, Goes, Sure, Trusted, Conserved, Framed, Shallow, Tidy, IsAllMoved, FilesKept, ParentSeen,
      ValidKeys, WellKept, Holder, Above, Mixed, Occupied;
  }

  /** All can be said about such a move, and before the way every entry goes. */
  lemma LostSure(prefix: string, oldName: string, newName: string, B: Objects)
    requires Lost(prefix, oldName, newName, B)
    ensures Sure(oldName, newName, B, KeyOf(prefix, oldName), KeyOf(prefix, newName))
    ensures Movable(B, KeyOf(prefix, oldName), KeyOf(prefix, newName)) && KeyOf(prefix, oldName) !in B
  {
    hide KeyOf, NameOk, PrefixOk, Parts, BaseKey, ValidKeys, Seg, Calm, WellKept, IsDir, Whole, Way, Refused, Mixed;
    var K, N := KeyOf(prefix, oldName), KeyOf(prefix, newName);
    WayIs(prefix, oldName, newName, B);
    forall k | k in B ensures !AtOrBelow(N, k) {
      if AtOrBelow(N, k) { SeenBy(B, N, k); }
    }
    var k :| k in B && Above(Way(K, N), k);
    AboveTransitive(K, Way(K, N), k);
    assert Occupied(B, K);
    if N == Holder(K) {
      HolderSeg(K);
    }
  }

  lemma LostGoes(prefix: string, order: Order, oldName: string, newName: string, B: Objects, m: nat, i: nat)
    requires Lost(prefix, oldName, newName, B) && i < m < |Read(order, B, KeyOf(prefix, oldName))|
    requires forall j :: 0 <= j < m ==>
      Read(order, B, KeyOf(prefix, oldName))[j].name != Seg(KeyOf(prefix, oldName), KeyOf(prefix, newName))
    ensures Sure(oldName, newName, B, KeyOf(prefix, oldName), KeyOf(prefix, newName))
    ensures EntryGoes(order, B, KeyOf(prefix, oldName), KeyOf(prefix, newName), i)
  {
    hide KeyOf, NameOk, PrefixOk, Parts, BaseKey, ValidKeys, Seg, Calm, WellKept, IsDir, Whole, Refused, Mixed, Read,
      EntryGoes, WayThere, Above, AtOrBelow, Sure, Movable;
    var K, N := KeyOf(prefix, oldName), KeyOf(prefix, newName);
    WayIs(prefix, oldName, newName, B);
    LostSure(prefix, oldName, newName, B);
    SourceProper(prefix, oldName);
    AboveAtOrBelow(Way(K, N), N);
    CalmGoes(BaseKey(prefix), order, B, K, N, m, i);
  }

  /** What becomes of the entries before the way: one of them answers an error, or the loop comes to the way. */
  lemma {:induction false} BeforeWay(prefix: string, order: Order, oldName: string, newName: string, B: Objects,
                                     m: nat, i: nat)
    returns (o: Outcome)
    requires Chases(prefix, oldName, newName, B) && Makes(prefix, oldName, newName, B)
    requires var infos := Read(order, B, KeyOf(prefix, oldName));
      && i <= m < |infos|
      && forall j :: 0 <= j < m ==> infos[j].name != Seg(KeyOf(prefix, oldName), KeyOf(prefix, newName))
    ensures TriedSome(prefix, order, oldName, newName, B, i, o) && Parts(newName) != []
    ensures o.err.None? ==> OnWay(prefix, order, oldName, newName, B, o.objects, i)
    ensures Lost(prefix, oldName, newName, B) ==> o.err.None?
    decreases i
  {
    hide *;
    MakesIs(prefix, oldName, newName, B);
    if i == 0 {
      o := Outcome(B[Holder(KeyOf(prefix, newName)) := []], None);
      TriedStarts(prefix, order, oldName, newName, B);
      OnWayStarts(prefix, order, oldName, newName, B);
    } else {
      var o1 := BeforeWay(prefix, order, oldName, newName, B, m, i - 1);
      if o1.err.Some? {
        o := o1;
        TriedBroken(prefix, order, oldName, newName, B, i - 1, i, o);
      } else {
        o := OnWayNext(prefix, order, oldName, newName, B, o1.objects, i - 1);
        if Lost(prefix, oldName, newName, B) {
          LostGoes(prefix, order, oldName, newName, B, m, i - 1);
        }
        assert o1 == Outcome(o1.objects, None);
        TriedEntry(prefix, order, oldName, newName, B, i - 1, o1.objects, o);
      }
    }
  }

  // ---------------------------------------------------------------- the call for the way

  /** One entry further, the way has become longer by one name at its end. */
  lemma LongerWay(K: string, N: string)
    requires K != "" && N != "" && Above(K, N) && Way(K, N) != N && ValidName(Seg(K, N)) && Above(Way(K, N), N)
    requires ValidName(Seg(Way(K, N), N))
    ensures var w := Seg(K, N); var c, n := Child(K, w), Child(N, w);
      && Above(c, n) && Seg(c, n) == Seg(c, N) && Way(c, n) != n && AtOrBelow(Way(c, n), N)
  {
    hide Seg, Child, Above, AtOrBelow;
    var w := Seg(K, N);
    var c, n := Child(K, w), Child(N, w);
    NameNotEmpty(w);
    NameNotEmpty(Seg(c, N));
    AboveChild(c, N, w);
    AboveAtOrBelow(c, N);
    SegIsChild(c, Seg(c, N), N);
    AboveChild(N, N, w);
    ChildLonger(N, w);
    AboveTransitive(Child(c, Seg(c, N)), N, n);
    SegIsChild(c, Seg(c, N), n);
    if Way(c, n) == n {
      NotBelowAbove(N, n);
    }
  }

  /** For the way Rename calls itself in the same situation. */
  lemma ChasesOn(prefix: string, order: Order, oldName: string, newName: string, B: Objects, B1: Objects, m: nat)
    requires Chases(prefix, oldName, newName, B) && Parts(newName) != []
    requires OnWay(prefix, order, oldName, newName, B, B1, m) && m < |Read(order, B, KeyOf(prefix, oldName))|
    requires Read(order, B, KeyOf(prefix, oldName))[m] == DirInfo(Seg(KeyOf(prefix, oldName), KeyOf(prefix, newName)))
    ensures var K, N, w := KeyOf(prefix, oldName), KeyOf(prefix, newName),
      Seg(KeyOf(prefix, oldName), KeyOf(prefix, newName));
      var full, dest := PathJoin(oldName, w), PathJoin(newName, w);
      && Chases(prefix, full, dest, B1) && KeyOf(prefix, full) == Child(K, w) && KeyOf(prefix, dest) == Child(N, w)
      && Parts(dest) != [] && ParentKey(prefix, dest) == N && |Parts(dest)| > 1
  {
    hide KeyOf, NameOk, PrefixOk, Parts, BaseKey, ValidKeys, Seg, Read, Children, Above, AtOrBelow, Moving, WayThere,
      Refused, Mixed, PathJoin, Child, Tall, Disjoint, ParentKey, KeyOk, Way;
    var K, N, base, w := KeyOf(prefix, oldName), KeyOf(prefix, newName), BaseKey(prefix),
      Seg(KeyOf(prefix, oldName), KeyOf(prefix, newName));
    WayIs(prefix, oldName, newName, B);
    MovingFacts(prefix, order, oldName, newName, B, B1, m, false, false);
    ReadLists(base, order, B, K);
    var e := Read(order, B, K)[m];
    assert e in Read(order, B, K) by { hide *; }
    ListsMember(Read(order, B, K), Children(B, K), e);
    EntryNames(prefix, order, oldName, newName, B, B1, e);
    var c, n := Child(K, w), Child(N, w);
    NameKeyOk(prefix, newName);
    NameInside(prefix, oldName);
    AboveTransitive(base, K, c);
    SegValid(base, c, N);
    LongerWay(K, N);
    WayHeld(B1, c, N, n);
    forall d | AtOrBelow(c, d) && Above(d, n) ensures d !in B1 {
      AboveChild(d, N, w);
    }
  }

  lemma WayHeld(B1: Objects, c: string, N: string, n: string)
    requires Above(c, n) && AtOrBelow(Way(c, n), N) && Holder(N) in B1
    ensures WayThere(B1, c, n)
  {
    HolderIsChild(N);
    AboveTransitive(Way(c, n), N, Holder(N));
    assert Above(Way(c, n), Holder(N));
  }

  /** The call comes to the way in B1. */
  ghost predicate AtTurn(prefix: string, order: Order, oldName: string, newName: string, B: Objects, B1: Objects,
                         m: nat)
    requires Parts(newName) != []
  {
    var K, N := KeyOf(prefix, oldName), KeyOf(prefix, newName);
    && m < |Read(order, B, K)| && Above(K, N) && Read(order, B, K)[m] == DirInfo(Seg(K, N))
    && TriedSome(prefix, order, oldName, newName, B, m, Outcome(B1, None))
    && OnWay(prefix, order, oldName, newName, B, B1, m)
  }

  /** A call that chases its target and ends without an error up to there has made the call for the way. */
  lemma WayTried(prefix: string, order: Order, oldName: string, newName: string, B: Objects, n: nat)
    returns (m: nat, o: Outcome)
    requires Chases(prefix, oldName, newName, B) && Makes(prefix, oldName, newName, B) && n > 0
    requires AttemptSome(prefix, order, oldName, newName, B, |Read(order, B, KeyOf(prefix, oldName))|, n).Some?
    ensures Parts(newName) != []
    ensures Lost(prefix, oldName, newName, B) ==> o.err.None?
    ensures o.err.Some? ==>
      AttemptSome(prefix, order, oldName, newName, B, |Read(order, B, KeyOf(prefix, oldName))|, n) == Some(o)
    ensures o.err.None? ==>
      var w := Seg(KeyOf(prefix, oldName), KeyOf(prefix, newName));
      var next := Attempt(prefix, order, PathJoin(oldName, w), PathJoin(newName, w), o.objects, n - 1);
      && AtTurn(prefix, order, oldName, newName, B, o.objects, m) && next.Some?
      && (forall j :: 0 <= j < m ==> Read(order, B, KeyOf(prefix, oldName))[j].name != w)
      && (next.value.err.Some? ==>
            AttemptSome(prefix, order, oldName, newName, B, |Read(order, B, KeyOf(prefix, oldName))|, n) == next)
  {
    hide *;
    var infos := Read(order, B, KeyOf(prefix, oldName));
    m := WayListed(prefix, order, oldName, newName, B);
    o := BeforeWay(prefix, order, oldName, newName, B, m, m);
    Reached(prefix, order, oldName, newName, B, m + 1, |infos|, n);
    Reached(prefix, order, oldName, newName, B, m, m + 1, n);
    var o1 := AttemptSome(prefix, order, oldName, newName, B, m, n).value;
    TriedSomeIs(prefix, order, oldName, newName, B, m, n);
    TriedSomeOnce(prefix, order, oldName, newName, B, m, o, o1);
    if o.err.None? {
      SomeStep(prefix, order, oldName, newName, B, m, n);
      AtTurnIs(prefix, order, oldName, newName, B, o.objects, m) by { assert o == Outcome(o.objects, None); }
    }
  }

  lemma AtTurnIs(prefix: string, order: Order, oldName: string, newName: string, B: Objects, B1: Objects, m: nat)
    requires Parts(newName) != [] && Chases(prefix, oldName, newName, B)
    requires var K, N := KeyOf(prefix, oldName), KeyOf(prefix, newName);
      m < |Read(order, B, K)| && Read(order, B, K)[m] == DirInfo(Seg(K, N))
    requires TriedSome(prefix, order, oldName, newName, B, m, Outcome(B1, None))
    requires OnWay(prefix, order, oldName, newName, B, B1, m)
    ensures AtTurn(prefix, order, oldName, newName, B, B1, m)
  {
    hide KeyOf, Parts, Read, TriedSome, OnWay, Seg, RenameNames, Above;
  }

  /** Such a call never answers nil: it ends with an error, or not at all. */
  lemma {:induction false} NeverNil(prefix: string, order: Order, oldName: string, newName: string, B: Objects, n: nat)
    requires Chases(prefix, oldName, newName, B) && Attempt(prefix, order, oldName, newName, B, n).Some?
    ensures Attempt(prefix, order, oldName, newName, B, n).value.err.Some?
    decreases n
  {
    hide *;
    if !Makes(prefix, oldName, newName, B) {
      StopsWith(prefix, order, oldName, newName, B, n);
    } else {
      Loops(prefix, order, oldName, newName, B, n);
      var m, o := WayTried(prefix, order, oldName, newName, B, n);
      if o.err.None? {
        ChasesTurn(prefix, order, oldName, newName, B, o.objects, m);
        var w := Seg(KeyOf(prefix, oldName), KeyOf(prefix, newName));
        NeverNil(prefix, order, PathJoin(oldName, w), PathJoin(newName, w), o.objects, n - 1);
      }
    }
  }

  lemma ChasesTurn(prefix: string, order: Order, oldName: string, newName: string, B: Objects, B1: Objects, m: nat)
    requires Chases(prefix, oldName, newName, B) && Parts(newName) != []
    requires AtTurn(prefix, order, oldName, newName, B, B1, m)
    ensures Above(KeyOf(prefix, oldName), KeyOf(prefix, newName))
    ensures var w := Seg(KeyOf(prefix, oldName), KeyOf(prefix, newName));
      Chases(prefix, PathJoin(oldName, w), PathJoin(newName, w), B1)
  {
    hide KeyOf, Parts, Read, TriedSome, OnWay, Seg, Chases, Above, PathJoin;
    ChasesOn(prefix, order, oldName, newName, B, B1, m);
  }

  /** A call that chases its target and comes to make its directory ends exactly if an entry before the way fails, or
      the call for the way ends, which again chases its target. */
  lemma ChaseStep(prefix: string, order: Order, oldName: string, newName: string,
                  B: Objects) returns (m: nat, o: Outcome)
    requires Chases(prefix, oldName, newName, B) && Makes(prefix, oldName, newName, B)
    ensures m < |Read(order, B, KeyOf(prefix, oldName))| && TriedSome(prefix, order, oldName, newName, B, m, o)
    ensures Above(KeyOf(prefix, oldName), KeyOf(prefix, newName))
    ensures var w := Seg(KeyOf(prefix, oldName), KeyOf(prefix, newName));
      && Read(order, B, KeyOf(prefix, oldName))[m] == DirInfo(w)
      && (o.err.Some? ==> Ends(prefix, order, oldName, newName, B))
      && (o.err.None? ==>
            && Chases(prefix, PathJoin(oldName, w), PathJoin(newName, w), o.objects)
            && (Ends(prefix, order, oldName, newName, B) <==>
                  Ends(prefix, order, PathJoin(oldName, w), PathJoin(newName, w), o.objects)))
  {
    hide *;
    m := WayListed(prefix, order, oldName, newName, B);
    o := BeforeWay(prefix, order, oldName, newName, B, m, m);
    ChaseAbove(prefix, oldName, newName, B);
    if o.err.Some? {
      BrokenEnds(prefix, order, oldName, newName, B, m, o);
    } else {
      assert o == Outcome(o.objects, None);
      AtTurnIs(prefix, order, oldName, newName, B, o.objects, m);
      ChasesTurn(prefix, order, oldName, newName, B, o.objects, m);
      var w := Seg(KeyOf(prefix, oldName), KeyOf(prefix, newName));
      if Ends(prefix, order, oldName, newName, B) {
        EndsTurn(prefix, order, oldName, newName, B, o.objects, m);
      }
      if Ends(prefix, order, PathJoin(oldName, w), PathJoin(newName, w), o.objects) {
        TurnEnds(prefix, order, oldName, newName, B, o.objects, m);
      }
    }
  }

  lemma BrokenEnds(prefix: string, order: Order, oldName: string, newName: string, B: Objects, i: nat, o: Outcome)
    requires Makes(prefix, oldName, newName, B) && i <= |Read(order, B, KeyOf(prefix, oldName))| && o.err.Some?
    requires TriedSome(prefix, order, oldName, newName, B, i, o)
    ensures Ends(prefix, order, oldName, newName, B)
  {
    hide KeyOf, Read, Makes, TriedSome, Tried;
    TriedBroken(prefix, order, oldName, newName, B, i, |Read(order, B, KeyOf(prefix, oldName))|, o);
    TriedEnds(prefix, order, oldName, newName, B, o);
  }

  lemma EndsTurn(prefix: string, order: Order, oldName: string, newName: string, B: Objects, B1: Objects, m: nat)
    requires Chases(prefix, oldName, newName, B) && Makes(prefix, oldName, newName, B) && Parts(newName) != []
    requires AtTurn(prefix, order, oldName, newName, B, B1, m) && Ends(prefix, order, oldName, newName, B)
    ensures Above(KeyOf(prefix, oldName), KeyOf(prefix, newName))
    ensures var w := Seg(KeyOf(prefix, oldName), KeyOf(prefix, newName));
      Ends(prefix, order, PathJoin(oldName, w), PathJoin(newName, w), B1)
  {
    hide KeyOf, Read, Makes, TriedSome, Attempt, AttemptSome, Chases, OnWay, Parts, PathJoin, Seg, Above;
    ChaseAbove(prefix, oldName, newName, B);
    var o :| Tried(prefix, order, oldName, newName, B, o);
    var n: nat :| Attempt(prefix, order, oldName, newName, B, n) == Some(o);
    Loops(prefix, order, oldName, newName, B, n);
    Reached(prefix, order, oldName, newName, B, m + 1, |Read(order, B, KeyOf(prefix, oldName))|, n);
    Reached(prefix, order, oldName, newName, B, m, m + 1, n);
    TriedSomeIs(prefix, order, oldName, newName, B, m, n);
    TriedSomeOnce(prefix, order, oldName, newName, B, m, Outcome(B1, None),
                  AttemptSome(prefix, order, oldName, newName, B, m, n).value);
    SomeStep(prefix, order, oldName, newName, B, m, n);
    var w := Seg(KeyOf(prefix, oldName), KeyOf(prefix, newName));
    var next := Attempt(prefix, order, PathJoin(oldName, w), PathJoin(newName, w), B1, n - 1);
    assert Tried(prefix, order, PathJoin(oldName, w), PathJoin(newName, w), B1, next.value);
  }

  lemma TurnEnds(prefix: string, order: Order, oldName: string, newName: string, B: Objects, B1: Objects, m: nat)
    requires Chases(prefix, oldName, newName, B) && Makes(prefix, oldName, newName, B) && Parts(newName) != []
    requires AtTurn(prefix, order, oldName, newName, B, B1, m)
    requires var w := Seg(KeyOf(prefix, oldName), KeyOf(prefix, newName));
      Ends(prefix, order, PathJoin(oldName, w), PathJoin(newName, w), B1)
    ensures Ends(prefix, order, oldName, newName, B)
  {
    hide KeyOf, Read, Makes, TriedSome, Attempt, AttemptSome, Chases, OnWay, Parts, PathJoin, Seg, Above;
    ChaseAbove(prefix, oldName, newName, B);
    ChasesTurn(prefix, order, oldName, newName, B, B1, m);
    var w := Seg(KeyOf(prefix, oldName), KeyOf(prefix, newName));
    var o :| Tried(prefix, order, PathJoin(oldName, w), PathJoin(newName, w), B1, o);
    var n: nat :| Attempt(prefix, order, PathJoin(oldName, w), PathJoin(newName, w), B1, n) == Some(o);
    NeverNil(prefix, order, PathJoin(oldName, w), PathJoin(newName, w), B1, n);
    TriedEntry(prefix, order, oldName, newName, B, m, B1, o);
    BrokenEnds(prefix, order, oldName, newName, B, m + 1, o);
  }

  /** A chase that does not come to make its directory stops with an error. */
  lemma StopsWith(prefix: string, order: Order, oldName: string, newName: string, B: Objects, n: nat)
    requires Chases(prefix, oldName, newName, B) && !Makes(prefix, oldName, newName, B)
    ensures Attempt(prefix, order, oldName, newName, B, n).Some?
    ensures Attempt(prefix, order, oldName, newName, B, n).value.err.Some?
  {
    hide KeyOf, Parts, Read, Seen, MkdirError, Above, AtOrBelow, WayThere, PrefixOk, NameOk, ValidKeys, Holder;
    WayIs(prefix, oldName, newName, B);
    RefusedIs(oldName, newName);
  }

  // ---------------------------------------------------------------- it never ends

  lemma LostMakes(prefix: string, oldName: string, newName: string, B: Objects)
    requires Lost(prefix, oldName, newName, B)
    ensures Makes(prefix, oldName, newName, B)
  {
    hide KeyOf, NameOk, PrefixOk, Parts, BaseKey, ValidKeys, Seg, Calm, WellKept, Whole, Refused, Mixed, Holder,
      ParentKey;
    var K, N, P := KeyOf(prefix, oldName), KeyOf(prefix, newName), ParentKey(prefix, newName);
    WayIs(prefix, oldName, newName, B);
    LostSure(prefix, oldName, newName, B);
    PresentSeen(B, K);
    NameParent(prefix, newName);
    if |Parts(newName)| > 1 {
      HolderStarts(P);
      SeenBy(B, P, Holder(P));
    }
  }

  lemma HolderStarts(P: string)
    ensures P <= Holder(P)
  {
  }

  /** The directory of the new place has its holder. */
  lemma LostParent(prefix: string, oldName: string, newName: string, B: Objects)
    requires Lost(prefix, oldName, newName, B)
    ensures Parts(newName) != [] && Holder(ParentKey(prefix, newName)) in B
  {
    hide KeyOf, NameOk, PrefixOk, Parts, ValidKeys, Seg, Calm, WellKept, Whole, Refused, Mixed, Holder, ParentKey,
      Way, Child;
    WayIs(prefix, oldName, newName, B);
    NameParent(prefix, newName);
    ParentOnWay(BaseKey(prefix), KeyOf(prefix, oldName), KeyOf(prefix, newName), ParentKey(prefix, newName),
                Parts(newName)[|Parts(newName)| - 1]);
  }

  lemma ParentOnWay(base: string, K: string, N: string, P: string, z: string)
    requires Above(K, N) && ValidName(Seg(K, N)) && Above(Way(K, N), N) && N == Child(P, z) && ValidName(z)
    requires AtOrBelow(base, K) && K != ""
    ensures AtOrBelow(Way(K, N), P) && P != base
  {
    hide Seg, Child;
    var c := Child(K, Seg(K, N));
    AboveChild(c, P, z);
    AboveChild(K, K, Seg(K, N));
    if AtOrBelow(c, base) {
      AboveTransitive(c, base, K);
      NotBelowAbove(K, c);
    }
  }

  /** The bucket as the loop has left it when it comes to the way. */
  lemma LostMoved(prefix: string, order: Order, oldName: string, newName: string, B: Objects, B1: Objects, m: nat)
    requires Lost(prefix, oldName, newName, B) && Parts(newName) != []
    requires OnWay(prefix, order, oldName, newName, B, B1, m)
    ensures var K := KeyOf(prefix, oldName);
      && m <= |Read(order, B, K)| && WellKept(BaseKey(prefix), B1)
      && IsSomeMoved(B, B1, K, KeyOf(prefix, newName), Names(Read(order, B, K)[..m]))
  {
    hide KeyOf, NameOk, PrefixOk, Parts, BaseKey, ValidKeys, Seg, Calm, WellKept, Whole, Refused, Mixed, Holder,
      ParentKey, Framed, WayKept, Sure, Underway, IsSomeMoved, Seen, IsDir, Names, Chases, EntryGoes, ParentSeen;
    LostSure(prefix, oldName, newName, B);
  }

  lemma LostAside(prefix: string, order: Order, oldName: string, newName: string, B: Objects, B1: Objects, m: nat)
    requires Lost(prefix, oldName, newName, B) && Parts(newName) != []
    requires OnWay(prefix, order, oldName, newName, B, B1, m) && m < |Read(order, B, KeyOf(prefix, oldName))|
    requires forall j :: 0 <= j < m ==>
      Read(order, B, KeyOf(prefix, oldName))[j].name != Seg(KeyOf(prefix, oldName), KeyOf(prefix, newName))
    ensures var K, N, p := KeyOf(prefix, oldName), KeyOf(prefix, newName), Parts(newName);
      Aside(B, B1, K, N, Names(Read(order, B, K)[..m]), ParentKey(prefix, newName), p[|p| - 1])
  {
    hide KeyOf, NameOk, PrefixOk, Parts, BaseKey, ValidKeys, Seg, Calm, WellKept, Whole, Refused, Mixed, Holder,
      ParentKey, IsSomeMoved, Seen, IsDir, Chases, Read, OnWay, Above, AtOrBelow, Children, Child;
    var K, N, base := KeyOf(prefix, oldName), KeyOf(prefix, newName), BaseKey(prefix);
    var infos := Read(order, B, K);
    WayIs(prefix, oldName, newName, B);
    LostMoved(prefix, order, oldName, newName, B, B1, m);
    LostParent(prefix, oldName, newName, B);
    NameParent(prefix, newName);
    ReadLists(base, order, B, K);
    ChaseAbove(prefix, oldName, newName, B);
    forall x | x in Names(infos[..m]) ensures ValidName(x) && x != "" && x != Seg(K, N) {
      var e :| e in infos[..m] && e.name == x;
      var j :| 0 <= j < m && infos[..m][j] == e;
      assert infos[j] == e && e in infos;
      ListsMember(infos, Children(B, K), e);
      ChildEntry(base, B, K, e);
      NameNotEmpty(x);
    }
  }

  lemma ChaseAbove(prefix: string, oldName: string, newName: string, B: Objects)
    requires Chases(prefix, oldName, newName, B)
    ensures Above(KeyOf(prefix, oldName), KeyOf(prefix, newName))
  {
  }

  /** The next call is lost as well. */
  lemma LostOn(prefix: string, order: Order, oldName: string, newName: string, B: Objects, B1: Objects, m: nat)
    requires Lost(prefix, oldName, newName, B) && Parts(newName) != []
    requires AtTurn(prefix, order, oldName, newName, B, B1, m)
    requires forall j :: 0 <= j < m ==>
      Read(order, B, KeyOf(prefix, oldName))[j].name != Seg(KeyOf(prefix, oldName), KeyOf(prefix, newName))
    ensures Above(KeyOf(prefix, oldName), KeyOf(prefix, newName))
    ensures var w := Seg(KeyOf(prefix, oldName), KeyOf(prefix, newName));
      Lost(prefix, PathJoin(oldName, w), PathJoin(newName, w), B1)
  {
    hide KeyOf, NameOk, PrefixOk, Parts, BaseKey, ValidKeys, Seg, Calm, WellKept, Whole, Refused, Mixed, ParentKey,
      Aside, IsSomeMoved, Seen, Chases, Read, Above, AtOrBelow, Children, Child, PathJoin, Movable, Moving, Strict,
      TriedSome, Unblocked, Holder, Way;
    var K, N, base := KeyOf(prefix, oldName), KeyOf(prefix, newName), BaseKey(prefix);
    var infos, w, p := Read(order, B, K), Seg(K, N), Parts(newName);
    WayIs(prefix, oldName, newName, B);
    ChasesOn(prefix, order, oldName, newName, B, B1, m);
    LostSure(prefix, oldName, newName, B);
    LostMoved(prefix, order, oldName, newName, B, B1, m);
    LostAside(prefix, order, oldName, newName, B, B1, m);
    SourceProper(prefix, oldName);
    ReadLists(base, order, B, K);
    AboveAtOrBelow(Way(K, N), N);
    CalmUnblocked(base, B, K, N, infos, m, m);
    UnblockedIs(infos, m);
    EntrySeen(base, B, B1, K, N, infos, m, w);
    ProperChild(base, K, w);
    ChildInside(base, K, w);
    KeptWhole(base, B1, Child(K, w));
    WayChild(K, N);
    CalmNext(B, B1, K, N, Names(infos[..m]), ParentKey(prefix, newName), p[|p| - 1]);
  }

  lemma UnblockedIs(infos: seq<Info>, i: nat)
    requires i < |infos| && Unblocked(infos, i)
    ensures !(infos[i].name <= DIR_HOLDER) && forall j :: 0 <= j < i ==> !(infos[i].name <= infos[j].name)
  {
  }

  lemma ChildInside(base: string, K: string, w: string)
    requires AtOrBelow(base, K) && ValidName(w) && K != ""
    ensures Inside(base, Child(K, w)) && AtOrBelow(base, Child(K, w)) && Child(K, w) != ""
  {
    AboveChild(base, K, w);
    ChildLonger(K, w);
    AboveChild(K, K, w);
    if Child(K, w) == base { NotBelowAbove(K, base); }
  }

  /** However deep Rename calls itself, it has not ended. */
  lemma {:induction false} NeverEnds(prefix: string, order: Order, oldName: string, newName: string, B: Objects, n: nat)
    requires Lost(prefix, oldName, newName, B)
    ensures Attempt(prefix, order, oldName, newName, B, n).None?
    decreases n
  {
    hide *;
    LostIs(prefix, oldName, newName, B);
    LostMakes(prefix, oldName, newName, B);
    Loops(prefix, order, oldName, newName, B, n);
    if Attempt(prefix, order, oldName, newName, B, n).Some? {
      var m, o := WayTried(prefix, order, oldName, newName, B, n);
      LostOn(prefix, order, oldName, newName, B, o.objects, m);
      var w := Seg(KeyOf(prefix, oldName), KeyOf(prefix, newName));
      NeverEnds(prefix, order, PathJoin(oldName, w), PathJoin(newName, w), o.objects, n - 1);
    }
  }

  lemma LostIs(prefix: string, oldName: string, newName: string, B: Objects)
    requires Lost(prefix, oldName, newName, B)
    ensures Chases(prefix, oldName, newName, B)
  {
  }

  // ---------------------------------------------------------------- when it ends

  /** With a target below a directory, a call that comes to make its directory is lost, unless it is a direct child. */
  lemma LostFrom(prefix: string, oldName: string, newName: string, B: Objects)
    requires RenameNames(prefix, oldName, newName, B) && Mixed(oldName, newName) && !Refused(oldName, newName)
    requires var K, N := KeyOf(prefix, oldName), KeyOf(prefix, newName);
      && Above(K, N) && Way(K, N) != N && !Seen(B, N) && Whole(B, K) && ClearBelow(B, K) && K !in B
    requires WellKept(BaseKey(prefix), B) && IsDir(BaseKey(prefix), B, ParentKey(prefix, newName))
    ensures Lost(prefix, oldName, newName, B)
  {
    hide KeyOf, NameOk, PrefixOk, Parts, BaseKey, ValidKeys, Seg, Calm, WellKept, Refused, Mixed, ParentKey, Child,
      KeyOk, ClearBelow, Seen, Whole, Holder;
    var K, N, P, base := KeyOf(prefix, oldName), KeyOf(prefix, newName), ParentKey(prefix, newName), BaseKey(prefix);
    var p := Parts(newName);
    NameInside(prefix, oldName);
    NameParent(prefix, newName);
    NameKeyOk(prefix, newName);
    SegValid(base, K, N);
    WayLeads(K, N);
    ParentOnWay(base, K, N, P, p[|p| - 1]);
    HolderIsChild(P);
    AboveTransitive(Way(K, N), P, Holder(P));
    assert WayThere(B, K, N);
    forall d | AtOrBelow(K, d) && Above(d, N) ensures d !in B {
      NoFileOn(B, K, P, p[|p| - 1], d);
    }
    ClearCalm(B, K, N);
  }

  lemma NoFileOn(B: Objects, K: string, P: string, z: string, d: string)
    requires Whole(B, K) && K !in B && Holder(P) in B && ValidName(z) && AtOrBelow(K, d) && Above(d, Child(P, z))
    ensures d !in B
  {
    HolderIsChild(P);
    AboveChild(d, P, z);
    AboveChild(d, P, DIR_HOLDER);
  }

  lemma SeenEnds(prefix: string, order: Order, oldName: string, newName: string, B: Objects)
    requires Parts(newName) != [] && Seen(B, KeyOf(prefix, newName))
    ensures Ends(prefix, order, oldName, newName, B)
  {
    hide KeyOf, Parts, Refused, Ends;
    TriedAtOnce(prefix, order, oldName, newName, B);
  }

  lemma DirectEnds(prefix: string, order: Order, oldName: string, newName: string, B: Objects)
    requires RenameNames(prefix, oldName, newName, B) && !Refused(oldName, newName)
    requires var K, N := KeyOf(prefix, oldName), KeyOf(prefix, newName); Above(K, N) && Way(K, N) == N
    ensures Ends(prefix, order, oldName, newName, B)
  {
    hide KeyOf, Parts, Refused, RenameDone, Way, Tried;
    var o := Ending(prefix, order, oldName, newName, B);
    assert Tried(prefix, order, oldName, newName, B, o);
  }

  /** A directory is moved below itself, by names of which only one starts at the root, to a place in a directory.
      When no name below it starts with another, Rename ends if and only if the place is seen to be there already,
      or is one of the directory's own entries. */
  lemma EndsIff(prefix: string, order: Order, oldName: string, newName: string, B: Objects)
    requires PrefixOk(prefix) && NameOk(prefix, oldName) && NameOk(prefix, newName) && WellKept(BaseKey(prefix), B)
    requires Mixed(oldName, newName) && !Refused(oldName, newName)
    requires Parts(oldName) < Parts(newName) && UserPath(Parts(newName))
    requires if Parts(oldName) == [] then BareRoot(prefix, B) else UserPath(Parts(oldName))
    requires var t := TreeOf(prefix, B); HasDir(t, Parent(Parts(newName))) && TreeClear(t, Parts(oldName))
    ensures var t, p, q := TreeOf(prefix, B), Parts(oldName), Parts(newName);
      Ends(prefix, order, oldName, newName, B) <==> q in t || Shadowed(t, q) || |q| == |p| + 1
  {
    hide TreeOf, WellKept, Key, KeyOf, Parts, Above, HasSuffix, Mixed, Way, Refused, Shadowed, Seen, Whole, ClearBelow,
      AtOrBelow, Ends, Lost, TreeClear, BareRoot, UserPath, NameOk, BaseKey, ParentKey;
    var p, q, K, N := Parts(oldName), Parts(newName), KeyOf(prefix, oldName), KeyOf(prefix, newName);
    BelowNames(prefix, oldName, newName, B);
    SourceSeen(prefix, B, q);
    if Seen(B, N) {
      SeenEnds(prefix, order, oldName, newName, B);
    } else if Way(K, N) == N {
      DirectEnds(prefix, order, oldName, newName, B);
    } else {
      SourceWhole(prefix, B, p, q);
      ParentIsDir(prefix, B, q);
      LostFrom(prefix, oldName, newName, B);
      if Ends(prefix, order, oldName, newName, B) {
        NotLost(prefix, order, oldName, newName, B);
      }
    }
  }

  lemma NotLost(prefix: string, order: Order, oldName: string, newName: string, B: Objects)
    ensures Lost(prefix, oldName, newName, B) ==> !Ends(prefix, order, oldName, newName, B)
  {
    hide Lost, Attempt;
    if Lost(prefix, oldName, newName, B) && Ends(prefix, order, oldName, newName, B) {
      var o :| Tried(prefix, order, oldName, newName, B, o);
      var n: nat :| Attempt(prefix, order, oldName, newName, B, n) == Some(o);
      NeverEnds(prefix, order, oldName, newName, B, n);
    }
  }

  /** Paths below one another, as keys. */
  lemma BelowNames(prefix: string, oldName: string, newName: string, B: Objects)
    requires PrefixOk(prefix) && NameOk(prefix, oldName) && NameOk(prefix, newName) && WellKept(BaseKey(prefix), B)
    requires Parts(oldName) < Parts(newName) && !Refused(oldName, newName)
    ensures var p, q, K, N := Parts(oldName), Parts(newName), KeyOf(prefix, oldName), KeyOf(prefix, newName);
      && ValidPath(p) && ValidPath(q) && K == Key(prefix, p) && N == Key(prefix, q) && K != "" && Above(K, N)
      && RenameNames(prefix, oldName, newName, B) && ParentKey(prefix, newName) == Key(prefix, Parent(q))
      && (Way(K, N) == N <==> |q| == |p| + 1)
  {
    hide TreeOf, WellKept, Key, KeyOf, Parts, Above, Way, Refused, NameOk, BaseKey;
    var p, q, K, N := Parts(oldName), Parts(newName), KeyOf(prefix, oldName), KeyOf(prefix, newName);
    KeyOfName(prefix, oldName);
    KeyOfName(prefix, newName);
    PartsValid(oldName) by { NameOkIs(prefix, oldName); }
    PartsValid(newName) by { NameOkIs(prefix, newName); }
    SourceNotEmpty(prefix, oldName, newName);
    KeptKeys(BaseKey(prefix), B);
    WayKey(prefix, p, q);
    var r := q[..|p| + 1];
    ValidPrefix(r, q);
    KeyBelow(prefix, r, q);
    NotBelowAbove(K, N);
  }

  /** The file system is not at a key that is a file, and its root has no directory called as a holder. */
  ghost predicate BareRoot(prefix: string, B: Objects) {
    BaseKey(prefix) !in B && [DIR_HOLDER] !in TreeOf(prefix, B)
  }

  /** A directory of a well-kept bucket is whole. */
  lemma SourceWhole(prefix: string, B: Objects, p: Path, q: Path)
    requires PrefixOk(prefix) && ValidPath(p) && ValidPath(q) && p < q && WellKept(BaseKey(prefix), B)
    requires Key(prefix, p) != "" && (if p == [] then BareRoot(prefix, B) else UserPath(p))
    requires var t := TreeOf(prefix, B); HasDir(t, Parent(q)) && TreeClear(t, p)
    ensures var K := Key(prefix, p); Whole(B, K) && ClearBelow(B, K) && K !in B
  {
    hide TreeOf, WellKept, Key, Whole, ClearBelow, TreeClear, HasSuffix;
    var t := TreeOf(prefix, B);
    TreeClearBelow(prefix, B, p);
    if p == [] {
      RootKey(prefix);
      RootWhole(prefix, B);
    } else {
      TreeWellFormed(prefix, B);
      assert p == Parent(q) || p < Parent(q);
      if p < Parent(q) { DirAbove(t, p, Parent(q)); }
      KeyInside(prefix, p);
      KeptWhole(BaseKey(prefix), B, Key(prefix, p));
      TreeAt(prefix, B, p);
      HolderNotFile(prefix, B, p);
    }
  }

  lemma RootWhole(prefix: string, B: Objects)
    requires PrefixOk(prefix) && WellKept(BaseKey(prefix), B) && BareRoot(prefix, B) && BaseKey(prefix) != ""
    ensures Whole(B, BaseKey(prefix)) && Holder(BaseKey(prefix)) !in B
  {
    hide TreeOf, Key, HasSuffix, ValidKeys;
    var base := BaseKey(prefix);
    RootKey(prefix);
    HolderIsChild(base);
    if Holder(base) in B {
      var d :| Inside(base, d) && Holder(base) == Holder(d);
      HolderInjective(base, d);
    }
    forall k | k in B ensures !Above(Holder(base), k) {
      if Above(Holder(base), k) {
        SelfAtOrBelow(base);
        DirPath(prefix, B, [], Holder(base), k);
        HolderRest(base, Holder(base));
        SplitNoSlash(DIR_HOLDER);
      }
    }
    forall k, d | k in B && AtOrBelow(base, d) && Above(d, k)
      ensures d !in B && (d == base || Get(B, Holder(d)) == Some([]))
    {
      if d != base {
        HeldAt(base, B, k, d);
        HolderIsChild(d);
        AboveTransitive(base, d, Holder(d));
      }
    }
  }
}
