/**
 When no name gets in the way of a directory that is moved below itself: no directory below the source has a name
 that another starts with, but for names that both lie on the way to the new place. It stays so from call to call.
 */
module S3Calm {
  import opened Data
  import opened GoPath
  import opened S3Keys
  import opened S3Client
  import opened S3Invariant
  import opened S3Moves
  import opened S3Status
  import opened S3Removal
  import opened S3Rename
  import opened S3Passes
  import opened S3Renaming

  ghost predicate DirAt(B: Objects, c: string) {
    exists k :: k in B && Above(c, k)
  }

  /** k lies at or below a place on the way to N whose key starts with c. */
  ghost predicate Crosses(N: string, c: string, k: string) {
    exists d :: AtOrBelow(d, N) && AtOrBelow(d, k) && c <= d
  }

  ghost predicate Calm(B: Objects, K: string, N: string) {
    && (forall c, k :: Above(K, c) && DirAt(B, c) && k in B && c <= k ==> AtOrBelow(c, k) || Crosses(N, c, k))
    && (forall c :: Above(K, c) && DirAt(B, c) ==> !(c <= Holder(K)))
  }

  lemma ClearCalm(B: Objects, K: string, N: string)
    requires ClearBelow(B, K)
    ensures Calm(B, K, N)
  {
    hide Crosses, AtOrBelow;
    forall c, k | Above(K, c) && DirAt(B, c) && k in B && c <= k ensures AtOrBelow(c, k) || Crosses(N, c, k) {
      var j :| j in B && Above(c, j);
      assert Clear(B, c);
    }
  }

  lemma CalmAt(B: Objects, K: string, N: string, c: string, k: string)
    requires Calm(B, K, N) && Above(K, c) && DirAt(B, c)
    ensures k in B && c <= k ==> AtOrBelow(c, k) || Crosses(N, c, k)
    ensures !(c <= Holder(K))
  {
  }

  lemma DirBy(B: Objects, c: string, k: string)
    requires k in B && Above(c, k)
    ensures DirAt(B, c)
  {
  }

  /** Nothing of another entry than the way crosses it. */
  lemma NoCrossing(K: string, N: string, w: string, y: string, c: string, k: string)
    requires K != "" && Above(K, N) && Above(K, c) && ValidName(w) && ValidName(y) && AtOrBelow(Child(K, w), N)
    requires AtOrBelow(Child(K, y), k) && y != w
    ensures !Crosses(N, c, k)
  {
    hide ValidName, Child;
    if Crosses(N, c, k) {
      var d :| AtOrBelow(d, N) && AtOrBelow(d, k) && c <= d;
      AboveAtOrBelow(K, N);
      AboveComparable(K, d, N);
      LongerThan(K, c, d);
      AboveComparable(Child(K, w), d, N);
      AboveChild(d, K, w);
      SelfBelow(d);
      if AtOrBelow(Child(K, w), d) {
        AboveTransitive(Child(K, w), d, k);
        OtherChild(K, w, y, k);
      } else {
        SameOrAbove(d, Child(K, w));
      }
    }
  }

  lemma SameOrAbove(d: string, c: string)
    requires AtOrBelow(d, c) && !AtOrBelow(c, d)
    ensures Above(d, c)
  {
  }

  lemma LongerThan(K: string, c: string, d: string)
    requires Above(K, c) && c <= d && K != ""
    ensures !AtOrBelow(d, K)
  {
  }

  // ---------------------------------------------------------------- the entries beside the way

  /** No name in the directory x is in the way of another. */
  lemma CalmEntry(B: Objects, K: string, N: string, w: string, x: string)
    requires K != "" && Calm(B, K, N) && Above(K, N) && ValidName(w) && ValidName(x) && AtOrBelow(Child(K, w), N)
    requires x != w
    requires Whole(B, K)
    ensures ClearBelow(B, Child(K, x))
  {
    hide ValidName, Child, Calm, Crosses, Holder, Strict, Whole;
    var e := Child(K, x);
    AboveChild(K, K, x);
    StrictBelow(B, K, e);
    forall c, k | Above(e, c) && k in B && Above(c, k) ensures Clear(B, c) && !(c <= Holder(e)) {
      NameNotEmpty(x);
      ChildBelow(K, x, c);
      DirBy(B, c, k);
      forall j | j in B && c <= j ensures AtOrBelow(c, j) {
        CalmAt(B, K, N, c, j);
        StartsBelow(e, c, j);
        NoCrossing(K, N, w, x, c, j);
      }
      ClearOfHolder(B, e, c, k);
    }
  }

  lemma StartsBelow(e: string, c: string, j: string)
    requires Above(e, c) && c <= j
    ensures Above(e, j) && AtOrBelow(e, j)
  {
  }

  /** Up to the way no entry is blocked. */
  lemma CalmUnblocked(base: string, B: Objects, K: string, N: string, infos: seq<Info>, m: nat, i: nat)
    requires ValidKeys(base, B) && Proper(base, K) && Whole(B, K) && K !in B && Calm(B, K, N) && Above(K, N)
    requires Lists(infos, Children(B, K)) && i <= m < |infos| && infos[i].DirInfo?
    requires ValidName(Seg(K, N)) && AtOrBelow(Child(K, Seg(K, N)), N)
    requires forall j :: 0 <= j < m ==> infos[j].name != Seg(K, N)
    ensures Unblocked(infos, i)
  {
    hide ValidKeys, Children, Child, Proper, Whole, Seg, Stray, Calm, Crosses, Lists, ValidName;
    ProperIs(base, K);
    var e := infos[i];
    assert e in infos;
    ListsMember(infos, Children(B, K), e);
    WholeEntry(base, B, K, e);
    var c := Child(K, e.name);
    var k0 :| k0 in B && Above(c, k0);
    AboveChild(K, K, e.name);
    SelfBelow(K);
    DirBy(B, c, k0);
    CalmAt(B, K, N, c, c);
    if e.name <= DIR_HOLDER {
      ChildStarts(K, e.name, DIR_HOLDER);
      HolderIsChild(K);
    }
    forall j | 0 <= j < i ensures !(e.name <= infos[j].name) {
      assert infos[j] in infos;
      ListsMember(infos, Children(B, K), infos[j]);
      WholeEntry(base, B, K, infos[j]);
      NewName(base, B, K, infos, i);
      NameIn(infos, i, j);
      if e.name <= infos[j].name {
        var k := EntryKey(B, K, infos[j]);
        ChildStarts(K, e.name, infos[j].name);
        ChildPrefix(K, infos[j].name, k);
        CalmAt(B, K, N, c, k);
        NoCrossing(K, N, Seg(K, N), infos[j].name, c, k);
        OtherChild(K, e.name, infos[j].name, k);
      }
    }
  }

  /** Before the way every entry goes. */
  lemma CalmGoes(base: string, order: Order, B: Objects, K: string, N: string, m: nat, i: nat)
    requires ValidKeys(base, B) && Proper(base, K) && Whole(B, K) && K !in B && Calm(B, K, N) && Above(K, N)
    requires i < m < |Read(order, B, K)| && ValidName(Seg(K, N)) && AtOrBelow(Child(K, Seg(K, N)), N)
    requires forall j :: 0 <= j < m ==> Read(order, B, K)[j].name != Seg(K, N)
    ensures EntryGoes(order, B, K, N, i)
  {
    hide ValidKeys, Children, Child, Proper, Whole, Seg, Calm, Crosses, Lists, Read, Unblocked, Passes, ClearBelow,
      AtOrBelow, Above, ValidName;
    ProperIs(base, K);
    ReadLists(base, order, B, K);
    var infos := Read(order, B, K);
    var e := infos[i];
    assert e in infos;
    ListsMember(infos, Children(B, K), e);
    WholeEntry(base, B, K, e);
    if AtOrBelow(Child(K, e.name), N) {
      NameNotEmpty(e.name);
      SegIsChild(K, e.name, N);
    }
    if e.DirInfo? {
      CalmUnblocked(base, B, K, N, infos, m, i);
      CalmEntry(B, K, N, Seg(K, N), e.name);
      ProperChild(base, K, e.name);
      EntryWhole(B, B, K, e.name);
      ClearPasses(base, order, B, Child(K, e.name));
    }
  }

  // ---------------------------------------------------------------- the next call

  /** Where a key comes from, in the middle of a move. */
  lemma KeyFrom(B: Objects, B1: Objects, K: string, N: string, S: set<string>, k: string)
    requires IsSomeMoved(B, B1, K, N, S) && K != "" && N != "" && k in B1 && "" !in S
    ensures !AtOrBelow(N, k) ==> k in B
    ensures AtOrBelow(N, k) && k != Holder(N) ==>
      var o := Moved(N, K, k);
      o in B && AtOrBelow(K, o) && Above(K, o) && Seg(K, o) in S && AtOrBelow(Child(K, Seg(K, o)), o)
  {
    hide Stray, Seg, Child, Moved;
    assert Get(B1, k) == SomeMoved(B, K, N, S, k);
    if AtOrBelow(N, k) && k != Holder(N) {
      MovedBack(N, K, k);
      SegAbove(K, Moved(N, K, k));
    }
  }

  lemma SegAbove(K: string, o: string)
    requires Above(K, o)
    ensures Seg(K, o) != "" ==> AtOrBelow(Child(K, Seg(K, o)), o)
  {
    FirstComponent(Rest(K, o));
    if Seg(K, o) != "" {
      ChildJoins(K, Seg(K, o), o);
    }
  }

  /** Moving keeps how keys lie to one another. */
  lemma MovedOrder(K: string, N: string, c: string, k: string)
    requires AtOrBelow(K, c) && AtOrBelow(K, k) && K != "" && N != ""
    ensures c <= k ==> Moved(K, N, c) <= Moved(K, N, k)
    ensures Above(c, k) ==> Above(Moved(K, N, c), Moved(K, N, k))
    ensures AtOrBelow(c, k) ==> AtOrBelow(Moved(K, N, c), Moved(K, N, k))
  {
    if c <= k {
      assert c[|K|..] <= k[|K|..];
      StartsConcat(N, c[|K|..], k[|K|..]);
    }
    if Above(c, k) {
      assert c[|K|..] + "/" <= k[|K|..];
      StartsConcat(N, c[|K|..] + "/", k[|K|..]);
      assert Slash(Moved(K, N, c)) == N + (c[|K|..] + "/");
    }
  }

  /** The move of the entries S of K to N, which lies below another entry of K and in the directory P. */
  ghost predicate Aside(B: Objects, B1: Objects, K: string, N: string, S: set<string>, P: string, z: string) {
    && IsSomeMoved(B, B1, K, N, S) && K != "" && N != "" && Above(K, N) && !Seen(B, N) && "" !in S
    && N == Child(P, z) && ValidName(z) && Holder(P) in B
    && ValidName(Seg(K, N)) && Above(Way(K, N), N) && Seg(K, N) !in S && (forall x :: x in S ==> ValidName(x))
    && Calm(B, K, N)
  }

  lemma AsideIs(B: Objects, B1: Objects, K: string, N: string, S: set<string>, P: string, z: string)
    requires Aside(B, B1, K, N, S, P, z)
    ensures IsSomeMoved(B, B1, K, N, S) && K != "" && N != "" && Above(K, N) && !Seen(B, N) && "" !in S
    ensures N == Child(P, z) && ValidName(z) && Holder(P) in B && Calm(B, K, N)
    ensures ValidName(Seg(K, N)) && Above(Child(K, Seg(K, N)), N) && Above(K, Child(K, Seg(K, N)))
    ensures Seg(K, N) !in S && (forall x :: x in S ==> ValidName(x)) && Child(K, Seg(K, N)) != ""
  {
    hide Calm, IsSomeMoved, Seen, Seg, ValidName;
    AboveChild(K, K, Seg(K, N));
  }

  lemma NotSeenBelow(B: Objects, N: string, c: string, k: string)
    requires !Seen(B, N) && N <= c && c <= k
    ensures k !in B
  {
    if k in B { SeenBy(B, N, k); }
  }

  /** A directory that was there before, seen from an old key. */
  lemma CalmOld(B: Objects, B1: Objects, K: string, N: string, S: set<string>, P: string, z: string, c: string,
                k: string)
    requires Aside(B, B1, K, N, S, P, z) && Above(K, c) && DirAt(B1, c) && k in B1 && c <= k && !AtOrBelow(N, k)
    ensures AtOrBelow(c, k) || Crosses(N, c, k)
  {
    hide Calm, IsSomeMoved, Seen, Seg, ValidName, Holder, Child, AtOrBelow, Above, Crosses;
    AsideIs(B, B1, K, N, S, P, z);
    KeyFrom(B, B1, K, N, S, k);
    var j :| j in B1 && Above(c, j);
    KeyFrom(B, B1, K, N, S, j);
    AboveAtOrBelow(c, j);
    if AtOrBelow(N, j) {
      AboveComparable(c, N, j);
      if AtOrBelow(N, c) {
        BelowStarts(N, c);
        NotSeenBelow(B, N, c, k);
      }
      InParent(P, z, c);
      DirBy(B, c, Holder(P));
    } else {
      DirBy(B, c, j);
    }
    CalmAt(B, K, N, c, k);
  }

  lemma BelowStarts(N: string, c: string)
    requires AtOrBelow(N, c)
    ensures N <= c
  {
  }

  lemma InParent(P: string, z: string, c: string)
    requires ValidName(z)
    ensures AtOrBelow(c, Child(P, z)) && c != Child(P, z) ==> Above(c, Holder(P))
  {
    AboveChild(c, P, z);
    HolderIsChild(P);
    AboveChild(c, P, DIR_HOLDER);
  }

  /** A directory that has been moved. */
  lemma CalmNew(B: Objects, B1: Objects, K: string, N: string, S: set<string>, P: string, z: string, c: string,
                k: string)
    requires Aside(B, B1, K, N, S, P, z) && Above(N, c) && DirAt(B1, c) && k in B1 && c <= k && AtOrBelow(N, k)
    ensures AtOrBelow(c, k)
  {
    hide Calm, IsSomeMoved, Seen, Seg, ValidName, Child, AtOrBelow, Above, Crosses, Moved;
    AsideIs(B, B1, K, N, S, P, z);
    var j :| j in B1 && Above(c, j);
    AboveAtOrBelow(N, c);
    AboveTransitive(N, c, j);
    KeyFrom(B, B1, K, N, S, j);
    KeyFrom(B, B1, K, N, S, k);
    MovedBack(N, K, c);
    MovedBack(N, K, k);
    MovedOrder(N, K, c, j);
    MovedOrder(N, K, c, k);
    HolderAtMoved(K, N);
    NotAboveHolder(N, c);
    var c0, o := Moved(N, K, c), Moved(N, K, k);
    DirBy(B, c0, Moved(N, K, j));
    CalmAt(B, K, N, c0, o);
    if k != Holder(N) {
      AboveAtOrBelow(Child(K, Seg(K, N)), N);
      NoCrossing(K, N, Seg(K, N), Seg(K, o), c0, o);
      MovedOrder(K, N, c0, o);
    }
  }

  lemma NotAboveHolder(N: string, c: string)
    requires Above(N, c) && N != ""
    ensures !Above(c, Holder(N))
  {
    HolderIsChild(N);
    AboveChild(c, N, DIR_HOLDER);
    if AtOrBelow(c, N) { NotBelowAbove(N, c); }
  }

  lemma CrossesLonger(N: string, n: string, c: string, k: string)
    requires Crosses(N, c, k) && AtOrBelow(N, n)
    ensures Crosses(n, c, k)
  {
    var d :| AtOrBelow(d, N) && AtOrBelow(d, k) && c <= d;
    AboveTransitive(d, N, n);
    assert AtOrBelow(d, n);
  }

  lemma CrossesAt(N: string, n: string, c: string, k: string)
    requires AtOrBelow(N, n) && AtOrBelow(N, k) && c <= N
    ensures Crosses(n, c, k)
  {
  }

  /** What starts like a key below N is a beginning of N, or below it. */
  lemma StartsBeside(N: string, c: string, k: string)
    requires AtOrBelow(N, k) && c <= k
    ensures c <= N || Above(N, c)
  {
    if |c| > |N| {
      assert Slash(N) <= k;
      assert Slash(N) <= c;
    } else {
      assert c == k[..|c|] && N == k[..|N|];
    }
  }

  lemma CalmPair(B: Objects, B1: Objects, K: string, N: string, S: set<string>, P: string, z: string, n: string,
                 c: string, k: string)
    requires Aside(B, B1, K, N, S, P, z) && AtOrBelow(N, n) && Above(K, c) && DirAt(B1, c) && k in B1 && c <= k
    ensures AtOrBelow(c, k) || Crosses(n, c, k)
  {
    hide Calm, IsSomeMoved, Seen, Seg, ValidName, Child, AtOrBelow, Above, Crosses, Aside, DirAt;
    if !AtOrBelow(N, k) {
      CalmOld(B, B1, K, N, S, P, z, c, k);
      if Crosses(N, c, k) { CrossesLonger(N, n, c, k); }
    } else {
      StartsBeside(N, c, k);
      if Above(N, c) {
        CalmNew(B, B1, K, N, S, P, z, c, k);
      } else {
        CrossesAt(N, n, c, k);
      }
    }
  }

  /** The next call finds the bucket as calm. */
  lemma CalmNext(B: Objects, B1: Objects, K: string, N: string, S: set<string>, P: string, z: string)
    requires Aside(B, B1, K, N, S, P, z) && Holder(N) in B1
    requires Above(K, N) && Strict(B1, Way(K, N))
    ensures Calm(B1, Child(K, Seg(K, N)), Child(N, Seg(K, N)))
  {
    hide Calm, IsSomeMoved, Seen, Seg, ValidName, AtOrBelow, Above, Crosses, Aside, Strict, Child, DirAt, Holder;
    AsideIs(B, B1, K, N, S, P, z);
    var w := Seg(K, N);
    var e, n := Child(K, w), Child(N, w);
    WayChild(K, N);
    AboveChild(N, N, w);
    AboveAtOrBelow(N, n);
    forall c | Above(e, c)
      ensures DirAt(B1, c) ==> !(c <= Holder(e))
      ensures forall k :: DirAt(B1, c) && k in B1 && c <= k ==> AtOrBelow(c, k) || Crosses(n, c, k)
    {
      NameNotEmpty(w);
      ChildBelow(K, w, c);
      forall k | DirAt(B1, c) && k in B1 && c <= k ensures AtOrBelow(c, k) || Crosses(n, c, k) {
        CalmPair(B, B1, K, N, S, P, z, n, c, k);
      }
      if DirAt(B1, c) {
        NotAtHolder(B1, e, N, n, w, c);
      }
    }
    CalmBy(B1, e, n);
  }

  lemma WayChild(K: string, N: string)
    requires Above(K, N)
    ensures Way(K, N) == Child(K, Seg(K, N))
  {
  }

  lemma CalmBy(B1: Objects, e: string, n: string)
    requires forall c :: Above(e, c) ==> DirAt(B1, c) ==> !(c <= Holder(e))
    requires forall c :: Above(e, c) ==>
      forall k :: DirAt(B1, c) && k in B1 && c <= k ==> AtOrBelow(c, k) || Crosses(n, c, k)
    ensures Calm(B1, e, n)
  {
    hide AtOrBelow, Above, Crosses, DirAt, Holder;
  }

  /** No directory below e has a name that the holder of e starts with. */
  lemma NotAtHolder(B1: Objects, e: string, N: string, n: string, w: string, c: string)
    requires Strict(B1, e) && e != "" && Above(e, N) && n == Child(N, w) && ValidName(w) && Holder(N) in B1
    requires Above(e, c) && DirAt(B1, c)
    requires Holder(e) in B1 && c <= Holder(e) ==> AtOrBelow(c, Holder(e)) || Crosses(n, c, Holder(e))
    ensures !(c <= Holder(e))
  {
    hide ValidName, Seg;
    var h := Holder(e);
    var j :| j in B1 && Above(c, j);
    AboveTransitive(e, c, j);
    SelfBelow(e);
    assert Get(B1, h) == Some([]);
    GetIn(B1, h);
    HolderIsChild(e);
    if AtOrBelow(c, h) {
      AboveChild(c, e, DIR_HOLDER);
      if AtOrBelow(c, e) { NotBelowAbove(e, c); }
    } else if c <= h {
      var d :| AtOrBelow(d, n) && AtOrBelow(d, h) && c <= d;
      AboveChild(d, e, DIR_HOLDER);
      LongerThan(e, c, d);
      HolderAbove(B1, e, N, n, w);
    }
  }

  lemma HolderAbove(B1: Objects, e: string, N: string, n: string, w: string)
    requires Strict(B1, e) && e != "" && Above(e, N) && n == Child(N, w) && ValidName(w) && Holder(N) in B1
    requires Holder(e) in B1
    ensures !AtOrBelow(Holder(e), n)
  {
    hide ValidName;
    var h := Holder(e);
    HolderIsChild(e);
    HolderIsChild(N);
    AboveChild(h, N, w);
    AboveChild(N, N, w);
    AboveChild(N, e, DIR_HOLDER);
    if AtOrBelow(N, e) { NotBelowAbove(e, N); }
    if AtOrBelow(h, N) {
      AboveChild(h, N, DIR_HOLDER);
    }
  }
}
