/**
 What Rename does to a bucket: when a move succeeds, and how the moves of the entries of a directory
 add up to the move of the directory.
 */
module S3Rename {
  import opened Data
  import opened GoPath
  import opened S3Keys
  import opened S3Client
  import opened S3Invariant
  import opened S3Moves
  import opened S3Status
  import opened S3Removal

  /** Every key that starts like c is c or is below c, so Stat does not take c for a directory
      because of a longer name next to it. */
  ghost predicate Clear(B: Objects, c: string) {
    forall k :: k in B && c <= k ==> AtOrBelow(c, k)
  }

  /** No directory below K has a sibling whose name starts with its own; for the entries of K the holder that
      they meet at the new place is one. */
  ghost predicate ClearBelow(B: Objects, K: string) {
    forall c, k :: Above(K, c) && k in B && Above(c, k) ==> Clear(B, c) && !(c <= Holder(K))
  }

  ghost predicate Unshadowed(B: Objects, K: string, N: string) {
    K in B || (!Seen(B, N) && ClearBelow(B, K))
  }

  /** The calls that failed, if any, did not hide an existing object from Stat. */
  ghost predicate Trusted(B: Objects, K: string, N: string, faulted: bool, blind: bool) {
    !blind && (Unshadowed(B, K, N) || !faulted)
  }

  function Names(infos: seq<Info>): set<string> {
    set i | i in infos :: i.name
  }

  ghost predicate Tidy(base: string, B: Objects, K: string, N: string, P: string) {
    && WellKept(base, B) && IsDir(base, B, P) && !Above(K, N)
    && (K in B ==> !HasSuffix(K, DIR_HOLDER) && !HasSuffix(N, DIR_HOLDER))
  }

  // ---------------------------------------------------------------- what holds of any rename

  lemma FramedSame(B: Objects, K: string, N: string)
    ensures Framed(B, B, K, N)
  {
  }

  lemma FramedPut(B: Objects, K: string, N: string, k: string, v: Bytes)
    requires AtOrBelow(N, k)
    ensures Framed(B, B[k := v], K, N)
  {
  }

  lemma FramedRemove(B: Objects, B1: Objects, K: string, N: string, k: string)
    requires Framed(B, B1, K, N) && AtOrBelow(K, k)
    ensures Framed(B, B1 - {k}, K, N)
  {
    forall j
      ensures !AtOrBelow(K, j) && !AtOrBelow(N, j) ==> Get(B1 - {k}, j) == Get(B, j)
      ensures AtOrBelow(K, j) && !AtOrBelow(N, j) ==> Get(B1 - {k}, j) == None || Get(B1 - {k}, j) == Get(B, j)
    {
      assert Get(B1 - {k}, j) == if j == k then None else Get(B1, j);
    }
  }

  lemma FramedEntry(B: Objects, B1: Objects, B2: Objects, K: string, N: string, x: string)
    requires Framed(B, B1, K, N) && Framed(B1, B2, Child(K, x), Child(N, x))
    requires ValidName(x)
    ensures Framed(B, B2, K, N)
  {
    hide Get, Child;
    forall k
      ensures !AtOrBelow(K, k) && !AtOrBelow(N, k) ==> Get(B2, k) == Get(B, k)
      ensures AtOrBelow(K, k) && !AtOrBelow(N, k) ==> Get(B2, k) == None || Get(B2, k) == Get(B, k)
    {
      hide AtOrBelow;
      ChildAtOrBelow(K, x, k);
      ChildAtOrBelow(N, x, k);
    }
  }

  lemma ChildAtOrBelow(K: string, x: string, k: string)
    requires ValidName(x)
    ensures AtOrBelow(Child(K, x), k) ==> AtOrBelow(K, k)
  {
    AboveChild(K, K, x);
    if AtOrBelow(Child(K, x), k) {
      AboveTransitive(K, Child(K, x), k);
    }
  }

  lemma FramedBelow(B: Objects, B1: Objects, K: string, N: string)
    requires Framed(B, B1, K, N)
    ensures forall k :: k in B1 && Above(K, k) && !AtOrBelow(N, k) ==> k in B
  {
    forall k | k in B1 && Above(K, k) && !AtOrBelow(N, k) ensures k in B {
      assert AtOrBelow(K, k);
      assert Get(B1, k) == Get(B, k);
    }
  }

  lemma PutKeys(base: string, B: Objects, k: string, v: Bytes)
    requires ValidKeys(base, B) && KeyOk(base, k)
    ensures ValidKeys(base, B[k := v])
  {
  }

  // ---------------------------------------------------------------- entries of a whole directory

  lemma WholeEntry(base: string, B: Objects, K: string, i: Info)
    requires ValidKeys(base, B) && Proper(base, K) && Whole(B, K) && K !in B && i in Children(B, K)
    ensures var x := i.name;
      && ValidName(x) && x != DIR_HOLDER
      && (i.FileInfo? <==> Child(K, x) in B)
      && (i.FileInfo? ==> !HasSuffix(Child(K, x), DIR_HOLDER) && !Stray(Child(K, x)) && i.size == |B[Child(K, x)]|)
      && (i.DirInfo? ==> exists k :: k in B && Above(Child(K, x), k))
  {
    ChildEntry(base, B, K, i);
    var c := Child(K, i.name);
    AboveChild(K, K, i.name);
    HolderIsChild(K);
    if i.DirInfo? {
      var k :| k in B && Above(c, k);
      AboveTransitive(K, c, k);
      assert c !in B;
    }
  }

  lemma NewName(base: string, B: Objects, K: string, infos: seq<Info>, idx: nat)
    requires ValidKeys(base, B) && Proper(base, K) && Whole(B, K) && K !in B
    requires Lists(infos, Children(B, K)) && idx < |infos|
    ensures infos[idx].name !in Names(infos[..idx])
  {
    hide Children, Whole, Proper, ValidKeys;
    var i := infos[idx];
    assert i in infos;
    WholeEntry(base, B, K, i);
    forall j | j in infos[..idx] ensures j.name != i.name {
      assert j in infos && j != i;
      WholeEntry(base, B, K, j);
    }
  }

  lemma NamesNext(infos: seq<Info>, idx: nat)
    requires idx < |infos|
    ensures Names(infos[..idx + 1]) == Names(infos[..idx]) + {infos[idx].name}
  {
    var a := infos[..idx + 1];
    assert a == infos[..idx] + [infos[idx]];
    forall x | x in Names(infos[..idx]) + {infos[idx].name} ensures x in Names(a) {
      if x == infos[idx].name {
        assert infos[idx] in a;
      } else {
        var i :| i in infos[..idx] && i.name == x;
        assert i in a;
      }
    }
  }

  lemma AllNamed(base: string, B: Objects, K: string, infos: seq<Info>)
    requires Lists(infos, Children(B, K))
    ensures forall k :: k in B && Above(K, k) && !Hidden(K, k) ==> Seg(K, k) in Names(infos)
  {
    hide Seg, Hidden;
    forall k | k in B && Above(K, k) && !Hidden(K, k) ensures Seg(K, k) in Names(infos) {
      var i := InfoOf(B, K, k);
      assert i in Children(B, K);
      assert i in infos && i.name == Seg(K, k);
    }
  }

  /** In the middle of a move, the entries not yet moved are as they were. */
  lemma EntryUntouched(B: Objects, B1: Objects, K: string, N: string, S: set<string>, x: string, k: string)
    requires Disjoint(Child(K, x), N) && ValidName(x) && x !in S && IsSomeMoved(B, B1, K, N, S)
    requires AtOrBelow(Child(K, x), k)
    ensures Get(B1, k) == Get(B, k)
  {
    hide Child, ValidName, Seg, Stray, Above, AtOrBelow, Disjoint;
    NameNotEmpty(x);
    SegIsChild(K, x, k);
    AboveAtOrBelow(K, k);
    ApartSides(Child(K, x), N, k);
    assert Get(B1, k) == SomeMoved(B, K, N, S, k);
  }

  ghost predicate SameAt(B: Objects, B1: Objects, c: string) {
    forall k :: AtOrBelow(c, k) ==> Get(B1, k) == Get(B, k)
  }

  lemma EntrySameAt(B: Objects, B1: Objects, K: string, N: string, S: set<string>, x: string)
    requires Disjoint(Child(K, x), N) && ValidName(x) && x !in S && IsSomeMoved(B, B1, K, N, S)
    ensures SameAt(B, B1, Child(K, x))
  {
    hide Child, ValidName, Disjoint, IsSomeMoved, AtOrBelow;
    forall k | AtOrBelow(Child(K, x), k) ensures Get(B1, k) == Get(B, k) {
      EntryUntouched(B, B1, K, N, S, x, k);
    }
  }

  /** All directories at or below c have their holders. */
  ghost predicate Strict(B: Objects, c: string) {
    forall k, d :: k in B && AtOrBelow(c, d) && Above(d, k) ==> d !in B && Get(B, Holder(d)) == Some([])
  }

  lemma StrictBelow(B: Objects, K: string, c: string)
    requires Whole(B, K) && Above(K, c) && c != ""
    ensures Strict(B, c)
  {
    hide Get, Holder;
    forall k, d | k in B && AtOrBelow(c, d) && Above(d, k) ensures d !in B && Get(B, Holder(d)) == Some([]) {
      AboveTransitive(K, c, d);
      NotBelowBoth(K, c, d);
      HolderBelow(B, K, d, k);
    }
  }

  lemma StrictSame(B: Objects, B1: Objects, c: string)
    requires Strict(B, c) && SameAt(B, B1, c)
    ensures Strict(B1, c)
  {
    hide Holder, Get;
    forall k, d | k in B1 && AtOrBelow(c, d) && Above(d, k) ensures d !in B1 && Get(B1, Holder(d)) == Some([]) {
      AboveTransitive(c, d, k);
      HolderIsChild(d);
      AboveTransitive(c, d, Holder(d));
      SameKey(B, B1, c, k);
      SameKey(B, B1, c, d);
      SameKey(B, B1, c, Holder(d));
    }
  }

  lemma StrictWhole(B: Objects, c: string)
    requires Strict(B, c)
    ensures Whole(B, c)
  {
    HolderIsChild(c);
    SelfBelow(c);
    GetIn(B, Holder(c));
    assert Holder(c) in B ==> B[Holder(c)] == [];
    forall k | k in B ensures !Above(Holder(c), k) {
      if Above(Holder(c), k) {
        AboveTransitive(c, Holder(c), k);
      }
    }
  }

  lemma EntryWhole(B: Objects, B1: Objects, K: string, x: string)
    requires ValidName(x) && SameAt(B, B1, Child(K, x)) && Whole(B, K)
    ensures Whole(B1, Child(K, x)) && Strict(B1, Child(K, x))
  {
    hide Whole, Strict, SameAt, Child;
    AboveChild(K, K, x);
    StrictBelow(B, K, Child(K, x));
    StrictSame(B, B1, Child(K, x));
    StrictWhole(B1, Child(K, x));
  }

  lemma SelfBelow(c: string)
    ensures AtOrBelow(c, c)
  {
  }

  lemma NotBelowBoth(K: string, c: string, d: string)
    requires Above(K, c) && c != "" && AtOrBelow(c, d)
    ensures d != K
  {
  }

  lemma SameKey(B: Objects, B1: Objects, c: string, k: string)
    requires SameAt(B, B1, c) && AtOrBelow(c, k)
    ensures (k in B <==> k in B1) && (k in B ==> B1[k] == B[k]) && Get(B1, k) == Get(B, k)
  {
    assert Get(B1, k) == Get(B, k);
  }

  lemma EntryPresent(base: string, B: Objects, B1: Objects, K: string, i: Info)
    requires ValidKeys(base, B) && Proper(base, K) && Whole(B, K) && K !in B && i in Children(B, K)
    requires SameAt(B, B1, Child(K, i.name))
    ensures Occupied(B1, Child(K, i.name))
    ensures Child(K, i.name) in B1 <==> i.FileInfo?
  {
    hide Child, ValidName, Children, Whole, Proper, ValidKeys;
    WholeEntry(base, B, K, i);
    var c := Child(K, i.name);
    assert Get(B1, c) == Get(B, c);
    if i.DirInfo? {
      var k :| k in B && Above(c, k);
      assert Get(B1, k) == Get(B, k);
      assert k in B1;
    }
  }

  /** Nothing at N starts like an entry that has not been moved, when names are clear. */
  lemma EntryFresh(B: Objects, B1: Objects, K: string, N: string, S: set<string>, x: string, k: string)
    requires K != "" && N != "" && ValidName(x) && x !in S && x != DIR_HOLDER
    requires IsSomeMoved(B, B1, K, N, S)
    requires AtOrBelow(Child(N, x), k) || (Child(N, x) <= k && Clear(B, Child(K, x)) && !(x <= DIR_HOLDER))
    ensures k !in B1
  {
    hide Seg, Stray, Disjoint, ValidName;
    NotNewHolder(N, x, k);
    assert AtOrBelow(N, k) by {
      assert Slash(N) <= Child(N, x);
    }
    assert Get(B1, k) == SomeMoved(B, K, N, S, k);
    MovedBack(N, K, k);
    var o := Moved(N, K, k);
    if o in B {
      NameNotEmpty(x);
      var c, n := Child(K, x), Child(N, x);
      if AtOrBelow(n, k) {
        MovedChild(N, K, x, k);
      } else {
        StartsAlike(N, K, x, k);
        assert AtOrBelow(c, o);
      }
      SegIsChild(K, x, o);
      HolderSeg(K);
    }
  }

  lemma NotNewHolder(N: string, x: string, k: string)
    requires ValidName(x) && x != DIR_HOLDER
    requires AtOrBelow(Child(N, x), k) || (Child(N, x) <= k && !(x <= DIR_HOLDER))
    ensures k != Holder(N)
  {
    hide Seg;
    NameNotEmpty(x);
    HolderSeg(N);
    SegIsChild(N, x, k);
    StartsBack(N, x, DIR_HOLDER);
  }

  lemma StartsBack(N: string, x: string, y: string)
    ensures Child(N, x) <= Child(N, y) ==> x <= y
  {
    if Child(N, x) <= Child(N, y) {
      var n := |Slash(N)|;
      assert x == Child(N, x)[n..] == Child(N, y)[..n + |x|][n..];
      assert y == Child(N, y)[n..];
    }
  }

  lemma StartsAlike(N: string, K: string, x: string, k: string)
    requires N != "" && K != "" && Child(N, x) <= k && AtOrBelow(N, k)
    ensures Child(K, x) <= Moved(N, K, k)
  {
    var m := "/" + x;
    assert Child(N, x) == N + m && Child(K, x) == K + m;
    assert m <= k[|N|..];
    StartsConcat(K, m, k[|N|..]);
  }

  lemma StartsConcat(a: string, b: string, c: string)
    requires b <= c
    ensures a + b <= a + c
  {
  }

  /** The move of an entry meets the conditions that the whole move met. */
  lemma EntryMovable(base: string, B: Objects, B1: Objects, K: string, N: string, S: set<string>, i: Info)
    requires ValidKeys(base, B) && Proper(base, K) && K !in B && i in Children(B, K) && Disjoint(Child(K, i.name), N)
    requires Movable(B, K, N) && i.name !in S && IsSomeMoved(B, B1, K, N, S)
    ensures Movable(B1, Child(K, i.name), Child(N, i.name)) && EntryHeld(B1, Child(K, i.name))
    ensures Unshadowed(B, K, N) ==> Unshadowed(B1, Child(K, i.name), Child(N, i.name))
  {
    hide Child, ValidName, Disjoint, IsSomeMoved, Holder, Children, Whole, Proper, ValidKeys, Occupied, AtOrBelow,
      Above, Clear;
    WholeEntry(base, B, K, i);
    var x := i.name;
    NameNotEmpty(x);
    var c, n := Child(K, x), Child(N, x);
    ChildApart(c, N, x);
    NotAtOrBelow(c, n);
    EntrySameAt(B, B1, K, N, S, x);
    EntryWhole(B, B1, K, x);
    EntryPresent(base, B, B1, K, i);
    forall k | AtOrBelow(n, k) ensures k !in B1 {
      EntryFresh(B, B1, K, N, S, x, k);
    }
    assert Fresh(B1, n);
    ChildNotRoot(K, x);
    ChildNotRoot(N, x);
    NotItsHolder(c, n);
    EntryHasHolder(B, B1, K, i);
    if Unshadowed(B, K, N) && i.DirInfo? {
      AboveChild(K, K, x);
      var k0 :| k0 in B && Above(c, k0);
      assert Clear(B, c);
      HolderIsChild(K);
      if x <= DIR_HOLDER { ChildStarts(K, x, DIR_HOLDER); }
      forall k | n <= k ensures k !in B1 {
        EntryFresh(B, B1, K, N, S, x, k);
      }
      EntryClear(B, B1, K, N, S, x);
    }
  }

  lemma NotItsHolder(c: string, n: string)
    requires Disjoint(c, n)
    ensures n != Holder(c)
  {
    HolderIsChild(c);
  }

  lemma ChildStarts(N: string, x: string, y: string)
    requires x <= y
    ensures Child(N, x) <= Child(N, y)
  {
    StartsConcat(Slash(N), x, y);
  }

  lemma EntryHasHolder(B: Objects, B1: Objects, K: string, i: Info)
    requires Whole(B, K) && ValidName(i.name) && SameAt(B, B1, Child(K, i.name))
    requires i.FileInfo? ==> Child(K, i.name) in B
    requires i.DirInfo? ==> exists k :: k in B && Above(Child(K, i.name), k)
    ensures EntryHeld(B1, Child(K, i.name))
  {
    var c := Child(K, i.name);
    AboveChild(K, K, i.name);
    HolderIsChild(c);
    assert Get(B1, c) == Get(B, c) && Get(B1, Holder(c)) == Get(B, Holder(c));
    if i.DirInfo? {
      var k :| k in B && Above(c, k);
      AboveNotKey(K, c);
      HolderBelow(B, K, c, k);
    }
  }

  lemma AboveNotKey(d: string, c: string)
    requires Above(d, c) && c != ""
    ensures c != d
  {
  }

  lemma NotAtOrBelow(a: string, b: string)
    requires Disjoint(a, b)
    ensures !AtOrBelow(b, a)
  {
  }

  lemma EntryClear(B: Objects, B1: Objects, K: string, N: string, S: set<string>, x: string)
    requires Disjoint(Child(K, x), N) && ValidName(x) && x !in S && IsSomeMoved(B, B1, K, N, S)
    requires Movable(B, K, N) && ClearBelow(B, K)
    ensures ClearBelow(B1, Child(K, x))
  {
    hide Child, ValidName, Disjoint, IsSomeMoved, Whole, Holder, Strict;
    var c := Child(K, x);
    AboveChild(K, K, x);
    StrictBelow(B, K, c);
    forall d, k | Above(c, d) && k in B1 && Above(d, k) ensures Clear(B1, d) && !(d <= Holder(c)) {
      AboveTransitive(c, d, k);
      AboveTransitive(K, c, d);
      EntryUntouched(B, B1, K, N, S, x, k);
      assert Clear(B, d);
      ClearOfHolder(B, c, d, k);
      forall j | j in B1 && d <= j ensures AtOrBelow(d, j) {
        assert Slash(c) <= j;
        EntryUntouched(B, B1, K, N, S, x, j);
      }
    }
  }

  lemma NotBelowAbove(c: string, d: string)
    requires Above(c, d) && c != ""
    ensures !AtOrBelow(d, c)
  {
  }

  /** A directory whose name nothing else starts with is no beginning of the holder beside it. */
  lemma ClearOfHolder(B: Objects, c: string, d: string, k: string)
    requires Strict(B, c) && c != "" && k in B && Above(c, d) && Above(d, k) && Clear(B, d)
    ensures !(d <= Holder(c))
  {
    hide ValidName, Get;
    NotBelowAbove(c, d);
    AboveTransitive(c, d, k);
    SelfBelow(c);
    assert Get(B, Holder(c)) == Some([]);
    GetIn(B, Holder(c));
    HolderIsChild(c);
    AboveChild(d, c, DIR_HOLDER);
    assert AtOrBelow(c, d) && d !in B;
  }

  lemma HolderMoved(B: Objects, B1: Objects, K: string, N: string, S: set<string>)
    requires Movable(B, K, N) && K !in B && IsSomeMoved(B, B1, K, N, S)
    ensures Holder(N) in B1 && Seen(B1, N)
  {
    hide Seg, Stray, HasSuffix, Moved;
    HolderAtMoved(K, N);
    assert Get(B1, Holder(N)) == SomeMoved(B, K, N, S, Holder(N));
    assert N <= Holder(N);
  }

  // ---------------------------------------------------------------- the end of a directory move

  lemma OldGone(B: Objects, B1: Objects, K: string, N: string, S: set<string>)
    requires !AtOrBelow(N, K) && K !in B && IsSomeMoved(B, B1, K, N, S)
    ensures K !in B1
  {
    hide Seg, Stray;
    assert AtOrBelow(K, K);
    assert Get(B1, K) == SomeMoved(B, K, N, S, K);
  }

  lemma WholeTop(B: Objects, K: string)
    requires Whole(B, K)
    ensures Holder(K) in B ==> B[Holder(K)] == []
  {
  }

  lemma MoveEndConserves(base: string, B: Objects, B1: Objects, B2: Objects, K: string, N: string, infos: seq<Info>)
    requires Movable(B, K, N) && K !in B && IsSomeMoved(B, B1, K, N, Names(infos))
    requires Lists(infos, Children(B, K))
    requires B2 == B1 || B2 == B1 - {Holder(K)} || B2 == B1 - {Holder(K)} - {K}
    ensures Conserved(B, B2, K, N)
    ensures B2 == B1 - {Holder(K)} - {K} ==> IsAllMoved(B, B2, K, N)
  {
    hide Children, Lists, IsSomeMoved, IsAllMoved, Conserved, Whole, Fresh, Occupied, Seg, Hidden, Names;
    OldGone(B, B1, K, N, Names(infos));
    WholeTop(B, K);
    assert B1 - {Holder(K)} == B1 - {Holder(K)} - {K};
    if B2 == B1 {
      SomeMovedConserves(B, B1, K, N, Names(infos));
    }
    if B2 == B1 - {Holder(K)} - {K} {
      AllNamed(base, B, K, infos);
      MoveEnds(B, B1, B2, K, N, Names(infos));
      AllMovedConserves(B, B2, K, N);
    }
  }

  lemma MoveEndKeeps(base: string, B: Objects, B1: Objects, B2: Objects, K: string, N: string, infos: seq<Info>)
    requires Movable(B, K, N) && K !in B && IsSomeMoved(B, B1, K, N, Names(infos))
    requires Lists(infos, Children(B, K)) && Proper(base, K) && Disjoint(K, N)
    requires WellKept(base, B) && WellKept(base, B1)
    requires B2 == B1 || B2 == B1 - {Holder(K)} || B2 == B1 - {Holder(K)} - {K}
    ensures WellKept(base, B2)
  {
    hide Children, Lists, IsSomeMoved, Held, ValidKeys, Whole, Fresh, Occupied, Seg, Hidden, Names;
    OldGone(B, B1, K, N, Names(infos));
    AllNamed(base, B, K, infos);
    forall k | k in B1 && Above(K, k) ensures k == Holder(K) {
      StillThere(base, B, B1, K, N, Names(infos), k);
    }
    RemoveHolderKeeps(base, B1, K);
    assert B1 - {Holder(K)} == B1 - {Holder(K)} - {K};
  }

  lemma StillThere(base: string, B: Objects, B1: Objects, K: string, N: string, S: set<string>, k: string)
    requires Disjoint(K, N) && IsSomeMoved(B, B1, K, N, S) && Proper(base, K)
    requires forall k :: k in B && Above(K, k) && !Hidden(K, k) ==> Seg(K, k) in S
    requires NoStrayHolder(base, B) && k in B1 && Above(K, k)
    ensures k == Holder(K)
  {
    hide Seg;
    assert AtOrBelow(K, k);
    ApartSides(K, N, k);
    assert Get(B1, k) == SomeMoved(B, K, N, S, k);
    assert k in B;
    AboveTransitive(base, K, k);
    if Stray(k) {
      var d :| Inside(base, d) && k == Holder(d);
      HolderNotStray(d);
    } else {
      assert Hidden(K, k);
      HiddenIsHolderOrStray(K, k);
    }
  }

  // ---------------------------------------------------------------- the move of a file

  lemma MoveFileConserves(B: Objects, B2: Objects, K: string, N: string)
    requires Movable(B, K, N) && K in B
    requires var B1 := B[N := B[K]]; B2 == B || B2 == B1 || B2 == B1 - {K}
    ensures Conserved(B, B2, K, N)
    ensures B2 == B[N := B[K]] - {K} ==> IsAllMoved(B, B2, K, N)
  {
    hide Whole;
    var B1 := B[N := B[K]];
    if B2 == B1 - {K} {
      MoveFile(B, B2, K, N);
      AllMovedConserves(B, B2, K, N);
    } else {
      forall k
        ensures !AtOrBelow(K, k) && !AtOrBelow(N, k) ==> Get(B2, k) == Get(B, k)
        ensures AtOrBelow(K, k) && !AtOrBelow(N, k) ==> Get(B2, k) == Get(B, k)
        ensures AtOrBelow(K, k) && k in B ==> Get(B2, k) == Get(B, k)
        ensures AtOrBelow(N, k) ==> Comes(B, K, N, k, Get(B2, k))
      {
        if AtOrBelow(N, k) { MovedBack(N, K, k); }
      }
    }
  }

  lemma MoveFileKeeps(base: string, B: Objects, B2: Objects, K: string, N: string, P: string, c: string)
    requires Movable(B, K, N) && K in B && Tidy(base, B, K, N, P)
    requires N == Child(P, c) && ValidName(c) && AtOrBelow(base, P)
    requires var B1 := B[N := B[K]]; B2 == B || B2 == B1 || B2 == B1 - {K}
    ensures WellKept(base, B2)
  {
    hide WellKept, Whole;
    assert forall k :: k in B ==> !Above(N, k);
    PutFileKeeps(base, B, P, c, B[K]);
    RemoveFileKeeps(base, B[N := B[K]], K);
  }

  /** Nothing happened yet, or only the new holder was put. */
  lemma MoveBegun(B: Objects, B1: Objects, K: string, N: string)
    requires Movable(B, K, N) && (B1 == B || (K !in B && B1 == B[Holder(N) := []]))
    ensures Conserved(B, B1, K, N)
  {
    hide Whole, Seg, Stray;
    if B1 == B {
      forall k | AtOrBelow(N, k) ensures Get(B1, k) == None {
      }
    } else {
      MoveStarts(B, B1, K, N);
      WholeTop(B, K);
      SomeMovedConserves(B, B1, K, N, {});
    }
  }
}
