/**
 What removing and moving subtrees does to a bucket, key by key, and how the effects on the entries of
 a directory add up to the effect on the directory.
 */
module S3Moves {
  import opened Data
  import opened GoPath
  import opened S3Keys
  import opened S3Invariant

  function Get(B: Objects, k: string): Option<Bytes> {
    if k in B then Some(B[k]) else None
  }

  /** A file that Readdir takes for a holder although it is none. */
  predicate Stray(k: string) {
    HasSuffix(k, DIR_HOLDER) && !HasSuffix(k, "/" + DIR_HOLDER)
  }

  lemma HolderNotStray(d: string)
    requires d != ""
    ensures !Stray(Holder(d)) && HasSuffix(Holder(d), DIR_HOLDER)
  {
    var h := Holder(d);
    assert h == d + "/" + DIR_HOLDER;
    assert h[|h| - 8..] == "/" + DIR_HOLDER;
  }

  lemma HiddenIsHolderOrStray(K: string, k: string)
    requires K != "" && Hidden(K, k)
    ensures k == Holder(K) || Stray(k)
  {
    if HasSuffix(k, "/" + DIR_HOLDER) {
      var x := Rest(K, k);
      FirstComponent(x);
      LastComponent(K, k, x);
    }
  }

  lemma LastComponent(K: string, k: string, x: string)
    requires K != "" && Above(K, k) && Rest(K, k) == x && NoSlash(x)
    requires HasSuffix(k, "/" + DIR_HOLDER)
    ensures k == Holder(K)
  {
    hide Last, Slash, HasSuffix;
    RestIs(K, k);
    LastIs(Slash(K), x);
    SlashedHolder(k);
    LastIs(k[..|k| - |DIR_HOLDER|], DIR_HOLDER);
    assert k == k[..|k| - |DIR_HOLDER|] + DIR_HOLDER;
  }

  lemma RestIs(d: string, k: string)
    requires Above(d, k)
    ensures k == Slash(d) + Rest(d, k) && (Slash(d) == "" || Slash(d)[|Slash(d)| - 1] == '/')
  {
  }

  lemma SlashedHolder(k: string)
    requires HasSuffix(k, "/" + DIR_HOLDER)
    ensures |DIR_HOLDER| < |k| && k[|k| - |DIR_HOLDER|..] == DIR_HOLDER
    ensures k[..|k| - |DIR_HOLDER|][|k| - |DIR_HOLDER| - 1] == '/'
  {
    assert k[|k| - 8..] == "/" + DIR_HOLDER;
  }

  // ---------------------------------------------------------------- where names lead

  /** The key of the directory a name lies in. */
  function ParentKey(prefix: string, name: string): string
    requires Parts(name) != []
  {
    Key(prefix, Parts(name)[..|Parts(name)| - 1])
  }

  lemma NameInside(prefix: string, name: string)
    requires PrefixOk(prefix) && NameOk(prefix, name)
    ensures var K := KeyOf(prefix, name);
      && AtOrBelow(BaseKey(prefix), K)
      && !Rooted(K) && !HasSuffix(K, "/")
      && (Parts(name) != [] ==> Inside(BaseKey(prefix), K) && K != "")
  {
    KeyOfName(prefix, name);
    PartsValid(name);
    KeyInside(prefix, Parts(name));
  }

  lemma NameParent(prefix: string, name: string)
    requires PrefixOk(prefix) && NameOk(prefix, name) && Parts(name) != []
    ensures var p := Parts(name);
      && ValidName(p[|p| - 1])
      && KeyOf(prefix, name) == Child(ParentKey(prefix, name), p[|p| - 1])
      && AtOrBelow(BaseKey(prefix), ParentKey(prefix, name))
      && (|p| == 1 ==> ParentKey(prefix, name) == BaseKey(prefix))
      && (|p| > 1 ==> Inside(BaseKey(prefix), ParentKey(prefix, name)))
  {
    hide KeyOf, Parts, NoDotDot, Child, Inside, AtOrBelow, Join;
    KeyOfName(prefix, name);
    PartsValid(name);
    var p := Parts(name);
    var front, c := p[..|p| - 1], p[|p| - 1];
    assert p == front + [c];
    assert c in p;
    KeyChild(prefix, front, c);
    KeyInside(prefix, front);
    if |p| == 1 {
      assert PrefixParts(prefix) + front == PrefixParts(prefix);
    }
  }

  lemma KeyInside(prefix: string, p: Path)
    requires PrefixOk(prefix) && ValidPath(p)
    ensures var K := Key(prefix, p);
      && AtOrBelow(BaseKey(prefix), K)
      && !Rooted(K) && !HasSuffix(K, "/")
      && (p != [] ==> Inside(BaseKey(prefix), K) && K != "")
  {
    PrefixPartsValid(prefix);
    var q := PrefixParts(prefix);
    if p == [] {
      assert q + p == q;
    } else {
      if q == [] {
        assert q + p == p;
      } else {
        JoinConcat(q, p);
      }
    }
    JoinEnds(q + p);
    if q != [] { JoinHead(q); }
    if p != [] { JoinHead(p); }
  }

  lemma JoinEnds(p: Path)
    requires ValidPath(p)
    ensures !Rooted(Join(p)) && !HasSuffix(Join(p), "/")
  {
    if p != [] {
      JoinHead(p);
      var front, c := p[..|p| - 1], p[|p| - 1];
      assert p == front + [c];
      assert c in p;
      JoinAppend(front, c);
      assert c[|c| - 1] in c;
    }
  }

  lemma NameKeyOk(prefix: string, name: string)
    requires PrefixOk(prefix) && NameOk(prefix, name) && Parts(name) != []
    ensures KeyOk(BaseKey(prefix), KeyOf(prefix, name))
    ensures KeyOk(BaseKey(prefix), Holder(KeyOf(prefix, name)))
  {
    KeyOfName(prefix, name);
    PartsValid(name);
    PathKeyOk(prefix, Parts(name));
    KeyChild(prefix, Parts(name), DIR_HOLDER);
    PathKeyOk(prefix, Parts(name) + [DIR_HOLDER]);
  }

  lemma PathKeyOk(prefix: string, p: Path)
    requires PrefixOk(prefix) && ValidPath(p) && p != []
    ensures Above(BaseKey(prefix), Key(prefix, p))
    ensures Rest(BaseKey(prefix), Key(prefix, p)) == Join(p)
    ensures Split(Rest(BaseKey(prefix), Key(prefix, p))) == p
  {
    PrefixPartsValid(prefix);
    var q := PrefixParts(prefix);
    SplitJoin(p);
    if q == [] {
      assert q + p == p;
    } else {
      JoinHead(q);
      JoinConcat(q, p);
    }
  }

  lemma JoinBelow(p: Path, r: Path)
    requires ValidPath(p) && (forall c :: c in r ==> NoSlash(c)) && p != [] && r != []
    ensures AtOrBelow(Join(p), Join(r)) <==> p <= r
    ensures Join(p) == Join(r) <==> p == r
  {
    hide Join, Split;
    JoinHead(p);
    SplitJoin(p);
    SplitJoin(r);
    if Above(Join(p), Join(r)) {
      var rest := Join(r)[|Join(p)| + 1..];
      assert Join(r) == Join(p) + "/" + rest;
      SplitConcat(Join(p), rest);
    }
    if p <= r && p != r {
      var q := r[|p|..];
      assert r == p + q;
      JoinConcat(p, q);
    }
  }

  lemma KeyBelow(prefix: string, p: Path, r: Path)
    requires PrefixOk(prefix) && ValidPath(p) && ValidPath(r) && p != [] && r != []
    ensures AtOrBelow(Key(prefix, p), Key(prefix, r)) <==> p <= r
    ensures Key(prefix, p) == Key(prefix, r) <==> p == r
  {
    hide Join, AtOrBelow;
    PrefixPartsValid(prefix);
    var q := PrefixParts(prefix);
    JoinBelow(q + p, q + r);
    PrefixConcat(q, p, r);
  }

  // ---------------------------------------------------------------- termination

  /** The string prefixes of the keys below K that are longer than K: fewer for each entry of K. */
  function Below(B: Objects, K: string): set<string> {
    set k, i | k in B && Above(K, k) && |K| < i <= |k| :: k[..i]
  }

  lemma BelowChild(B: Objects, B': Objects, K: string, x: string, k0: string)
    requires forall k :: k in B' && Above(K, k) ==> k in B
    requires k0 in B && Above(K, k0) && x != "" && |k0| > |K|
    ensures Below(B', Child(K, x)) < Below(B, K)
  {
    var c := Child(K, x);
    forall s | s in Below(B', c) ensures s in Below(B, K) && |s| > |c| {
      var k, i :| k in B' && Above(c, k) && |c| < i <= |k| && s == k[..i];
      ChildSplits(K, x, k);
    }
    var s := k0[..|K| + 1];
    assert s in Below(B, K);
    assert s !in Below(B', c);
  }

  function Depth(k: string): nat {
    if k == "" then 0 else (if k[0] == '/' then 1 else 0) + Depth(k[1..])
  }

  lemma {:induction false} DepthConcat(a: string, b: string)
    ensures Depth(a + b) == Depth(a) + Depth(b)
  {
    if a == "" {
      assert a + b == b;
    } else {
      assert (a + b)[1..] == a[1..] + b;
      DepthConcat(a[1..], b);
    }
  }

  lemma {:induction false} DepthNoSlash(x: string)
    requires NoSlash(x)
    ensures Depth(x) == 0
  {
    if x != "" {
      assert x == [x[0]] + x[1..];
      DepthNoSlash(x[1..]);
    }
  }

  lemma DepthChild(K: string, x: string)
    requires NoSlash(x)
    ensures Depth(Child(K, x)) == Depth(K) + if K == "" then 0 else 1
  {
    DepthNoSlash(x);
    DepthConcat(Slash(K), x);
    DepthConcat(K, "/");
  }

  lemma DepthAbove(K: string, k: string)
    requires Above(K, k) && K != ""
    ensures Depth(k) > Depth(K)
  {
    DepthConcat(K, "/");
    DepthConcat(K + "/", k[|K| + 1..]);
    assert k == K + "/" + k[|K| + 1..];
  }

  ghost function Deepest(S: set<string>): (n: nat)
    ensures forall k :: k in S ==> Depth(k) <= n
    ensures S != {} ==> exists k :: k in S && Depth(k) == n
  {
    if S == {} then 0
    else
      var k :| k in S;
      var n := Deepest(S - {k});
      assert forall j :: j in S ==> j == k || j in S - {k};
      if Depth(k) > n then Depth(k) else n
  }

  function KeysBelow(B: Objects, K: string): set<string> {
    set k | k in B && Above(K, k)
  }

  /** How far down the keys below K go. */
  ghost function Tall(B: Objects, K: string): nat {
    var n := Deepest(KeysBelow(B, K));
    if n > Depth(K) then n - Depth(K) else 0
  }

  lemma TallBound(B: Objects, K: string, k: string)
    requires k in B && Above(K, k)
    ensures Depth(k) <= Depth(K) + Tall(B, K)
  {
    assert k in KeysBelow(B, K);
  }

  lemma TallAtMost(B: Objects, K: string, h: nat)
    requires forall k :: k in B && Above(K, k) ==> Depth(k) <= Depth(K) + h
    ensures Tall(B, K) <= h
  {
  }

  lemma TallChild(B: Objects, B1: Objects, K: string, x: string, k0: string)
    requires K != "" && NoSlash(x) && k0 in B && Above(K, k0)
    requires forall k :: k in B1 && Above(Child(K, x), k) ==> Depth(k) <= Depth(K) + Tall(B, K)
    ensures Tall(B1, Child(K, x)) < Tall(B, K)
  {
    hide Tall, Child, Above;
    DepthAbove(K, k0);
    TallBound(B, K, k0);
    DepthChild(K, x);
    TallAtMost(B1, Child(K, x), Tall(B, K) - 1);
  }

  // ---------------------------------------------------------------- moves

  predicate Disjoint(K: string, N: string) {
    !AtOrBelow(K, N) && !AtOrBelow(N, K)
  }

  ghost predicate Fresh(B: Objects, N: string) {
    forall k :: k in B ==> !AtOrBelow(N, k)
  }

  ghost predicate Occupied(B: Objects, K: string) {
    exists k :: k in B && AtOrBelow(K, k)
  }

  /** The subtree at K is well kept: its directories are not files too, and those below K have their holders.
      K itself need not have one, if it is the root of the file system. */
  ghost predicate Whole(B: Objects, K: string) {
    && (forall k, d :: k in B && AtOrBelow(K, d) && Above(d, k) ==>
          d !in B && (d == K || Get(B, Holder(d)) == Some([])))
    && (Holder(K) in B ==> B[Holder(K)] == [])
    && (forall k :: k in B ==> !Above(Holder(K), k))
  }

  /** The subtree at K can go to N: nothing is at N, which is not K or above it, but may be below it. */
  ghost predicate Movable(B: Objects, K: string, N: string) {
    && !AtOrBelow(N, K) && K != "" && N != "" && N != Holder(K)
    && Fresh(B, N) && Occupied(B, K) && Whole(B, K)
  }

  predicate Travels(K: string, k: string) {
    k == K || !Stray(k)
  }

  /** The bucket once the subtree at K is at N instead; only strays stay behind. */
  function AllMoved(B: Objects, K: string, N: string, k: string): Option<Bytes> {
    if AtOrBelow(N, k) then
      var o := Moved(N, K, k);
      if k == Holder(N) && K !in B then Some([]) else if Travels(K, o) then Get(B, o) else None
    else if AtOrBelow(K, k) && Travels(K, k) then None
    else Get(B, k)
  }

  ghost predicate IsAllMoved(B: Objects, B': Objects, K: string, N: string) {
    forall k :: Get(B', k) == AllMoved(B, K, N, k)
  }

  predicate ChildTravels(K: string, S: set<string>, k: string) {
    Above(K, k) && Seg(K, k) in S && !Stray(k)
  }

  /** The bucket in the middle of a move: N has its holder, and the entries S of K are in it. */
  function SomeMoved(B: Objects, K: string, N: string, S: set<string>, k: string): Option<Bytes> {
    if AtOrBelow(N, k) then
      var o := Moved(N, K, k);
      if k == Holder(N) then Some([]) else if ChildTravels(K, S, o) then Get(B, o) else None
    else if ChildTravels(K, S, k) then None
    else Get(B, k)
  }

  ghost predicate IsSomeMoved(B: Objects, B': Objects, K: string, N: string, S: set<string>) {
    forall k :: Get(B', k) == SomeMoved(B, K, N, S, k)
  }

  /** What can be at the key k of N: nothing, what is at its key of K, or the holder of a new directory whose
      old one, the root, has none. */
  predicate Comes(B: Objects, K: string, N: string, k: string, v: Option<Bytes>)
    requires AtOrBelow(N, k)
  {
    || v == None
    || v == Get(B, Moved(N, K, k))
    || (v == Some([]) && k == Holder(N) && K !in B && Holder(K) !in B)
  }

  /** Nothing is lost: whatever happened, each key at or below K is still there or is at N, N has
      nothing else but a holder, and no other key changed. */
  ghost predicate Conserved(B: Objects, B': Objects, K: string, N: string) {
    && (forall k :: !AtOrBelow(K, k) && !AtOrBelow(N, k) ==> Get(B', k) == Get(B, k))
    && (forall k :: AtOrBelow(K, k) && !AtOrBelow(N, k) ==> Get(B', k) == None || Get(B', k) == Get(B, k))
    && (forall k :: AtOrBelow(N, k) ==> Comes(B, K, N, k, Get(B', k)))
    && (forall k :: AtOrBelow(K, k) && k in B ==> Get(B', k) == Get(B, k) || Get(B', Moved(K, N, k)) == Get(B, k))
  }

  /** What holds of any move: keys at K only go, keys away from K and N do not change. */
  ghost predicate Framed(B: Objects, B': Objects, K: string, N: string) {
    && (forall k :: !AtOrBelow(K, k) && !AtOrBelow(N, k) ==> Get(B', k) == Get(B, k))
    && (forall k :: AtOrBelow(K, k) && !AtOrBelow(N, k) ==> Get(B', k) == None || Get(B', k) == Get(B, k))
  }

  lemma MovedBack(K: string, N: string, k: string)
    requires AtOrBelow(K, k) && K != "" && N != ""
    ensures AtOrBelow(N, Moved(K, N, k)) && Moved(N, K, Moved(K, N, k)) == k
    ensures k == K <==> Moved(K, N, k) == N
    ensures Above(K, k) ==> Above(N, Moved(K, N, k)) && Rest(N, Moved(K, N, k)) == Rest(K, k)
  {
    var m := Moved(K, N, k);
    assert k == K + k[|K|..];
    if k != K {
      assert k[|K|] == '/';
      assert m[..|N| + 1] == Slash(N);
    }
  }

  lemma MovedChild(K: string, N: string, x: string, k: string)
    requires K != "" && N != "" && NoSlash(x) && x != ""
    requires AtOrBelow(Child(K, x), k)
    ensures Above(K, k) && Seg(K, k) == x
    ensures Moved(Child(K, x), Child(N, x), k) == Moved(K, N, k)
    ensures AtOrBelow(Child(N, x), Moved(K, N, k))
  {
    hide Seg, Above, NoSlash, Moved, Child;
    SegIsChild(K, x, k);
    MovedAlike(K, N, x, k);
    ChildNotRoot(K, x);
    ChildNotRoot(N, x);
    MovedBack(Child(K, x), Child(N, x), k);
  }

  /** Moving a child's key with the child or with the whole directory is the same. */
  lemma MovedAlike(K: string, N: string, x: string, k: string)
    requires K != "" && N != "" && AtOrBelow(Child(K, x), k) && AtOrBelow(K, k)
    ensures Moved(Child(K, x), Child(N, x), k) == Moved(K, N, k)
  {
    hide AtOrBelow, Child, Above;
    ChildIs(K, x);
    ChildIs(N, x);
    ChildPrefix(K, x, k);
    var m, tail := "/" + x, k[|Child(K, x)|..];
    assert k[|K|..] == m + tail;
    Regroup(N, m, tail);
  }

  lemma ChildNotRoot(K: string, x: string)
    requires x != ""
    ensures Child(K, x) != ""
  {
  }

  lemma ChildIs(K: string, x: string)
    requires K != ""
    ensures Child(K, x) == K + ("/" + x)
  {
  }

  lemma ChildPrefix(K: string, x: string, k: string)
    requires AtOrBelow(Child(K, x), k)
    ensures Child(K, x) <= k && k == Child(K, x) + k[|Child(K, x)|..]
  {
  }

  /** What is apart from N is apart from everything below N. */
  lemma ApartBelow(c: string, N: string, n: string)
    requires Disjoint(c, N) && AtOrBelow(N, n)
    ensures Disjoint(c, n)
  {
    if AtOrBelow(c, n) {
      AboveComparable(c, N, n);
    }
    if AtOrBelow(n, c) {
      AboveTransitive(N, n, c);
    }
  }

  lemma ChildApart(c: string, N: string, x: string)
    requires Disjoint(c, N) && ValidName(x)
    ensures Disjoint(c, Child(N, x))
  {
    AboveChild(N, N, x);
    ApartBelow(c, N, Child(N, x));
  }

  /** Places at or below K and at or below N are different places. */
  lemma ApartSides(K: string, N: string, k: string)
    requires Disjoint(K, N) && AtOrBelow(K, k)
    ensures !AtOrBelow(N, k)
  {
    if AtOrBelow(N, k) {
      AboveComparable(K, N, k);
    }
  }

  // ---------------------------------------------------------------- a move, entry by entry

  lemma MoveStarts(B: Objects, B': Objects, K: string, N: string)
    requires Movable(B, K, N) && K !in B
    requires B' == B[Holder(N) := []]
    ensures IsSomeMoved(B, B', K, N, {})
  {
    hide ChildTravels;
    forall k ensures Get(B', k) == SomeMoved(B, K, N, {}, k) {
      hide Whole, Occupied, Moved, Above;
      assert !ChildTravels(K, {}, k) by { NoneTravels(K, k); }
      HolderAtMoved(K, N);
      if AtOrBelow(N, k) {
        var o := Moved(N, K, k);
        NoneTravels(K, o);
        MovedBack(N, K, k);
      }
    }
  }

  lemma NoneTravels(K: string, k: string)
    ensures !ChildTravels(K, {}, k)
  {
  }

  /** A directory below K has its holder. */
  lemma HolderBelow(B: Objects, K: string, d: string, k: string)
    requires Whole(B, K) && k in B && AtOrBelow(K, d) && d != K && Above(d, k)
    ensures Get(B, Holder(d)) == Some([]) && d !in B
  {
  }

  lemma HolderAtMoved(K: string, N: string)
    requires K != "" && N != ""
    ensures AtOrBelow(N, Holder(N)) && Moved(N, K, Holder(N)) == Holder(K) && Moved(K, N, Holder(K)) == Holder(N)
  {
    assert Holder(N) == N + ("/" + DIR_HOLDER);
    assert Holder(K) == K + ("/" + DIR_HOLDER);
  }

  /** An entry is a file or has a holder. */
  predicate EntryHeld(B: Objects, c: string) {
    c in B || Get(B, Holder(c)) == Some([])
  }

  lemma MoveEntry(B: Objects, B1: Objects, B2: Objects, K: string, N: string, S: set<string>, x: string)
    requires Disjoint(Child(K, x), N) && K != "" && N != "" && ValidName(x) && x !in S && x != DIR_HOLDER
    requires Child(K, x) in B ==> !Stray(Child(K, x))
    requires IsSomeMoved(B, B1, K, N, S)
    requires IsAllMoved(B1, B2, Child(K, x), Child(N, x)) && EntryHeld(B1, Child(K, x))
    ensures IsSomeMoved(B, B2, K, N, S + {x})
  {
    forall k ensures Get(B2, k) == SomeMoved(B, K, N, S + {x}, k) {
      MoveEntryAt(B, B1, B2, K, N, S, x, k);
    }
  }

  lemma MoveEntryAt(B: Objects, B1: Objects, B2: Objects, K: string, N: string, S: set<string>, x: string, k: string)
    requires Disjoint(Child(K, x), N) && K != "" && N != "" && ValidName(x) && x !in S && x != DIR_HOLDER
    requires Child(K, x) in B ==> !Stray(Child(K, x))
    requires IsSomeMoved(B, B1, K, N, S)
    requires IsAllMoved(B1, B2, Child(K, x), Child(N, x)) && EntryHeld(B1, Child(K, x))
    ensures Get(B2, k) == SomeMoved(B, K, N, S + {x}, k)
  {
    hide AtOrBelow, Above, Seg, Stray, Moved, Disjoint, Child, Holder;
    var c, n := Child(K, x), Child(N, x);
    assert Get(B2, k) == AllMoved(B1, c, n, k);
    SegIsChild(K, x, k);
    SegIsChild(N, x, k);
    if AtOrBelow(n, k) {
      MovedChild(N, K, x, k);
      AboveAtOrBelow(N, k);
      var o := Moved(N, K, k);
      MovedChild(K, N, x, o);
      AboveAtOrBelow(K, o);
      ApartSides(c, N, o);
      HolderSeg(K);
      HolderSeg(N);
      ChildNotRoot(K, x);
      ChildNotRoot(N, x);
      EntryHolder(c, n, k);
      assert Get(B1, o) == SomeMoved(B, K, N, S, o);
    } else if AtOrBelow(c, k) {
      MovedChild(K, N, x, k);
      AboveAtOrBelow(K, k);
      ApartSides(c, N, k);
      assert Get(B1, k) == SomeMoved(B, K, N, S, k);
    } else {
      assert Get(B1, k) == SomeMoved(B, K, N, S, k);
      if AtOrBelow(N, k) {
        MovedBack(N, K, k);
        var o := Moved(N, K, k);
        SegIsChild(K, x, o);
        if AtOrBelow(c, o) {
          MovedChild(K, N, x, o);
        }
      }
    }
  }

  lemma EntryHolder(c: string, n: string, k: string)
    requires c != "" && n != "" && AtOrBelow(n, k)
    ensures k == Holder(n) ==> Moved(n, c, k) == Holder(c)
    ensures !Stray(Holder(c))
  {
    HolderAtMoved(c, n);
    HolderNotStray(c);
  }

  lemma AboveAtOrBelow(d: string, k: string)
    ensures Above(d, k) ==> AtOrBelow(d, k)
  {
  }

  /** All entries but hidden ones are listed; with the holder gone, the move is complete. */
  lemma MoveEnds(B: Objects, B1: Objects, B2: Objects, K: string, N: string, S: set<string>)
    requires Movable(B, K, N) && K !in B
    requires IsSomeMoved(B, B1, K, N, S)
    requires forall k :: k in B && Above(K, k) && !Hidden(K, k) ==> Seg(K, k) in S
    requires B2 == B1 - {Holder(K)} - {K}
    ensures IsAllMoved(B, B2, K, N)
  {
    forall k ensures Get(B2, k) == AllMoved(B, K, N, k) {
      assert Get(B1, k) == SomeMoved(B, K, N, S, k);
      MoveEndsAt(B, K, N, S, k);
    }
  }

  lemma MoveEndsAt(B: Objects, K: string, N: string, S: set<string>, k: string)
    requires Movable(B, K, N) && K !in B
    requires forall k :: k in B && Above(K, k) && !Hidden(K, k) ==> Seg(K, k) in S
    ensures AllMoved(B, K, N, k) == if k == Holder(K) || k == K then None else SomeMoved(B, K, N, S, k)
  {
    hide Seg, Stray, Holder, Hidden, Fresh, Whole, Occupied;
    HolderSeg(K);
    HolderNotStray(K);
    HolderThere(K, N);
    HolderAtMoved(K, N);
    if AtOrBelow(N, k) {
      MovedBack(N, K, k);
      var o := Moved(N, K, k);
      if o in B && Hidden(K, o) { HiddenIsHolderOrStray(K, o); }
    } else if AtOrBelow(K, k) {
      if k in B && Hidden(K, k) { HiddenIsHolderOrStray(K, k); }
    }
  }

  /** The holder of a directory that can be moved is not at the new place. */
  lemma HolderThere(K: string, N: string)
    requires !AtOrBelow(N, K) && N != Holder(K) && K != ""
    ensures !AtOrBelow(N, Holder(K))
  {
    if Above(N, Holder(K)) {
      HolderIsChild(K);
      AboveChild(N, K, DIR_HOLDER);
    }
  }

  /** Moving a single file. */
  lemma MoveFile(B: Objects, B': Objects, K: string, N: string)
    requires Movable(B, K, N) && K in B
    requires B' == B[N := B[K]] - {K}
    ensures IsAllMoved(B, B', K, N)
  {
    assert forall k :: k in B && Above(K, k) ==> K !in B by {
      assert AtOrBelow(K, K);
    }
    forall k ensures Get(B', k) == AllMoved(B, K, N, k) {
      if AtOrBelow(N, k) {
        MovedBack(N, K, k);
      }
    }
  }

  // ---------------------------------------------------------------- nothing is lost

  lemma SomeMovedConserves(B: Objects, B1: Objects, K: string, N: string, S: set<string>)
    requires !AtOrBelow(N, K) && Fresh(B, N) && K != "" && N != "" && IsSomeMoved(B, B1, K, N, S)
    requires K !in B && (Holder(K) in B ==> B[Holder(K)] == [])
    ensures Conserved(B, B1, K, N)
  {
    HolderAtMoved(K, N);
    forall k
      ensures !AtOrBelow(K, k) && !AtOrBelow(N, k) ==> Get(B1, k) == Get(B, k)
      ensures AtOrBelow(K, k) && !AtOrBelow(N, k) ==> Get(B1, k) == None || Get(B1, k) == Get(B, k)
      ensures AtOrBelow(N, k) ==> Comes(B, K, N, k, Get(B1, k))
      ensures AtOrBelow(K, k) && k in B ==> Get(B1, k) == Get(B, k) || Get(B1, Moved(K, N, k)) == Get(B, k)
    {
      assert Get(B1, k) == SomeMoved(B, K, N, S, k);
      if AtOrBelow(K, k) {
        MovedBack(K, N, k);
        assert Get(B1, Moved(K, N, k)) == SomeMoved(B, K, N, S, Moved(K, N, k));
      }
    }
  }

  lemma AllMovedConserves(B: Objects, B1: Objects, K: string, N: string)
    requires !AtOrBelow(N, K) && Fresh(B, N) && K != "" && N != "" && IsAllMoved(B, B1, K, N)
    requires K !in B ==> Holder(K) in B ==> B[Holder(K)] == []
    ensures Conserved(B, B1, K, N)
  {
    HolderAtMoved(K, N);
    forall k
      ensures !AtOrBelow(K, k) && !AtOrBelow(N, k) ==> Get(B1, k) == Get(B, k)
      ensures AtOrBelow(K, k) && !AtOrBelow(N, k) ==> Get(B1, k) == None || Get(B1, k) == Get(B, k)
      ensures AtOrBelow(N, k) ==> Comes(B, K, N, k, Get(B1, k))
      ensures AtOrBelow(K, k) && k in B ==> Get(B1, k) == Get(B, k) || Get(B1, Moved(K, N, k)) == Get(B, k)
    {
      assert Get(B1, k) == AllMoved(B, K, N, k);
      if AtOrBelow(K, k) {
        MovedBack(K, N, k);
        assert Get(B1, Moved(K, N, k)) == AllMoved(B, K, N, Moved(K, N, k));
      }
    }
  }

  /** An entry whose move broke off half-way leaves the whole move conserved. */
  lemma BrokenEntryConserves(B: Objects, B1: Objects, B2: Objects, K: string, N: string, S: set<string>, x: string)
    requires Disjoint(Child(K, x), N) && !AtOrBelow(N, K) && Fresh(B, N)
    requires K != "" && N != "" && ValidName(x) && x !in S && x != DIR_HOLDER
    requires IsSomeMoved(B, B1, K, N, S) && K !in B && (Holder(K) in B ==> B[Holder(K)] == [])
    requires Conserved(B1, B2, Child(K, x), Child(N, x)) && EntryHeld(B1, Child(K, x))
    ensures Conserved(B, B2, K, N)
  {
    forall k
      ensures !AtOrBelow(K, k) && !AtOrBelow(N, k) ==> Get(B2, k) == Get(B, k)
      ensures AtOrBelow(K, k) && !AtOrBelow(N, k) ==> Get(B2, k) == None || Get(B2, k) == Get(B, k)
      ensures AtOrBelow(N, k) ==> Comes(B, K, N, k, Get(B2, k))
      ensures AtOrBelow(K, k) && k in B ==> Get(B2, k) == Get(B, k) || Get(B2, Moved(K, N, k)) == Get(B, k)
    {
      BrokenEntryAt(B, B1, B2, K, N, S, x, k);
    }
  }

  lemma BrokenEntryAt(B: Objects, B1: Objects, B2: Objects, K: string, N: string, S: set<string>, x: string, k: string)
    requires Disjoint(Child(K, x), N) && !AtOrBelow(N, K) && Fresh(B, N)
    requires K != "" && N != "" && ValidName(x) && x !in S && x != DIR_HOLDER
    requires IsSomeMoved(B, B1, K, N, S) && K !in B && (Holder(K) in B ==> B[Holder(K)] == [])
    requires Conserved(B1, B2, Child(K, x), Child(N, x)) && EntryHeld(B1, Child(K, x))
    ensures !AtOrBelow(K, k) && !AtOrBelow(N, k) ==> Get(B2, k) == Get(B, k)
    ensures AtOrBelow(K, k) && !AtOrBelow(N, k) ==> Get(B2, k) == None || Get(B2, k) == Get(B, k)
    ensures AtOrBelow(N, k) ==> Comes(B, K, N, k, Get(B2, k))
    ensures AtOrBelow(K, k) && k in B ==> Get(B2, k) == Get(B, k) || Get(B2, Moved(K, N, k)) == Get(B, k)
  {
    hide AtOrBelow, Above, Seg, Stray, Moved, Disjoint, Child, Holder, Get;
    SomeMovedConserves(B, B1, K, N, S);
    var c, n := Child(K, x), Child(N, x);
    ChildApart(c, N, x);
    SegIsChild(K, x, k);
    SegIsChild(N, x, k);
    AboveAtOrBelow(K, k);
    AboveAtOrBelow(N, k);
    GetIn(B, k);
    if AtOrBelow(c, k) {
      MovedChild(K, N, x, k);
      ApartSides(c, N, k);
      ApartSides(c, n, k);
      GetIn(B1, k);
      assert Get(B1, k) == SomeMoved(B, K, N, S, k);
    } else if AtOrBelow(n, k) {
      MovedChild(N, K, x, k);
      var o := Moved(N, K, k);
      MovedChild(K, N, x, o);
      AboveAtOrBelow(K, o);
      ApartSides(c, N, o);
      HolderSeg(K);
      ChildNotRoot(K, x);
      ChildNotRoot(N, x);
      EntryHolder(c, n, k);
      GetIn(B1, c);
      GetIn(B1, Holder(c));
      assert Get(B1, o) == SomeMoved(B, K, N, S, o);
    } else if AtOrBelow(K, k) {
      MovedBack(K, N, k);
      var m := Moved(K, N, k);
      DisjointSwaps(c, N);
      ApartSides(N, c, m);
      SegIsChild(N, x, m);
      SegIsChild(K, x, k);
      AboveAtOrBelow(N, m);
      if AtOrBelow(n, m) {
        MovedChild(N, K, x, m);
      }
    }
  }

  lemma DisjointSwaps(a: string, b: string)
    requires Disjoint(a, b)
    ensures Disjoint(b, a)
  {
  }

  lemma GetIn(B: Objects, k: string)
    ensures k in B <==> Get(B, k) != None
  {
  }

  // ---------------------------------------------------------------- names with ".."

  /** Where a name leads from the prefix: ".." goes up, past the prefix as well. */
  function Led(prefix: string, name: string): seq<string> {
    Reduce(Parts(prefix), Split(name), Rooted(prefix))
  }

  /** The key of any name is at or below the prefix exactly if the name leads to the prefix or below it; going up past
      it leads elsewhere in the bucket. */
  lemma KeyStaysIff(prefix: string, name: string)
    requires PrefixOk(prefix) && !RootPrefix(prefix)
    ensures AtOrBelow(BaseKey(prefix), KeyOf(prefix, name)) <==> Parts(prefix) <= Led(prefix, name)
  {
    hide Reduce, Split, Join, Clean, Parts, AtOrBelow;
    var b, r := Parts(prefix), Led(prefix, name);
    PartsValid(prefix);
    SplitElements(name);
    ReducePlain(b, Split(name), Rooted(prefix));
    LedKey(prefix, name);
    JoinHead(b);
    if r == [] {
      NoneBelow(b);
    } else {
      JoinBelow(b, r);
    }
  }

  lemma NoneBelow(b: Path)
    requires ValidPath(b) && b != []
    ensures !AtOrBelow(Join(b), "") && !AtOrBelow(Join(b), ".") && Join([]) == ""
  {
    hide Split;
    JoinHead(b);
    SplitJoin(b);
    SplitNoSlash(".");
    assert Join(b) == "." ==> b == ["."] && "." in b;
  }

  lemma LedKey(prefix: string, name: string)
    requires PrefixOk(prefix) && !RootPrefix(prefix)
    ensures var r := Led(prefix, name);
      KeyOf(prefix, name) == if r == [] && !Rooted(prefix) then "." else Join(r)
  {
    hide Reduce, Split, Join, Clean;
    var b, r := Parts(prefix), Led(prefix, name);
    PartsValid(prefix);
    SplitElements(name);
    ReducePlain(b, Split(name), Rooted(prefix));
    SplitConcat(prefix, name);
    ReduceConcat([], Split(prefix), Split(name), Rooted(prefix));
    ReduceKeeps([], Split(prefix), Rooted(prefix));
    assert [] + Keep(Split(prefix)) == b;
    assert prefix != "" && (Rooted(prefix + "/" + name) <==> Rooted(prefix));
    PathJoinIs(prefix, name);
    CleanBy(prefix + "/" + name, r);
    if r != [] {
      PlainHead(r);
    }
  }

  lemma CleanBy(s: string, r: seq<string>)
    requires s != "" && r == Reduce([], Split(s), Rooted(s))
    ensures !Rooted(s) ==> Clean(s) == if r == [] then "." else Join(r)
    ensures Rooted(s) ==> Clean(s) == "/" + Join(r) && TrimRoot(Clean(s)) == Join(r)
  {
    hide Reduce, Split, Join;
    assert ("/" + Join(r))[1..] == Join(r);
  }

  lemma PlainHead(r: seq<string>)
    requires r != [] && forall c :: c in r ==> c != "" && NoSlash(c)
    ensures !Rooted(Join(r))
  {
    assert r[0] in r;
    assert Join(r)[0] == r[0][0];
    assert r[0][0] in r[0];
  }

  /** One step up from a prefix of one name leads out of it. */
  lemma KeyOutside()
    ensures KeyOf("p", "../x") == "x" && !AtOrBelow(BaseKey("p"), KeyOf("p", "../x"))
  {
    hide Reduce, Join;
    assert Split("p") == ["p"] by { SplitNoSlash("p"); }
    SplitConcat("..", "x");
    SplitNoSlash("..");
    SplitNoSlash("x");
    assert ".." + "/" + "x" == "../x" && Split("../x") == [".."] + ["x"];
    PartsOfName("p");
    assert !Rooted("p");
    ReduceStep(["p"], "..", ["x"], false);
    ReduceOne([], "x", false);
    assert Push(["p"], "..", false) == [];
    LedKey("p", "../x");
    assert Led("p", "../x") == ["x"];
    assert Join(["x"]) == "x" by { JoinLone("x"); }
    KeyStaysIff("p", "../x");
  }

  lemma JoinLone(x: string)
    ensures Join([x]) == x
  {
  }
}
