/**
 Rename of the root: which of its names are refused, and what a move of the root does.
 */
module S3Root {
  import opened Data
  import opened GoPath
  import opened Tree
  import opened S3Keys
  import opened S3Client
  import opened S3Invariant
  import opened S3Moves
  import opened S3Status
  import opened S3Removal
  import opened S3Rename
  import opened S3Passes
  import opened S3Keeping
  import opened S3Renaming
  import opened S3Onto
  import opened S3Tree
  import opened S3Refinement
  import opened S3Endless

  // ---------------------------------------------------------------- the names

  /** Of the names of the root only "/" is refused for every target, and "" for those that start at the root. */
  lemma RootRefused(prefix: string, name: string, newName: string)
    requires PrefixOk(prefix) && NameOk(prefix, name) && NameOk(prefix, newName)
    requires Parts(name) == [] && Clean(newName) == newName
    ensures Refused(name, newName) <==> newName == name || name == "/" || (name == "" && Rooted(newName))
  {
    hide Clean, Parts, PrefixOk;
    if name != "" && name != "/" && name + "/" <= newName {
      NameOkIs(prefix, name);
      NameOkIs(prefix, newName);
      RootSpelled(name, newName);
    }
    assert name == "" ==> name + "/" == "/";
  }

  /** No cleaned name goes on from another name of the root. */
  lemma RootSpelled(name: string, newName: string)
    requires NoDotDot(name) && NoDotDot(newName) && Parts(name) == [] && name != "" && Clean(newName) == newName
    ensures !(name + "/" <= newName)
  {
    hide Clean, NoDotDot;
    if name + "/" <= newName {
      var rest, q := newName[|name| + 1..], Parts(newName);
      assert newName == name + "/" + rest;
      CleanNoDotDot(newName);
      PartsValid(newName);
      SplitConcat(name, rest);
      PartsConcat(name, rest);
      assert Parts(newName) == Parts(rest);
      SplitNotEmpty(name);
      if q != [] && Rooted(newName) {
        SplitRooted(q);
        RootedSplit(name, newName);
      } else if q != [] {
        SplitJoin(q);
      }
    }
  }

  lemma SplitNotEmpty(s: string)
    ensures |Split(s)| > 0
  {
  }

  lemma SplitRooted(q: Path)
    requires ValidPath(q) && q != []
    ensures |Split(Abs(q))| == |q| + 1
  {
    SplitJoin(q);
    SplitConcat("", Join(q));
    assert Abs(q) == "" + "/" + Join(q);
    assert |Split("")| == 1;
  }

  lemma RootedSplit(name: string, newName: string)
    requires name != "" && name + "/" <= newName && Rooted(newName)
    ensures |Split(name)| > 1
  {
    assert name[0] == (name + "/")[0] == newName[0] == '/';
    assert name == "" + "/" + name[1..];
    SplitConcat("", name[1..]);
    SplitNotEmpty(name[1..]);
    SplitNotEmpty("");
  }

  // ---------------------------------------------------------------- what a move of the root leaves

  lemma RootTail(prefix: string, q: Path, u: Path)
    requires PrefixOk(prefix) && !RootPrefix(prefix) && ValidPath(q) && q != [] && ValidPath(u) && u != []
    ensures var base, N := BaseKey(prefix), Key(prefix, q);
      && base != "" && N != "" && Above(base, Key(prefix, u)) && Above(base, N) && ValidPath(q + u)
      && Key(prefix, q + u) == N + ("/" + Join(u)) && Key(prefix, u) == base + ("/" + Join(u))
      && Above(N, Key(prefix, q + u)) && Moved(N, base, Key(prefix, q + u)) == Key(prefix, u)
  {
    hide Key, Join, Moved, AtOrBelow;
    var s := "/" + Join(u);
    RootBase(prefix);
    KeyInside(prefix, q);
    KeyInside(prefix, u);
    KeyTail(prefix, q, u);
    RootSlashed(prefix, u);
    assert forall c :: c in q + u ==> c in q || c in u;
    SlashTail(Key(prefix, q), Join(u));
    MovedTail(Key(prefix, q), BaseKey(prefix), Key(prefix, q + u), s);
  }

  lemma RootSlashed(prefix: string, u: Path)
    requires PrefixOk(prefix) && !RootPrefix(prefix) && u != []
    ensures Key(prefix, u) == BaseKey(prefix) + ("/" + Join(u))
  {
    JoinConcat(PrefixParts(prefix), u);
  }

  lemma SlashTail(N: string, x: string)
    ensures N != "" ==> Above(N, N + ("/" + x)) && AtOrBelow(N, N + ("/" + x))
  {
    assert N + ("/" + x) == N + "/" + x;
  }

  /** What was at u is below q. */
  lemma RootedKey(prefix: string, B: Objects, B': Objects, q: Path, u: Path)
    requires PrefixOk(prefix) && !RootPrefix(prefix) && UserPath(q) && ValidPath(u) && u != []
    requires WellKept(BaseKey(prefix), B) && BaseKey(prefix) !in B
    requires IsAllMoved(B, B', BaseKey(prefix), Key(prefix, q))
    ensures ValidPath(q + u)
    ensures Get(B', Key(prefix, q + u)) == if u == [DIR_HOLDER] then Some([]) else Get(B, Key(prefix, u))
  {
    hide Key, WellKept, Stray, Moved, Holder, HasSuffix;
    var base, N, k := BaseKey(prefix), Key(prefix, q), Key(prefix, q + u);
    UserValid(q);
    RootTail(prefix, q, u);
    AboveAtOrBelow(N, k);
    assert Get(B', k) == AllMoved(B, base, N, k);
    HolderKey(prefix, q);
    SameTailKeys(prefix, q, u);
    NotStrayFile(prefix, B, Key(prefix, u));
  }

  lemma SameTailKeys(prefix: string, q: Path, u: Path)
    requires PrefixOk(prefix) && ValidPath(q) && q != [] && ValidPath(q + u) && u != []
    ensures Key(prefix, q + u) == Key(prefix, q + [DIR_HOLDER]) <==> u == [DIR_HOLDER]
  {
    hide Key;
    HolderKey(prefix, q);
    KeyBelow(prefix, q + u, q + [DIR_HOLDER]);
    KeyBelow(prefix, q + [DIR_HOLDER], q + u);
    assert (q + u)[|q|..] == u && (q + [DIR_HOLDER])[|q|..] == [DIR_HOLDER];
  }

  /** Nothing else is left, but for the new holder. */
  lemma RootGone(prefix: string, B: Objects, B': Objects, q: Path, r: Path)
    requires PrefixOk(prefix) && !RootPrefix(prefix) && UserPath(q) && ValidPath(r) && r != []
    requires WellKept(BaseKey(prefix), B) && BaseKey(prefix) !in B
    requires IsAllMoved(B, B', BaseKey(prefix), Key(prefix, q)) && !(q < r)
    ensures Get(B', Key(prefix, r)) == None
  {
    hide Key, WellKept, Stray, Moved, Holder, HasSuffix;
    var base, N, k := BaseKey(prefix), Key(prefix, q), Key(prefix, r);
    UserValid(q);
    KeyInside(prefix, r);
    KeyInside(prefix, q);
    KeyBelow(prefix, q, r);
    HolderIsChild(N);
    assert Get(B', k) == AllMoved(B, base, N, k);
    NotStrayFile(prefix, B, k);
    GetIn(B, k);
    if q == r {
      SelfBelow(N);
      MovedSelf(N, base);
    }
  }

  lemma MovedSelf(N: string, K: string)
    ensures AtOrBelow(N, N) && Moved(N, K, N) == K && N != Holder(N)
  {
    HolderIsChild(N);
    assert Holder(N) == Slash(N) + DIR_HOLDER;
    assert |DIR_HOLDER| > 0;
  }

  /** Every key below the prefix is one that was there, moved, or the new holder. */
  lemma RootKeys(prefix: string, B: Objects, B': Objects, q: Path, k: string) returns (u: Path)
    requires PrefixOk(prefix) && !RootPrefix(prefix) && UserPath(q)
    requires WellKept(BaseKey(prefix), B) && BaseKey(prefix) !in B
    requires IsAllMoved(B, B', BaseKey(prefix), Key(prefix, q)) && k in B' && Above(BaseKey(prefix), k)
    ensures ValidPath(u) && u != [] && k == Key(prefix, q + u) && ValidPath(q + u)
    ensures u == [DIR_HOLDER] || Key(prefix, u) in B
  {
    hide Key, WellKept, Stray, Holder, HasSuffix;
    var base, N := BaseKey(prefix), Key(prefix, q);
    UserValid(q);
    KeyInside(prefix, q);
    assert Get(B', k) == AllMoved(B, base, N, k) != None;
    NotStrayFile(prefix, B, k);
    AboveAtOrBelow(base, k);
    RootBase(prefix);
    assert AtOrBelow(N, k);
    if k == Holder(N) {
      HolderKey(prefix, q);
      u := [DIR_HOLDER];
      HolderIsChild(N);
    } else {
      var o := Moved(N, base, k);
      MovedBack(N, base, k);
      assert o in B && o != base;
      assert Above(base, o);
      WellKeptKey(base, B, o);
      KeyOfPath(prefix, o);
      u := PathOf(prefix, o);
      RootTail(prefix, q, u);
      MovedBack(base, N, o);
      MovedTail(base, N, o, "/" + Join(u));
    }
  }

  lemma MovedTail(K: string, N: string, o: string, s: string)
    requires o == K + s && AtOrBelow(K, o)
    ensures Moved(K, N, o) == N + s
  {
    assert o[|K|..] == s;
  }

  lemma RootBase(prefix: string)
    requires PrefixOk(prefix) && !RootPrefix(prefix)
    ensures BaseKey(prefix) != ""
  {
    PartsValid(prefix);
    JoinHead(Parts(prefix));
  }

  /** The bucket is well kept again. */
  lemma RootKept(prefix: string, B: Objects, B': Objects, x: string)
    requires PrefixOk(prefix) && !RootPrefix(prefix) && UserPath([x])
    requires WellKept(BaseKey(prefix), B) && BareRoot(prefix, B)
    requires IsAllMoved(B, B', BaseKey(prefix), Key(prefix, [x]))
    ensures WellKept(BaseKey(prefix), B')
  {
    hide Key, WellKept, Holder, HasSuffix, IsAllMoved, UserPath, KeyOk;
    var base, q := BaseKey(prefix), [x];
    forall k | k in B' ensures KeyOk(base, k) {
      if Above(base, k) {
        var u := RootKeys(prefix, B, B', q, k);
        PathKeyIs(prefix, q + u);
      } else {
        NotInside(base, k);
      }
    }
    forall k, d | k in B' && Inside(base, d) && Above(d, k) ensures d !in B' && Holder(d) in B' {
      AboveTransitive(base, d, k);
      var u := RootKeys(prefix, B, B', q, k);
      RootHeld(prefix, B, B', x, u, d);
    }
    forall k | k in B' && Above(base, k) && HasSuffix(k, DIR_HOLDER) ensures IsHolder(base, k) && B'[k] == [] {
      var u := RootKeys(prefix, B, B', q, k);
      RootHolder(prefix, B, B', x, u);
    }
    KeptBy(base, B');
  }

  lemma PathKeyIs(prefix: string, p: Path)
    requires PrefixOk(prefix) && ValidPath(p) && p != []
    ensures KeyOk(BaseKey(prefix), Key(prefix, p))
  {
    PathKeyOk(prefix, p);
  }

  lemma NotInside(base: string, k: string)
    requires !Above(base, k)
    ensures KeyOk(base, k)
  {
  }

  lemma KeptBy(base: string, B: Objects)
    requires forall k :: k in B ==> KeyOk(base, k)
    requires forall k, d :: k in B && Inside(base, d) && Above(d, k) ==> d !in B && Holder(d) in B
    requires forall k :: k in B && Above(base, k) && HasSuffix(k, DIR_HOLDER) ==> IsHolder(base, k) && B[k] == []
    ensures WellKept(base, B)
  {
    hide KeyOk, Holder, HasSuffix, IsHolder, Inside, Above;
  }

  /** Above a moved key there are directories. */
  lemma RootHeld(prefix: string, B: Objects, B': Objects, x: string, u: Path, d: string)
    requires PrefixOk(prefix) && !RootPrefix(prefix) && UserPath([x])
    requires WellKept(BaseKey(prefix), B) && BareRoot(prefix, B)
    requires IsAllMoved(B, B', BaseKey(prefix), Key(prefix, [x]))
    requires ValidPath(u) && u != [] && ValidPath([x] + u) && (u == [DIR_HOLDER] || Key(prefix, u) in B)
    requires Inside(BaseKey(prefix), d) && Above(d, Key(prefix, [x] + u))
    ensures d !in B' && Holder(d) in B'
  {
    hide *;
    UserValid([x]);
    var v := PathAbove(prefix, [x], u, d);
    if v == [] {
      assert [x] + v == [x];
      RootTop(prefix, B, B', [x]);
    } else {
      RootHeldBelow(prefix, B, B', x, u, v);
    }
  }

  /** What is above a key below [x] is at or below [x]. */
  lemma PathAbove(prefix: string, q: Path, u: Path, d: string) returns (v: Path)
    requires PrefixOk(prefix) && ValidPath(q) && |q| == 1 && u != [] && ValidPath(q + u)
    requires Inside(BaseKey(prefix), d) && Above(d, Key(prefix, q + u))
    ensures d == Key(prefix, q + v) && q + v <= q + u && q + v != q + u
  {
    hide Key, HasSuffix, AtOrBelow, ValidPath;
    var base, k := BaseKey(prefix), Key(prefix, q + u);
    PathKeyOk(prefix, q + u);
    ParentKeyOk(base, d, k) by { PathKeyIs(prefix, q + u); }
    KeyOfPath(prefix, d) by { InsideAbove(base, d); KeyIs(base, d); }
    var r := PathOf(prefix, d);
    AboveAtOrBelow(d, k);
    KeyBelow(prefix, r, q + u);
    NotEqualAbove(d, k) by { HolderNotRoot(base, d); }
    assert r[0] == (q + u)[0] == q[0];
    v := r[1..];
    assert r == q + v;
  }

  lemma InsideAbove(base: string, d: string)
    requires Inside(base, d)
    ensures Above(base, d)
  {
  }

  lemma KeyIs(base: string, d: string)
    requires Above(base, d) && ValidPath(Split(Rest(base, d)))
    ensures KeyOk(base, d)
  {
  }

  /** The new directory itself. */
  lemma RootTop(prefix: string, B: Objects, B': Objects, q: Path)
    requires PrefixOk(prefix) && !RootPrefix(prefix) && UserPath(q)
    requires WellKept(BaseKey(prefix), B) && BareRoot(prefix, B)
    requires IsAllMoved(B, B', BaseKey(prefix), Key(prefix, q))
    ensures Key(prefix, q) !in B' && Holder(Key(prefix, q)) in B'
  {
    hide Key, WellKept, HasSuffix, IsAllMoved, UserPath, TreeOf, Holder;
    UserValid(q);
    HolderKey(prefix, q);
    RootGone(prefix, B, B', q, q);
    RootedKey(prefix, B, B', q, [DIR_HOLDER]) by { HolderIsChild(""); }
    GetIn(B', Key(prefix, q));
    GetIn(B', Holder(Key(prefix, q)));
  }

  lemma NotEqualAbove(d: string, k: string)
    requires Above(d, k) && d != ""
    ensures d != k
  {
  }

  lemma RootHeldBelow(prefix: string, B: Objects, B': Objects, x: string, u: Path, v: Path)
    requires PrefixOk(prefix) && !RootPrefix(prefix) && UserPath([x])
    requires WellKept(BaseKey(prefix), B) && BareRoot(prefix, B)
    requires IsAllMoved(B, B', BaseKey(prefix), Key(prefix, [x]))
    requires ValidPath(u) && u != [] && (u == [DIR_HOLDER] || Key(prefix, u) in B)
    requires v != [] && [x] + v <= [x] + u && [x] + v != [x] + u
    ensures Key(prefix, [x] + v) !in B' && Holder(Key(prefix, [x] + v)) in B'
  {
    hide Key, WellKept, HasSuffix, IsAllMoved, UserPath, Stray;
    var base, q, r := BaseKey(prefix), [x], [x] + v;
    assert v == ([x] + v)[1..] && u == ([x] + u)[1..] && v <= u && v != u;
    ValidPrefix(v, u);
    RootedKey(prefix, B, B', q, v);
    KeyBelow(prefix, v, u);
    KeyInside(prefix, v);
    HeldAt(base, B, Key(prefix, u), Key(prefix, v));
    HolderKey(prefix, v);
    HolderKey(prefix, r);
    assert r + [DIR_HOLDER] == q + (v + [DIR_HOLDER]);
    RootedKey(prefix, B, B', q, v + [DIR_HOLDER]);
    assert |v + [DIR_HOLDER]| > 1;
    NoTopHolder(prefix, B, v, u);
    GetIn(B', Key(prefix, r));
    GetIn(B', Holder(Key(prefix, r)));
    GetIn(B, Key(prefix, v));
    GetIn(B, Holder(Key(prefix, v)));
  }

  /** No directory of the root is called as a holder. */
  lemma NoTopHolder(prefix: string, B: Objects, v: Path, u: Path)
    requires PrefixOk(prefix) && WellKept(BaseKey(prefix), B) && BareRoot(prefix, B) && ValidPath(v) && ValidPath(u)
    requires v <= u && v != u && v != [] && (u == [DIR_HOLDER] || Holder(Key(prefix, v)) in B)
    ensures v != [DIR_HOLDER]
  {
    hide Key, WellKept, TreeOf, Holder, HasSuffix;
    TreeAt(prefix, B, v);
  }

  /** A moved holder is the holder of the moved directory. */
  lemma RootHolder(prefix: string, B: Objects, B': Objects, x: string, u: Path)
    requires PrefixOk(prefix) && !RootPrefix(prefix) && UserPath([x])
    requires WellKept(BaseKey(prefix), B) && BareRoot(prefix, B)
    requires IsAllMoved(B, B', BaseKey(prefix), Key(prefix, [x]))
    requires ValidPath(u) && u != [] && ValidPath([x] + u) && Key(prefix, [x] + u) in B'
    requires HasSuffix(Key(prefix, [x] + u), DIR_HOLDER)
    ensures IsHolder(BaseKey(prefix), Key(prefix, [x] + u)) && B'[Key(prefix, [x] + u)] == []
  {
    hide Key, WellKept, HasSuffix, IsAllMoved, UserPath, Stray, BareRoot, Holder;
    var base, q, k := BaseKey(prefix), [x], Key(prefix, [x] + u);
    UserValid(q);
    RootedKey(prefix, B, B', q, u) by { BareRootIs(prefix, B); }
    HolderKey(prefix, q);
    KeyInside(prefix, q);
    if u != [DIR_HOLDER] {
      SuffixOfKey(prefix, q + u);
      SuffixOfKey(prefix, u);
      assert LastName(q + u) == LastName(u);
      KeyInside(prefix, u);
      var d := HolderOf(prefix, B, Key(prefix, u));
      HolderIsChild(d);
      WellKeptKey(base, B, Key(prefix, u));
      ParentKeyOk(base, d, Key(prefix, u));
      KeyOfPath(prefix, d);
      var w := PathOf(prefix, d);
      HolderKey(prefix, w);
      KeyBelow(prefix, u, w + [DIR_HOLDER]);
      assert q + u == (q + w) + [DIR_HOLDER];
      assert forall c :: c in q + w ==> c in q || c in w;
      HolderKey(prefix, q + w);
      KeyInside(prefix, q + w);
    }
  }

  lemma BareRootIs(prefix: string, B: Objects)
    requires BareRoot(prefix, B)
    ensures BaseKey(prefix) !in B
  {
  }

  lemma HolderOf(prefix: string, B: Objects, k: string) returns (d: string)
    requires WellKept(BaseKey(prefix), B) && k in B && Above(BaseKey(prefix), k) && HasSuffix(k, DIR_HOLDER)
    ensures Inside(BaseKey(prefix), d) && k == Holder(d) && B[k] == []
  {
    d :| Inside(BaseKey(prefix), d) && k == Holder(d);
  }

  // ---------------------------------------------------------------- the tree after it

  /** Everything is in the new directory. */
  lemma RootGrafts(prefix: string, B: Objects, B': Objects, q: Path)
    requires PrefixOk(prefix) && !RootPrefix(prefix) && UserPath(q)
    requires WellKept(BaseKey(prefix), B) && WellKept(BaseKey(prefix), B') && BareRoot(prefix, B)
    requires IsAllMoved(B, B', BaseKey(prefix), Key(prefix, q))
    ensures TreeOf(prefix, B') == Graft(TreeOf(prefix, B), q)[q := Dir]
  {
    hide TreeOf, WellKept, Key, Holder, HasSuffix, IsAllMoved, BareRoot, Graft, NodeAt, UserPath;
    var t, t' := TreeOf(prefix, B), Graft(TreeOf(prefix, B), q)[q := Dir];
    UserValid(q);
    forall r | r in t' ensures r != [] && ValidPath(r) {
      GraftAt(t, q, r);
      if r != q {
        TreePath(prefix, B, r[|q|..]);
        assert r == q + r[|q|..];
        assert forall c :: c in r ==> c in q || c in r[|q|..];
      }
    }
    forall r {:trigger NodeAt(prefix, B', r)} | r != [] && ValidPath(r)
      ensures NodeAt(prefix, B', r) == if r in t' then Some(t'[r]) else None
    {
      GraftAt(t, q, r);
      RootNode(prefix, B, B', q, r);
      if q < r {
        ValidPrefix(q, r);
        TreeAt(prefix, B, r[|q|..]);
      } else if [] in t {
        TreePath(prefix, B, []);
      }
    }
    TreeEq(prefix, B', t');
  }

  lemma RootNode(prefix: string, B: Objects, B': Objects, q: Path, r: Path)
    requires PrefixOk(prefix) && !RootPrefix(prefix) && UserPath(q) && r != [] && ValidPath(r)
    requires WellKept(BaseKey(prefix), B) && BareRoot(prefix, B)
    requires IsAllMoved(B, B', BaseKey(prefix), Key(prefix, q))
    ensures NodeAt(prefix, B', r) ==
            if r == q then Some(Dir) else if q < r then NodeAt(prefix, B, r[|q|..]) else None
  {
    hide TreeOf, WellKept, Key, Holder, HasSuffix, IsAllMoved, BareRoot, UserPath;
    BareRootIs(prefix, B);
    UserValid(q);
    HolderKey(prefix, r);
    GetIn(B', Key(prefix, r));
    GetIn(B', Holder(Key(prefix, r)));
    if q < r {
      var u := r[|q|..];
      assert r == q + u && r + [DIR_HOLDER] == q + (u + [DIR_HOLDER]);
      ValidPrefix(q, r);
      HolderKey(prefix, u);
      RootedKey(prefix, B, B', q, u);
      RootedKey(prefix, B, B', q, u + [DIR_HOLDER]);
      assert |u + [DIR_HOLDER]| > 1;
      GetIn(B, Key(prefix, u));
      GetIn(B, Holder(Key(prefix, u)));
      SuffixOfKey(prefix, r);
      SuffixOfKey(prefix, u);
      assert LastName(r) == LastName(u);
      TopNode(prefix, B, u);
    } else {
      RootGone(prefix, B, B', q, r);
      if r == q {
        RootedKey(prefix, B, B', q, [DIR_HOLDER]);
      } else {
        BelowHolder(q, r);
        RootGone(prefix, B, B', q, r + [DIR_HOLDER]);
      }
    }
  }

  /** The node of a holder of the root itself is none. */
  lemma TopNode(prefix: string, B: Objects, u: Path)
    requires PrefixOk(prefix) && WellKept(BaseKey(prefix), B) && BareRoot(prefix, B) && u != [] && ValidPath(u)
    ensures u == [DIR_HOLDER] ==> HasSuffix(Key(prefix, u), DIR_HOLDER) && NodeAt(prefix, B, u) == None
  {
    hide TreeOf, WellKept, Key;
    SuffixOfKey(prefix, u);
    SelfSuffix();
    TreeAt(prefix, B, u);
  }

  // ---------------------------------------------------------------- Rename of the root

  /** Nothing at the source: the new holder is all there is to a move. */
  lemma EmptyMove(B: Objects, K: string, N: string)
    requires !Occupied(B, K) && K != "" && N != "" && Fresh(B, N)
    ensures IsAllMoved(B, B[Holder(N) := []], K, N)
  {
    hide Stray;
    HolderAtMoved(K, N);
    SelfBelow(K);
    forall k ensures Get(B[Holder(N) := []], k) == AllMoved(B, K, N, k) {
      if AtOrBelow(N, k) {
        MovedBack(N, K, k);
        assert AtOrBelow(K, Moved(N, K, k));
      }
    }
  }

  lemma RootSeen(prefix: string, B: Objects)
    requires PrefixOk(prefix) && !RootPrefix(prefix) && WellKept(BaseKey(prefix), B) && TreeOf(prefix, B) != map[]
    ensures Seen(B, BaseKey(prefix))
  {
    hide TreeOf, WellKept, Key, HasSuffix;
    var p :| p in TreeOf(prefix, B);
    TreePath(prefix, B, p);
    TreeAt(prefix, B, p);
    RootBase(prefix);
    RootSlashed(prefix, p);
    HolderStarts(Key(prefix, p));
  }

  lemma RootMovable(prefix: string, B: Objects, q: Path)
    requires PrefixOk(prefix) && !RootPrefix(prefix) && UserPath(q) && |q| == 1 && WellKept(BaseKey(prefix), B)
    requires BareRoot(prefix, B) && q !in TreeOf(prefix, B)
    ensures var base, N := BaseKey(prefix), Key(prefix, q);
      && base != "" && N != "" && Fresh(B, N) && Whole(B, base) && Above(base, N) && !AtOrBelow(N, base)
      && N != Holder(base)
  {
    hide TreeOf, WellKept, Key, HasSuffix, Whole, BareRoot;
    var base, N := BaseKey(prefix), Key(prefix, q);
    UserValid(q);
    RootBase(prefix);
    KeyInside(prefix, q);
    AbsentFresh(prefix, B, q);
    RootWhole(prefix, B);
    NotBelowAbove(base, N);
    UserKey(prefix, q);
    HolderIsChild(base);
  }

  /** In a tree in which no name starts with another, everything but the new place can be moved there. */
  lemma RootGoes(prefix: string, order: Order, B: Objects, q: Path)
    requires PrefixOk(prefix) && !RootPrefix(prefix) && UserPath(q) && |q| == 1 && WellKept(BaseKey(prefix), B)
    requires BareRoot(prefix, B) && q !in TreeOf(prefix, B) && TreeClear(TreeOf(prefix, B), [])
    ensures Goes(order, B, BaseKey(prefix), Key(prefix, q))
  {
    hide TreeOf, WellKept, Key, HasSuffix, Whole, Goes, Read, Children, ClearBelow, TreeClear, Child, Above, BareRoot;
    var base, N := BaseKey(prefix), Key(prefix, q);
    UserValid(q);
    RootMovable(prefix, B, q);
    BareRootIs(prefix, B);
    RootKey(prefix);
    TreeClearBelow(prefix, B, []) by { assert [DIR_HOLDER] !in TreeOf(prefix, B) by { BareRootHolder(prefix, B); } }
    KeptKeys(base, B);
    RootProper(base);
    ClearPasses(base, order, B, base);
    GoesIs(base, order, B, base, N);
    SelfBelow(base);
    ReadLists(base, order, B, base);
    forall i | i in Read(order, B, base) ensures !AtOrBelow(Child(base, i.name), N) {
      ListsMember(Read(order, B, base), Children(B, base), i);
      EntryAside(prefix, B, q, i);
    }
  }

  lemma BareRootHolder(prefix: string, B: Objects)
    requires BareRoot(prefix, B)
    ensures [DIR_HOLDER] !in TreeOf(prefix, B)
  {
  }

  lemma RootProper(base: string)
    requires base != ""
    ensures Proper(base, base)
  {
  }

  /** No entry of the root leads to a place in the root that is not there. */
  lemma EntryAside(prefix: string, B: Objects, q: Path, i: Info)
    requires PrefixOk(prefix) && !RootPrefix(prefix) && UserPath(q) && |q| == 1 && WellKept(BaseKey(prefix), B)
    requires Fresh(B, Key(prefix, q)) && i in Children(B, BaseKey(prefix))
    ensures !AtOrBelow(Child(BaseKey(prefix), i.name), Key(prefix, q))
  {
    hide WellKept, Key, HasSuffix, Child, Children, UserPath;
    var base, N := BaseKey(prefix), Key(prefix, q);
    UserValid(q);
    KeptKeys(base, B);
    SelfBelow(base);
    ChildEntry(base, B, base, i);
    var e := [i.name];
    RootKey(prefix);
    KeyChild(prefix, [], i.name);
    assert [] + [i.name] == e;
    KeyBelow(prefix, e, q);
    assert e <= q ==> e == q;
    SelfBelow(N);
  }

  /** Rename of the root, by a name that is not refused, to a new place in the root: with no failing call the answer
      is nil exactly if nothing is blocked, and then everything is in the new directory and the bucket well kept. */
  lemma RootMoved(prefix: string, order: Order, oldName: string, newName: string, B: Objects, B': Objects,
                  err: Option<Error>)
    requires PrefixOk(prefix) && !RootPrefix(prefix) && NameOk(prefix, oldName) && NameOk(prefix, newName)
    requires Parts(oldName) == [] && |Parts(newName)| == 1 && UserPath(Parts(newName)) && !Refused(oldName, newName)
    requires WellKept(BaseKey(prefix), B) && BareRoot(prefix, B)
    requires var t, q := TreeOf(prefix, B), Parts(newName);
      q !in t && !Shadowed(t, q) && (oldName == "." || t != map[])
    requires RenameDone(prefix, order, oldName, newName, B, B', false, false, err)
    ensures err.None? <==> Goes(order, B, BaseKey(prefix), KeyOf(prefix, newName))
    ensures err.None? ==>
      && WellKept(BaseKey(prefix), B')
      && TreeOf(prefix, B') == Graft(TreeOf(prefix, B), Parts(newName))[Parts(newName) := Dir]
    ensures TreeClear(TreeOf(prefix, B), []) ==> err.None?
  {
    hide TreeOf, WellKept, Key, KeyOf, Parts, HasSuffix, Shadowed, Seen, Goes, Refused, NameOk, TreeClear, BareRoot,
      UserPath, Whole, Fresh, Occupied, IsAllMoved, Renamed, RenameDone, Holder, Above, AtOrBelow, Way, Graft, BaseKey;
    var t, q, base, N := TreeOf(prefix, B), Parts(newName), BaseKey(prefix), KeyOf(prefix, newName);
    BelowNames(prefix, oldName, newName, B);
    RootKey(prefix);
    UserValid(q);
    DoneRenamed(prefix, order, oldName, newName, B, B', err);
    SourceSeen(prefix, B, q);
    RootMovable(prefix, B, q);
    BareRootIs(prefix, B);
    if t != map[] { RootSeen(prefix, B); }
    RootAnswered(prefix, order, oldName, newName, B, B', err);
    if TreeClear(t, []) {
      RootGoes(prefix, order, B, q);
    }
    if err.None? {
      assert q == [q[0]];
      RootKept(prefix, B, B', q[0]);
      RootGrafts(prefix, B, B', q);
    }
  }

  lemma RootAnswered(prefix: string, order: Order, oldName: string, newName: string, B: Objects, B': Objects,
                     err: Option<Error>)
    requires Parts(newName) != [] && Renamed(prefix, order, oldName, newName, B, B', false, false, err)
    requires PrefixOk(prefix) && |Parts(newName)| == 1 && ValidKeys(BaseKey(prefix), B)
    requires var K, N := KeyOf(prefix, oldName), KeyOf(prefix, newName);
      && K == BaseKey(prefix) && K !in B && !Seen(B, N) && (oldName == "." || Seen(B, K)) && Above(K, N)
      && Way(K, N) == N && N != "" && K != "" && Fresh(B, N) && Whole(B, K) && !AtOrBelow(N, K) && N != Holder(K)
    ensures err.None? <==> Goes(order, B, KeyOf(prefix, oldName), KeyOf(prefix, newName))
    ensures err.None? ==> IsAllMoved(B, B', KeyOf(prefix, oldName), KeyOf(prefix, newName))
  {
    hide KeyOf, Parts, Seen, Goes, Whole, Fresh, Occupied, IsAllMoved, Above, AtOrBelow, Way, ValidKeys, Holder,
      Conserved, Tidy, FilesKept, Shallow, Framed, Mixed, Read, BaseKey;
    var K, N := KeyOf(prefix, oldName), KeyOf(prefix, newName);
    FreshNot(B, N);
    if !Occupied(B, K) {
      SelfBelow(K);
      EmptyRead(BaseKey(prefix), order, B, K);
      EmptyMove(B, K, N);
      assert Goes(order, B, K, N) by { NoneGoes(order, B, K, N); }
    }
  }

  lemma FreshNot(B: Objects, N: string)
    requires Fresh(B, N)
    ensures N !in B
  {
    SelfBelow(N);
  }

  lemma NoneGoes(order: Order, B: Objects, K: string, N: string)
    requires Read(order, B, K) == []
    ensures Goes(order, B, K, N)
  {
  }
}
