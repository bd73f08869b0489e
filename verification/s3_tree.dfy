/**
 The tree a bucket stands for, and when the S3 file system answers and acts as on that tree.
 */
module S3Tree {
  import opened Data
  import opened GoPath
  import opened Tree
  import opened S3Keys
  import opened S3Client
  import opened S3Invariant
  import opened S3Moves

  // ---------------------------------------------------------------- keys and paths

  function LastName(p: Path): string
    requires p != []
  {
    p[|p| - 1]
  }

  /** A path users may name: its last name does not end like a holder's. */
  predicate UserPath(p: Path) {
    p != [] && ValidPath(p) && !HasSuffix(LastName(p), DIR_HOLDER)
  }

  function PathOf(prefix: string, k: string): Path
    requires Above(BaseKey(prefix), k)
  {
    Split(Rest(BaseKey(prefix), k))
  }

  lemma KeyOfPath(prefix: string, k: string)
    requires PrefixOk(prefix) && Above(BaseKey(prefix), k) && KeyOk(BaseKey(prefix), k)
    ensures PathOf(prefix, k) != [] && ValidPath(PathOf(prefix, k)) && Key(prefix, PathOf(prefix, k)) == k
  {
    PrefixPartsValid(prefix);
    var base := BaseKey(prefix);
    var p := PathOf(prefix, k);
    JoinSplit(Rest(base, k));
    assert k == Slash(base) + Rest(base, k);
    var q := PrefixParts(prefix);
    if q == [] {
      assert q + p == p;
    } else {
      JoinHead(q);
      JoinConcat(q, p);
    }
  }

  lemma KeyIsSlashed(prefix: string, p: Path)
    requires PrefixOk(prefix) && ValidPath(p) && p != []
    ensures Key(prefix, p) == Slash(BaseKey(prefix)) + Join(p)
    ensures PathOf(prefix, Key(prefix, p)) == p
  {
    PathKeyOk(prefix, p);
    var k, b := Key(prefix, p), BaseKey(prefix);
    assert k == Slash(b) + Rest(b, k);
  }

  lemma SuffixOfKey(prefix: string, p: Path)
    requires PrefixOk(prefix) && ValidPath(p) && p != []
    ensures HasSuffix(Key(prefix, p), DIR_HOLDER) <==> HasSuffix(LastName(p), DIR_HOLDER)
  {
    var front, c := Parent(p), LastName(p);
    assert p == front + [c] && c in p;
    KeyChild(prefix, front, c);
    SlashEnds(Key(prefix, front));
    SuffixOfTail(Slash(Key(prefix, front)), c);
  }

  lemma SlashEnds(d: string)
    ensures Slash(d) == "" || Slash(d)[|Slash(d)| - 1] == '/'
  {
  }

  lemma HolderKey(prefix: string, p: Path)
    requires PrefixOk(prefix) && ValidPath(p)
    ensures Holder(Key(prefix, p)) == Key(prefix, p + [DIR_HOLDER])
    ensures ValidPath(p + [DIR_HOLDER])
  {
    KeyChild(prefix, p, DIR_HOLDER);
  }

  // ---------------------------------------------------------------- the tree of a bucket

  function NodeAt(prefix: string, B: Objects, p: Path): Option<Node> {
    var K := Key(prefix, p);
    if K in B && !HasSuffix(K, DIR_HOLDER) then Some(File(B[K]))
    else if Holder(K) in B then Some(Dir)
    else None
  }

  /** The path whose node the key k stands for: a holder stands for its directory. */
  function NodePath(prefix: string, k: string): Path
    requires Above(BaseKey(prefix), k)
  {
    var p := PathOf(prefix, k);
    if LastName(p) == DIR_HOLDER then Parent(p) else p
  }

  function NodePaths(prefix: string, B: Objects): set<Path> {
    set k | k in B && Above(BaseKey(prefix), k) :: NodePath(prefix, k)
  }

  function TreeOf(prefix: string, B: Objects): Tree {
    map p | p in NodePaths(prefix, B) && NodeAt(prefix, B, p) != None :: NodeAt(prefix, B, p).value
  }

  lemma TreeAt(prefix: string, B: Objects, p: Path)
    requires PrefixOk(prefix) && WellKept(BaseKey(prefix), B) && ValidPath(p) && p != []
    ensures p in TreeOf(prefix, B) <==> NodeAt(prefix, B, p) != None
    ensures p in TreeOf(prefix, B) ==> NodeAt(prefix, B, p) == Some(TreeOf(prefix, B)[p])
  {
    hide Key, BaseKey, WellKept, Holder, PathOf, Split, HasSuffix;
    var K := Key(prefix, p);
    KeyIsSlashed(prefix, p);
    PathKeyOk(prefix, p);
    HolderKey(prefix, p);
    var h := Holder(K);
    KeyIsSlashed(prefix, p + [DIR_HOLDER]);
    PathKeyOk(prefix, p + [DIR_HOLDER]);
    assert Parent(p + [DIR_HOLDER]) == p;
    if K in B && !HasSuffix(K, DIR_HOLDER) {
      SuffixOfKey(prefix, p);
      SelfSuffix();
      assert NodePath(prefix, K) == p;
      assert p in NodePaths(prefix, B);
    } else if h in B {
      assert NodePath(prefix, h) == p;
      assert p in NodePaths(prefix, B);
    }
  }

  lemma SelfSuffix()
    ensures HasSuffix(DIR_HOLDER, DIR_HOLDER)
  {
  }

  lemma TreePath(prefix: string, B: Objects, p: Path)
    requires PrefixOk(prefix) && WellKept(BaseKey(prefix), B) && p in TreeOf(prefix, B)
    ensures p != [] && ValidPath(p)
  {
    hide Key, BaseKey, Holder, PathOf, Held;
    var k :| k in B && Above(BaseKey(prefix), k) && p == NodePath(prefix, k);
    KeyOfPath(prefix, k);
    var s := PathOf(prefix, k);
    if LastName(s) == DIR_HOLDER {
      SelfSuffix();
      SuffixOfKey(prefix, s);
      var d :| Inside(BaseKey(prefix), d) && k == Holder(d);
      HolderDeep(prefix, d, s);
    }
  }

  /** The path of a holder is longer than one name. */
  lemma HolderDeep(prefix: string, d: string, s: Path)
    requires PrefixOk(prefix) && ValidPath(s) && s != [] && Inside(BaseKey(prefix), d)
    requires Key(prefix, s) == Holder(d)
    ensures |s| > 1
  {
    if |s| == 1 {
      assert s == [] + [s[0]];
      assert s[0] in s;
      KeyChild(prefix, [], s[0]);
      var base := BaseKey(prefix);
      assert PrefixParts(prefix) + [] == PrefixParts(prefix);
      AboveChild(d, base, s[0]);
      HolderIsChild(d);
    }
  }

  lemma TreeEq(prefix: string, B: Objects, t: Tree)
    requires PrefixOk(prefix) && WellKept(BaseKey(prefix), B)
    requires forall p :: p in t ==> p != [] && ValidPath(p)
    requires forall p {:trigger NodeAt(prefix, B, p)} :: p != [] && ValidPath(p) ==>
      NodeAt(prefix, B, p) == if p in t then Some(t[p]) else None
    ensures TreeOf(prefix, B) == t
  {
    hide NodeAt, WellKept, NodePaths;
    var t' := TreeOf(prefix, B);
    forall p ensures (p in t' <==> p in t) && (p in t ==> t'[p] == t[p]) {
      if p in t' {
        TreePath(prefix, B, p);
      }
      if p != [] && ValidPath(p) {
        TreeAt(prefix, B, p);
      }
    }
  }

  /** A well-kept bucket stands for a well-formed tree. */
  lemma TreeWellFormed(prefix: string, B: Objects)
    requires PrefixOk(prefix) && WellKept(BaseKey(prefix), B)
    ensures WellFormed(TreeOf(prefix, B))
  {
    hide TreeOf, WellKept;
    var t := TreeOf(prefix, B);
    forall p | p in t ensures p != [] && ValidPath(p) && forall q :: q < p ==> HasDir(t, q) {
      TreePath(prefix, B, p);
      forall q | q < p ensures HasDir(t, q) {
        if q != [] {
          AboveIsDir(prefix, B, q, p);
        }
      }
    }
  }

  lemma AboveIsDir(prefix: string, B: Objects, q: Path, p: Path)
    requires PrefixOk(prefix) && WellKept(BaseKey(prefix), B) && p in TreeOf(prefix, B) && q < p && q != []
    ensures HasDir(TreeOf(prefix, B), q)
  {
    hide TreeOf, ValidKeys, NoStrayHolder, Key, BaseKey, Holder, HasSuffix;
    TreePath(prefix, B, p);
    TreeAt(prefix, B, p);
    ValidPrefix(q, p);
    TreeAt(prefix, B, q);
    KeyBelow(prefix, q, p);
    HolderKey(prefix, p);
    KeyBelow(prefix, q, p + [DIR_HOLDER]);
    KeyInside(prefix, q);
    assert Above(Key(prefix, q), Key(prefix, p)) && Above(Key(prefix, q), Holder(Key(prefix, p)));
  }

  lemma ValidPrefix(q: Path, p: Path)
    requires q <= p && ValidPath(p)
    ensures ValidPath(q) && ValidPath(p[|q|..])
  {
    assert forall c :: c in q ==> c in p;
    assert forall c :: c in p[|q|..] ==> c in p;
  }

  // ---------------------------------------------------------------- shadows

  /** p is absent, but something next to where it would be, an entry or a holder, has a longer name
      that starts with p's. */
  ghost predicate Shadowed(t: Tree, p: Path)
    requires p != []
  {
    && p !in t
    && ((exists r :: r in t && Longer(r, p)) || (|p| > 1 && HasDir(t, Parent(p)) && LastName(p) < DIR_HOLDER))
  }

  predicate Longer(r: Path, p: Path)
    requires p != []
  {
    |r| == |p| && Parent(r) == Parent(p) && LastName(p) < LastName(r)
  }

  lemma FirstNames(a: string, b: string, x: string, y: string)
    requires NoSlash(a) && NoSlash(b)
    ensures a + "/" + x <= b + "/" + y <==> a == b && x <= y
  {
    var s, t := a + "/" + x, b + "/" + y;
    if s <= t {
      assert s == t[..|s|];
      assert s[|a|] == '/' && t[|b|] == '/' && t[|a|] == '/';
      assert |a| == |b|;
      assert a == s[..|a|] == t[..|a|] == b;
      assert x == s[|a| + 1..] && y == t[|a| + 1..];
      assert x == y[..|x|];
    }
  }

  /** p is s, cut off inside its last name. */
  predicate CutOff(p: Path, s: Path)
    requires p != []
  {
    |p| <= |s| && Parent(p) == s[..|p| - 1] && LastName(p) <= s[|p| - 1]
  }

  lemma CutOffTail(p: Path, s: Path)
    requires |p| > 1 && |s| > 1
    ensures CutOff(p, s) <==> p[0] == s[0] && CutOff(p[1..], s[1..])
  {
    if |p| <= |s| {
      assert Parent(p) == [p[0]] + Parent(p[1..]);
      assert s[..|p| - 1] == [s[0]] + s[1..][..|p| - 2];
      assert [p[0]] + Parent(p[1..]) == [s[0]] + s[1..][..|p| - 2] <==>
        p[0] == s[0] && Parent(p[1..]) == s[1..][..|p| - 2] by {
        Heads(p[0], Parent(p[1..]), s[0], s[1..][..|p| - 2]);
      }
    }
  }

  lemma Heads(a: string, x: Path, b: string, y: Path)
    ensures [a] + x == [b] + y <==> a == b && x == y
  {
    assert ([a] + x)[0] == a && ([a] + x)[1..] == x;
    assert ([b] + y)[0] == b && ([b] + y)[1..] == y;
  }

  lemma {:induction false} JoinPrefix(p: Path, s: Path)
    requires ValidPath(p) && ValidPath(s) && p != [] && s != []
    ensures Join(p) <= Join(s) <==> CutOff(p, s)
  {
    hide CutOff;
    assert p[0] in p && s[0] in s;
    if |p| == 1 {
      JoinPrefixOne(p[0], s);
      CutOffOne(p, s);
    } else if |s| == 1 {
      LongerPath(p, s);
      var i := |p[0]|;
      assert Join(p)[i] == '/';
      assert i < |s[0]| ==> s[0][i] in s[0];
    } else {
      TailValid(p);
      TailValid(s);
      JoinPrefix(p[1..], s[1..]);
      CutOffTail(p, s);
      FirstNames(p[0], s[0], Join(p[1..]), Join(s[1..]));
    }
  }

  lemma CutOffOne(p: Path, s: Path)
    requires |p| == 1 && s != []
    ensures CutOff(p, s) <==> p[0] <= s[0]
  {
  }

  lemma LongerPath(p: Path, s: Path)
    requires |p| > |s|
    ensures !CutOff(p, s)
  {
  }

  lemma TailValid(p: Path)
    requires ValidPath(p) && p != []
    ensures ValidPath(p[1..])
  {
    assert forall c :: c in p[1..] ==> c in p;
  }

  lemma JoinPrefixOne(c: string, s: Path)
    requires NoSlash(c) && s != [] && NoSlash(s[0])
    ensures c <= Join(s) <==> c <= s[0]
  {
    if |s| > 1 {
      assert Join(s) == s[0] + "/" + Join(s[1..]);
      var i := |s[0]|;
      assert Join(s)[i] == '/';
      assert i < |c| ==> c[i] in c;
    }
  }

  lemma KeyPrefix(prefix: string, p: Path, s: Path)
    requires PrefixOk(prefix) && ValidPath(p) && ValidPath(s) && p != [] && s != []
    ensures Key(prefix, p) <= Key(prefix, s) <==> CutOff(p, s)
  {
    hide ValidPath, PrefixOk, Key;
    KeyIsSlashed(prefix, p);
    KeyIsSlashed(prefix, s);
    JoinPrefix(p, s);
    var b := Slash(BaseKey(prefix));
    if b + Join(p) <= b + Join(s) {
      assert Join(p) == (b + Join(p))[|b|..] == (b + Join(s))[..|b + Join(p)|][|b|..];
    }
  }

  /** What makes Stat find something: a node, or a shadow. */
  lemma SeenIff(prefix: string, B: Objects, p: Path)
    requires PrefixOk(prefix) && WellKept(BaseKey(prefix), B) && UserPath(p)
    ensures Seen(B, Key(prefix, p)) <==> p in TreeOf(prefix, B) || Shadowed(TreeOf(prefix, B), p)
  {
    hide TreeOf, WellKept, ValidPath, Key, PrefixOk, BaseKey;
    var t, K := TreeOf(prefix, B), Key(prefix, p);
    if Seen(B, K) {
      var k :| k in B && K <= k;
      SeenIsNode(prefix, B, p, k);
    }
    if p in t {
      NodeSeen(prefix, B, p, p);
    }
    if Shadowed(t, p) {
      if r :| r in t && Longer(r, p) {
        TreePath(prefix, B, r);
        KeyPrefix(prefix, p, r);
        NodeSeen(prefix, B, p, r);
      } else {
        HolderSeen(prefix, B, p);
      }
    }
  }

  lemma NodeSeen(prefix: string, B: Objects, p: Path, r: Path)
    requires PrefixOk(prefix) && WellKept(BaseKey(prefix), B)
    requires r in TreeOf(prefix, B) && Key(prefix, p) <= Key(prefix, r)
    ensures Seen(B, Key(prefix, p))
  {
    hide TreeOf, WellKept, ValidPath, Key, PrefixOk, BaseKey;
    TreePath(prefix, B, r);
    TreeAt(prefix, B, r);
    var K, R := Key(prefix, p), Key(prefix, r);
    assert K <= R && K <= Holder(R);
  }

  /** The holder of a directory, seen by a name next to it. */
  lemma HolderSeen(prefix: string, B: Objects, p: Path)
    requires PrefixOk(prefix) && WellKept(BaseKey(prefix), B) && UserPath(p)
    requires |p| > 1 && HasDir(TreeOf(prefix, B), Parent(p)) && LastName(p) < DIR_HOLDER
    ensures Seen(B, Key(prefix, p))
  {
    hide TreeOf, WellKept, Key, PrefixOk, BaseKey, Holder;
    var d := Parent(p);
    TreePath(prefix, B, d);
    TreeAt(prefix, B, d);
    HolderKey(prefix, d);
    KeyPrefix(prefix, p, d + [DIR_HOLDER]);
    assert Holder(Key(prefix, d)) in B;
  }

  lemma SeenIsNode(prefix: string, B: Objects, p: Path, k: string)
    requires PrefixOk(prefix) && WellKept(BaseKey(prefix), B) && UserPath(p)
    requires k in B && Key(prefix, p) <= k
    ensures p in TreeOf(prefix, B) || Shadowed(TreeOf(prefix, B), p)
  {
    hide TreeOf, WellKept, HasSuffix, Key, PrefixOk, BaseKey, ValidPath, PathOf, HasDir, CutOff;
    var t, K, base := TreeOf(prefix, B), Key(prefix, p), BaseKey(prefix);
    KeyInside(prefix, p);
    InsideAbove(base, K);
    AbovePrefix(base, K, k);
    WellKeptKey(base, B, k);
    KeyOfPath(prefix, k);
    var s := PathOf(prefix, k);
    KeyPrefix(prefix, p, s);
    CutAt(p, s);
    var r := s[..|p|];
    NodeBelow(prefix, B, r, s);
    SelfSuffix();
    LongerOrSame(p, r);
  }

  lemma CutAt(p: Path, s: Path)
    requires p != [] && CutOff(p, s)
    ensures |p| <= |s| && s[..|p|] <= s && s[..|p|] != []
    ensures Parent(s[..|p|]) == Parent(p) && LastName(p) <= LastName(s[..|p|])
  {
  }

  /** Of two names next to each other, one starting with the other, the second is the same or longer. */
  lemma LongerOrSame(p: Path, r: Path)
    requires p != [] && r != [] && Parent(r) == Parent(p) && LastName(p) <= LastName(r)
    ensures |r| == |p| && (r == p || Longer(r, p))
  {
    assert |Parent(p)| == |p| - 1 && |Parent(r)| == |r| - 1;
    if LastName(p) == LastName(r) {
      assert p == Parent(p) + [LastName(p)] && r == Parent(r) + [LastName(r)];
    }
  }

  lemma AbovePrefix(base: string, K: string, k: string)
    requires Above(base, K) && K <= k
    ensures Above(base, k)
  {
  }

  lemma WellKeptKey(base: string, B: Objects, k: string)
    requires WellKept(base, B) && k in B
    ensures KeyOk(base, k)
  {
  }

  /** The path of a key, and each path above it, is a node, unless it is a holder's own. */
  lemma NodeBelow(prefix: string, B: Objects, r: Path, s: Path)
    requires PrefixOk(prefix) && WellKept(BaseKey(prefix), B) && ValidPath(s) && r <= s && r != []
    requires Key(prefix, s) in B
    ensures r in TreeOf(prefix, B) ||
      (r == s && LastName(r) == DIR_HOLDER && Parent(r) != [] && HasDir(TreeOf(prefix, B), Parent(r)))
  {
    hide TreeOf, ValidKeys, Key, BaseKey, Holder;
    var t, k := TreeOf(prefix, B), Key(prefix, s);
    ValidPrefix(r, s);
    TreeAt(prefix, B, r);
    KeyInside(prefix, r);
    KeyBelow(prefix, r, s);
    KeyInside(prefix, s);
    if r != s {
      assert Above(Key(prefix, r), k);
    } else if HasSuffix(k, DIR_HOLDER) {
      InsideAbove(BaseKey(prefix), k);
      var d :| Inside(BaseKey(prefix), d) && k == Holder(d);
      StrayIsHolder(prefix, B, s, d);
    }
  }

  lemma InsideAbove(base: string, k: string)
    ensures Inside(base, k) ==> Above(base, k)
  {
  }

  lemma StrayIsHolder(prefix: string, B: Objects, s: Path, d: string)
    requires PrefixOk(prefix) && WellKept(BaseKey(prefix), B) && ValidPath(s) && s != []
    requires Inside(BaseKey(prefix), d) && Key(prefix, s) == Holder(d) && Key(prefix, s) in B
    ensures LastName(s) == DIR_HOLDER && Parent(s) != [] && HasDir(TreeOf(prefix, B), Parent(s))
  {
    hide TreeOf, WellKept, Last, Key;
    HolderDeep(prefix, d, s);
    var front, c := Parent(s), LastName(s);
    assert s == front + [c] && c in s;
    ValidPrefix(front, s);
    KeyChild(prefix, front, c);
    SameLast(d, Key(prefix, front), c);
    KeyInside(prefix, front);
    TreeAt(prefix, B, front);
    NoFileAbove(prefix, B, front);
  }

  lemma SameLast(d: string, e: string, c: string)
    requires NoSlash(c) && Child(e, c) == Holder(d)
    ensures c == DIR_HOLDER
  {
    hide Last;
    SlashEnds(d);
    SlashEnds(e);
    LastIs(Slash(d), DIR_HOLDER);
    LastIs(Slash(e), c);
  }

  lemma NoFileAbove(prefix: string, B: Objects, p: Path)
    requires PrefixOk(prefix) && WellKept(BaseKey(prefix), B) && ValidPath(p) && p != []
    requires Holder(Key(prefix, p)) in B
    ensures Key(prefix, p) !in B && NodeAt(prefix, B, p) == Some(Dir)
  {
    KeyInside(prefix, p);
    var K := Key(prefix, p);
    assert Above(K, Holder(K));
  }
}
