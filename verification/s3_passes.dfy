/**
 When the move of a directory goes through: Rename makes each directory below the new place by Mkdir,
 which refuses a name that something already there starts with.
 */
module S3Passes {
  import opened Data
  import opened GoPath
  import opened S3Keys
  import opened S3Client
  import opened S3Invariant
  import opened S3Moves
  import opened S3Status
  import opened S3Removal
  import opened S3Rename

  /** The i-th entry is not a beginning of the holder's name, nor of an entry before it. */
  predicate Unblocked(infos: seq<Info>, i: nat)
    requires i < |infos|
  {
    !(infos[i].name <= DIR_HOLDER) && forall j :: 0 <= j < i ==> !(infos[i].name <= infos[j].name)
  }

  /** No directory below K is blocked, in the order in which the directories list their entries. */
  ghost predicate Passes(order: Order, B: Objects, K: string)
    decreases Tall(B, K)
  {
    var infos := Read(order, B, K);
    forall i :: 0 <= i < |infos| && infos[i].DirInfo? ==>
      && Unblocked(infos, i)
      && Tall(B, Child(K, infos[i].name)) < Tall(B, K)
      && Passes(order, B, Child(K, infos[i].name))
  }

  /** The i-th entry of K can be moved into N: it is not on the way to N, and nothing in it is blocked. */
  ghost predicate EntryGoes(order: Order, B: Objects, K: string, N: string, i: nat)
    requires i < |Read(order, B, K)|
  {
    var infos := Read(order, B, K);
    && !AtOrBelow(Child(K, infos[i].name), N)
    && (infos[i].DirInfo? ==> Unblocked(infos, i) && Passes(order, B, Child(K, infos[i].name)))
  }

  ghost predicate Goes(order: Order, B: Objects, K: string, N: string) {
    forall i :: 0 <= i < |Read(order, B, K)| ==> EntryGoes(order, B, K, N, i)
  }

  lemma EntryTall(base: string, B: Objects, K: string, i: Info)
    requires ValidKeys(base, B) && Proper(base, K) && i in Children(B, K)
    ensures ValidName(i.name) && Tall(B, Child(K, i.name)) < Tall(B, K)
  {
    hide ValidKeys, Tall;
    ChildEntry(base, B, K, i);
    NameNotEmpty(i.name);
    var k0 :| k0 in B && Above(K, k0) && !Hidden(K, k0) && i == InfoOf(B, K, k0);
    AboveChild(K, K, i.name);
    forall k | k in B && Above(Child(K, i.name), k) ensures Depth(k) <= Depth(K) + Tall(B, K) {
      AboveTransitive(K, Child(K, i.name), k);
      TallBound(B, K, k);
    }
    TallChild(B, B, K, i.name, k0);
  }

  /** All entries go exactly when the directory passes and none of them leads to N. */
  lemma GoesIs(base: string, order: Order, B: Objects, K: string, N: string)
    requires ValidKeys(base, B) && Proper(base, K)
    ensures Goes(order, B, K, N) <==>
      Passes(order, B, K) && forall i :: i in Read(order, B, K) ==> !AtOrBelow(Child(K, i.name), N)
  {
    hide ValidKeys, Read, Children, Tall, Unblocked;
    var infos := Read(order, B, K);
    ReadLists(base, order, B, K);
    forall i | 0 <= i < |infos| ensures Tall(B, Child(K, infos[i].name)) < Tall(B, K) {
      assert infos[i] in infos;
      EntryTall(base, B, K, infos[i]);
    }
    if Goes(order, B, K, N) {
      forall i | i in infos ensures !AtOrBelow(Child(K, i.name), N) {
        var j :| 0 <= j < |infos| && infos[j] == i;
        assert EntryGoes(order, B, K, N, j);
      }
      forall i | 0 <= i < |infos| && infos[i].DirInfo?
        ensures Unblocked(infos, i) && Passes(order, B, Child(K, infos[i].name))
      {
        assert EntryGoes(order, B, K, N, i);
      }
    }
    if Passes(order, B, K) && forall i :: i in infos ==> !AtOrBelow(Child(K, i.name), N) {
      forall i | 0 <= i < |infos| ensures EntryGoes(order, B, K, N, i) {
        assert infos[i] in infos;
      }
    }
  }

  lemma SameBelow(B: Objects, B1: Objects, K: string)
    requires forall k :: Above(K, k) ==> Get(B1, k) == Get(B, k)
    ensures KeysBelow(B1, K) == KeysBelow(B, K) && Tall(B1, K) == Tall(B, K)
    ensures forall k :: Above(K, k) ==> (k in B <==> k in B1) && (k in B ==> B1[k] == B[k])
  {
    forall k | Above(K, k) ensures (k in B <==> k in B1) && (k in B ==> B1[k] == B[k]) {
      assert Get(B1, k) == Get(B, k);
    }
    assert KeysBelow(B1, K) == KeysBelow(B, K);
  }

  lemma ChildBelow(K: string, x: string, k: string)
    requires x != "" && Above(Child(K, x), k)
    ensures Above(K, k)
  {
    ChildSplits(K, x, k);
  }

  /** Whether a directory passes depends on what is below it alone. */
  lemma {:induction false} PassesSame(base: string, order: Order, B: Objects, B1: Objects, K: string)
    requires ValidKeys(base, B) && Proper(base, K) && forall k :: Above(K, k) ==> Get(B1, k) == Get(B, k)
    ensures Passes(order, B1, K) <==> Passes(order, B, K)
    decreases Tall(B, K)
  {
    hide ValidKeys, Read, Children, Tall, Unblocked, Child, Proper;
    ProperIs(base, K);
    SameBelow(B, B1, K);
    ReadSame(order, B, B1, K);
    ReadLists(base, order, B, K);
    var infos := Read(order, B, K);
    forall i | 0 <= i < |infos|
      ensures var c := Child(K, infos[i].name);
        Tall(B1, c) == Tall(B, c) && (Passes(order, B1, c) <==> Passes(order, B, c))
    {
      assert infos[i] in infos;
      var x := infos[i].name;
      EntryTall(base, B, K, infos[i]);
      ProperChild(base, K, x);
      forall k | Above(Child(K, x), k) ensures Get(B1, k) == Get(B, k) {
        ChildBelow(K, x, k);
      }
      SameBelow(B, B1, Child(K, x));
      PassesSame(base, order, B, B1, Child(K, x));
    }
  }

  lemma ProperIs(base: string, K: string)
    requires Proper(base, K)
    ensures AtOrBelow(base, K) && K != ""
  {
  }

  lemma ProperChild(base: string, K: string, x: string)
    requires Proper(base, K) && ValidName(x)
    ensures Proper(base, Child(K, x)) && x != "" && AtOrBelow(base, K)
  {
    AboveChild(K, K, x);
    AboveChild(base, K, x);
  }

  /** With no name below it starting like another, a directory passes in whatever order it is listed. */
  lemma {:induction false} ClearPasses(base: string, order: Order, B: Objects, K: string)
    requires ValidKeys(base, B) && Proper(base, K) && Whole(B, K) && K !in B && ClearBelow(B, K)
    ensures Passes(order, B, K)
    decreases Tall(B, K)
  {
    hide ValidKeys, Read, Children, Tall, Unblocked, Child, Proper, Whole, ClearBelow, Seg;
    var infos := Read(order, B, K);
    ProperIs(base, K);
    ReadLists(base, order, B, K);
    forall n | 0 <= n < |infos| && infos[n].DirInfo?
      ensures Unblocked(infos, n) && Tall(B, Child(K, infos[n].name)) < Tall(B, K)
      ensures Passes(order, B, Child(K, infos[n].name))
    {
      var i := infos[n];
      assert i in infos;
      ListsMember(infos, Children(B, K), i);
      EntryTall(base, B, K, i);
      ProperChild(base, K, i.name);
      WholeEntry(base, B, K, i);
      ClearUnblocked(base, B, K, infos, n);
      ClearChild(B, K, i.name);
      ClearPasses(base, order, B, Child(K, i.name));
    }
  }

  lemma ClearChild(B: Objects, K: string, x: string)
    requires Whole(B, K) && ClearBelow(B, K) && ValidName(x)
    ensures Whole(B, Child(K, x)) && ClearBelow(B, Child(K, x))
  {
    hide Child, ValidName, Holder, Strict, Whole;
    var c := Child(K, x);
    NameNotEmpty(x);
    StrictBelow(B, K, c) by { AboveChild(K, K, x); }
    AboveChild(K, K, x);
    EntryWhole(B, B, K, x);
    forall d, k | Above(c, d) && k in B && Above(d, k) ensures Clear(B, d) && !(d <= Holder(c)) {
      ChildBelow(K, x, d);
      ClearOfHolder(B, c, d, k);
    }
  }

  lemma ClearUnblocked(base: string, B: Objects, K: string, infos: seq<Info>, n: nat)
    requires ValidKeys(base, B) && Proper(base, K) && Whole(B, K) && K !in B && ClearBelow(B, K)
    requires Lists(infos, Children(B, K)) && n < |infos| && infos[n].DirInfo?
    ensures Unblocked(infos, n)
  {
    hide ValidKeys, Children, Child, Proper, Whole, Seg, Stray;
    var i := infos[n];
    assert i in infos;
    WholeEntry(base, B, K, i);
    NameNotEmpty(i.name);
    var c := Child(K, i.name);
    var k0 :| k0 in B && Above(c, k0);
    AboveChild(K, K, i.name);
    assert Clear(B, c);
    if i.name <= DIR_HOLDER {
      ChildStarts(K, i.name, DIR_HOLDER);
      HolderIsChild(K);
    }
    forall j | 0 <= j < n ensures !(i.name <= infos[j].name) {
      assert infos[j] in infos;
      WholeEntry(base, B, K, infos[j]);
      NewName(base, B, K, infos, n);
      NameIn(infos, n, j);
      if i.name <= infos[j].name {
        var k := EntryKey(B, K, infos[j]);
        ChildStarts(K, i.name, infos[j].name);
        ChildPrefix(K, infos[j].name, k);
        OtherChild(K, i.name, infos[j].name, k);
      }
    }
  }

  lemma OtherChild(K: string, x: string, y: string, k: string)
    requires ValidName(x) && ValidName(y) && AtOrBelow(Child(K, x), k) && AtOrBelow(Child(K, y), k)
    ensures x == y
  {
    hide Seg;
    NameNotEmpty(x);
    NameNotEmpty(y);
    SegIsChild(K, x, k);
    SegIsChild(K, y, k);
  }

  // ---------------------------------------------------------------- what is seen at the new place

  /** In the middle of a move a name is seen at the new place exactly when it is a beginning of the
      holder's name or of the name of an entry that has been moved. */
  lemma EntrySeen(base: string, B: Objects, B1: Objects, K: string, N: string, infos: seq<Info>, idx: nat, x: string)
    requires ValidKeys(base, B) && Proper(base, K) && Movable(B, K, N) && K !in B
    requires Lists(infos, Children(B, K)) && idx <= |infos| && ValidName(x)
    requires IsSomeMoved(B, B1, K, N, Names(infos[..idx]))
    ensures Seen(B1, Child(N, x)) <==>
      x <= DIR_HOLDER || exists j :: 0 <= j < idx && x <= infos[j].name
  {
    hide ValidKeys, Proper, Whole, Fresh, Occupied, AtOrBelow, Children, IsSomeMoved, Child, Names, Lists, ValidName;
    var S := Names(infos[..idx]);
    if Seen(B1, Child(N, x)) {
      var k :| k in B1 && Child(N, x) <= k;
      var y := SeenComesFrom(B, B1, K, N, S, x, k);
      if !(x <= DIR_HOLDER) {
        NamedAt(infos, idx, y);
      }
    }
    if x <= DIR_HOLDER {
      HolderSeenAt(B, B1, K, N, S, x);
    }
    if j :| 0 <= j < idx && x <= infos[j].name {
      assert infos[j] in infos;
      ListsMember(infos, Children(B, K), infos[j]);
      NameIn(infos, idx, j);
      MovedSeen(base, B, B1, K, N, S, infos[j], x);
    }
  }

  lemma NamedAt(infos: seq<Info>, idx: nat, y: string)
    requires idx <= |infos| && y in Names(infos[..idx])
    ensures exists j :: 0 <= j < idx && infos[j].name == y
  {
    var i :| i in infos[..idx] && i.name == y;
    var j :| 0 <= j < idx && infos[..idx][j] == i;
  }

  lemma NameIn(infos: seq<Info>, idx: nat, j: nat)
    requires j < idx <= |infos|
    ensures infos[j].name in Names(infos[..idx])
  {
    assert infos[j] in infos[..idx];
  }

  lemma HolderSeenAt(B: Objects, B1: Objects, K: string, N: string, S: set<string>, x: string)
    requires Movable(B, K, N) && K !in B && IsSomeMoved(B, B1, K, N, S) && x <= DIR_HOLDER
    ensures Seen(B1, Child(N, x))
  {
    hide *;
    HolderMoved(B, B1, K, N, S);
    ChildStarts(N, x, DIR_HOLDER);
    HolderIsChild(N);
    SeenBy(B1, Child(N, x), Holder(N));
  }

  lemma MovedSeen(base: string, B: Objects, B1: Objects, K: string, N: string, S: set<string>, i: Info, x: string)
    requires ValidKeys(base, B) && Proper(base, K) && Movable(B, K, N) && K !in B && i in Children(B, K)
    requires IsSomeMoved(B, B1, K, N, S) && i.name in S && x <= i.name
    ensures Seen(B1, Child(N, x))
  {
    hide *;
    MovableIs(B, K, N);
    WholeEntry(base, B, K, i);
    var k := EntryKey(B, K, i);
    MovedThere(B, B1, K, N, S, i.name, k);
    ChildStarts(N, x, i.name);
    ChildPrefix(N, i.name, Moved(K, N, k));
    SeenBy(B1, Child(N, x), Moved(K, N, k));
  }

  lemma MovableIs(B: Objects, K: string, N: string)
    requires Movable(B, K, N)
    ensures K != "" && N != "" && N != Holder(K) && Whole(B, K) && Fresh(B, N) && !AtOrBelow(N, K)
  {
  }

  lemma SeenBy(B: Objects, K: string, k: string)
    requires k in B && K <= k
    ensures Seen(B, K)
  {
  }

  lemma MovedThere(B: Objects, B1: Objects, K: string, N: string, S: set<string>, y: string, k: string)
    requires K != "" && N != "" && ValidName(y) && y in S && IsSomeMoved(B, B1, K, N, S)
    requires k in B && AtOrBelow(Child(K, y), k) && AtOrBelow(K, k) && !Stray(k)
    ensures Moved(K, N, k) in B1 && AtOrBelow(Child(N, y), Moved(K, N, k))
  {
    hide Seg, Stray, Moved, Child, Above, AtOrBelow, Holder;
    NameNotEmpty(y);
    SegIsChild(K, y, k);
    MovedChild(K, N, y, k);
    MovedBack(K, N, k);
    assert Get(B1, Moved(K, N, k)) == SomeMoved(B, K, N, S, Moved(K, N, k));
  }

  /** An entry of a whole directory has a key that a move takes along. */
  lemma EntryKey(B: Objects, K: string, i: Info) returns (k: string)
    requires Whole(B, K) && ValidName(i.name) && K !in B
    requires i.FileInfo? ==> Child(K, i.name) in B && !Stray(Child(K, i.name))
    requires i.DirInfo? ==> exists k :: k in B && Above(Child(K, i.name), k)
    ensures k in B && AtOrBelow(Child(K, i.name), k) && !Stray(k) && AtOrBelow(K, k)
  {
    var c := Child(K, i.name);
    AboveChild(K, K, i.name);
    if i.FileInfo? {
      k := c;
    } else {
      var k0 :| k0 in B && Above(c, k0);
      k := Holder(c);
      HolderNotStray(c);
      HolderIsChild(c);
      assert Get(B, Holder(c)) == Some([]);
      AboveTransitive(K, c, k);
    }
  }

  /** What is at the new place and starts like x comes from an entry whose name does, or is the holder. */
  lemma SeenComesFrom(B: Objects, B1: Objects, K: string, N: string, S: set<string>, x: string,
                      k: string) returns (y: string)
    requires K != "" && N != "" && ValidName(x) && IsSomeMoved(B, B1, K, N, S) && Fresh(B, N)
    requires k in B1 && Child(N, x) <= k
    ensures x <= DIR_HOLDER || (y in S && x <= y)
  {
    hide Stray;
    assert AtOrBelow(N, k) by { assert Slash(N) <= Child(N, x); }
    assert Get(B1, k) == SomeMoved(B, K, N, S, k);
    MovedBack(N, K, k);
    var o := Moved(N, K, k);
    StartsAlike(N, K, x, k);
    HolderSeg(K);
    StartsOf(K, x, o);
    y := Seg(K, o);
    FirstStarts(x, Rest(K, o));
  }

  lemma StartsOf(K: string, x: string, o: string)
    requires Child(K, x) <= o
    ensures Above(K, o) && x <= Rest(K, o)
  {
    assert Slash(K) == Child(K, x)[..|Slash(K)|] == o[..|Slash(K)|];
    assert x == Child(K, x)[|Slash(K)|..] == o[..|Child(K, x)|][|Slash(K)|..];
    assert o[|Slash(K)|..][..|x|] == x;
  }

  lemma FirstStarts(x: string, s: string)
    requires ValidName(x) && x <= s
    ensures x <= Split(s)[0]
  {
    FirstComponent(s);
    var y := Split(s)[0];
    forall i | 0 <= i < |x| ensures s[i] != '/' {
      assert s[i] == x[i] && x[i] in x;
    }
  }
}
