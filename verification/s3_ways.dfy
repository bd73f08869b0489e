/**
 The loop of Rename at an entry that leads to the target, where only one of the names starts at the root, so that
 the guard does not stop it.
 */
module S3Ways {
  import opened Data
  import opened GoPath
  import opened S3Keys
  import opened S3Client
  import opened S3Invariant
  import opened S3Moves
  import opened S3Status
  import opened S3Removal
  import opened S3Rename
  import opened S3Passes
  import opened S3Keeping
  import opened S3Renaming

  /** How often Rename can still call itself for a way to the target. */
  ghost function Turns(oldName: string, newName: string, B: Objects, K: string, N: string): nat {
    if Refused(oldName, newName) || !Mixed(oldName, newName) || !Above(K, N) || (K in B && oldName != ".") then 0
    else 1 + Tall(B, N)
  }

  /** How deep it can still go otherwise. */
  ghost function Levels(oldName: string, newName: string, B: Objects, K: string): nat {
    if Refused(oldName, newName) then 0 else 1 + Tall(B, K)
  }

  // ---------------------------------------------------------------- entries of one name

  /** Of two entries with one name one is a file and one a directory. */
  lemma TwoKinds(base: string, B: Objects, K: string, infos: seq<Info>, i: nat, j: nat)
    requires ValidKeys(base, B) && AtOrBelow(base, K) && Lists(infos, Children(B, K))
    requires i < |infos| && j < |infos| && i != j && infos[i].name == infos[j].name
    ensures infos[i].DirInfo? != infos[j].DirInfo?
    ensures Child(K, infos[i].name) in B && exists k :: k in B && Above(Child(K, infos[i].name), k)
  {
    hide ValidKeys, Children;
    assert infos[i] in infos && infos[j] in infos;
    ChildEntry(base, B, K, infos[i]);
    ChildEntry(base, B, K, infos[j]);
    assert infos[i] != infos[j];
  }

  /** At most two entries have one name. */
  lemma NoThird(base: string, B: Objects, K: string, infos: seq<Info>, i: nat, j: nat, m: nat)
    requires ValidKeys(base, B) && AtOrBelow(base, K) && Lists(infos, Children(B, K))
    requires i < |infos| && j < |infos| && m < |infos| && i != j && j != m && i != m
    ensures !(infos[i].name == infos[j].name == infos[m].name)
  {
    hide ValidKeys, Children, Lists;
    if infos[i].name == infos[j].name == infos[m].name {
      TwoKinds(base, B, K, infos, i, j);
      TwoKinds(base, B, K, infos, j, m);
      TwoKinds(base, B, K, infos, i, m);
    }
  }

  /** The entry that leads to N is the way there. */
  lemma LeadsIsWay(K: string, N: string, x: string)
    requires ValidName(x) && AtOrBelow(Child(K, x), N)
    ensures Above(K, N) && x == Seg(K, N) && Child(K, x) == Way(K, N)
  {
    NameNotEmpty(x);
    SegIsChild(K, x, N);
  }

  /** What the loop finds when it comes to the way: a file, or the target itself, which is then a directory with
      nothing new where the next way would lead. */
  lemma AtWay(prefix: string, order: Order, oldName: string, newName: string, B: Objects, B1: Objects, idx: nat)
    requires PrefixOk(prefix) && NameOk(prefix, oldName) && ValidKeys(BaseKey(prefix), B)
    requires var K, N := KeyOf(prefix, oldName), KeyOf(prefix, newName);
      && idx < |Read(order, B, K)| && Above(K, N) && Read(order, B, K)[idx].name == Seg(K, N)
      && WayKept(order, B, B1, K, N, idx) && Mixed(oldName, newName) && (K !in B || oldName == ".")
      && Bounded(oldName, newName, B, K, N)
    ensures var K, N := KeyOf(prefix, oldName), KeyOf(prefix, newName);
      && (Way(K, N) in B1 || (Way(K, N) == N && exists k :: k in B && Above(N, k)))
      && (forall k :: k in B1 && Above(Child(N, Seg(K, N)), k) ==> k in B)
      && (Way(K, N) in B1 || !Leading(order, B, K, N, idx + 1, |Read(order, B, K)|))
      && (Way(K, N) == N || Way(K, N) in B)
  {
    hide KeyOf, NameOk, BaseKey, PrefixOk, ValidKeys, Read, Children, Seg, Above, AtOrBelow, Get, Child, Lists;
    var K, N, base := KeyOf(prefix, oldName), KeyOf(prefix, newName), BaseKey(prefix);
    var infos := Read(order, B, K);
    NameInside(prefix, oldName);
    ReadLists(base, order, B, K);
    assert infos[idx] in infos by { hide *; }
    ListsMember(infos, Children(B, K), infos[idx]);
    ChildEntry(base, B, K, infos[idx]);
    GetIn(B, Way(K, N));
    GetIn(B1, Way(K, N));
    if Leading(order, B, K, N, 0, idx) {
      var l :| 0 <= l < idx && infos[l].name == Seg(K, N);
      TwoKinds(base, B, K, infos, l, idx);
      if Leading(order, B, K, N, idx + 1, |infos|) {
        var m :| idx + 1 <= m < |infos| && infos[m].name == Seg(K, N);
        NoThird(base, B, K, infos, l, idx, m);
      }
    } else if Leading(order, B, K, N, idx + 1, |infos|) {
      var m :| idx + 1 <= m < |infos| && infos[m].name == Seg(K, N);
      TwoKinds(base, B, K, infos, idx, m);
    }
  }

  /** The call for the way meets what Rename asks for, and has less to do. */
  lemma WayCall(prefix: string, order: Order, oldName: string, newName: string, B: Objects, B1: Objects,
                idx: nat, faulted: bool, blind: bool)
    requires RenameNames(prefix, oldName, newName, B) && !Refused(oldName, newName)
    requires Moving(prefix, order, oldName, newName, B, B1, idx, faulted, blind)
    requires idx < |Read(order, B, KeyOf(prefix, oldName))|
    requires var K, N := KeyOf(prefix, oldName), KeyOf(prefix, newName);
      && Mixed(oldName, newName) && Bounded(oldName, newName, B, K, N)
      && AtOrBelow(Child(K, Read(order, B, K)[idx].name), N)
    ensures var K, N, x := KeyOf(prefix, oldName), KeyOf(prefix, newName),
      Read(order, B, KeyOf(prefix, oldName))[idx].name;
      var full, dest, c, n := PathJoin(oldName, x), PathJoin(newName, x), Child(K, x), Child(N, x);
      && RenameNames(prefix, full, dest, B1) && KeyOf(prefix, full) == c && KeyOf(prefix, dest) == n
      && !Refused(full, dest) && Bounded(full, dest, B1, c, n)
      && Turns(full, dest, B1, c, n) < Turns(oldName, newName, B, K, N)
  {
    hide KeyOf, NameOk, BaseKey, PrefixOk, ValidKeys, Read, Children, Seg, Above, AtOrBelow, Get, Child, Lists, Framed,
      Tall, Parts, Shallow, WayKept, Refused, Mixed, PathJoin, WayThere, DirSource;
    var K, N := KeyOf(prefix, oldName), KeyOf(prefix, newName);
    var i := Read(order, B, K)[idx];
    NameInside(prefix, oldName);
    ReadLists(BaseKey(prefix), order, B, K);
    assert i in Read(order, B, K) by { hide *; }
    ListsMember(Read(order, B, K), Children(B, K), i);
    ChildEntry(BaseKey(prefix), B, K, i);
    LeadsIsWay(K, N, i.name);
    AtWay(prefix, order, oldName, newName, B, B1, idx);
    EntryNames(prefix, order, oldName, newName, B, B1, i);
    var c, n := Child(K, i.name), Child(N, i.name);
    if c !in B1 {
      DirectChild(N, i.name);
      var k0 :| k0 in B && Above(N, k0);
      ShorterWay(B, B1, N, i.name, k0);
    }
  }

  lemma DirectChild(N: string, x: string)
    requires ValidName(x)
    ensures Above(N, Child(N, x)) && Seg(N, Child(N, x)) == x && Way(N, Child(N, x)) == Child(N, x)
  {
    hide Seg;
    NameNotEmpty(x);
    AboveChild(N, N, x);
    SelfBelow(Child(N, x));
    SegIsChild(N, x, Child(N, x));
  }

  lemma ShorterWay(B: Objects, B1: Objects, N: string, x: string, k0: string)
    requires ValidName(x) && N != "" && k0 in B && Above(N, k0)
    requires forall k :: k in B1 && Above(Child(N, x), k) ==> k in B
    ensures Tall(B1, Child(N, x)) < Tall(B, N)
  {
    hide Tall, Child, Above;
    NameNotEmpty(x);
    forall k | k in B1 && Above(Child(N, x), k) ensures Depth(k) <= Depth(N) + Tall(B, N) {
      ChildBelow(N, x, k);
      TallBound(B, N, k);
    }
    TallChild(B, B1, N, x, k0);
  }

  // ---------------------------------------------------------------- one turn of the loop

  /** A move with an entry on the way is none that all can be said about. */
  lemma WayNotSure(oldName: string, newName: string, B: Objects, K: string, N: string)
    requires Above(K, N) && Mixed(oldName, newName)
    requires Way(K, N) in B || exists k :: k in B && Above(N, k)
    ensures !Sure(oldName, newName, B, K, N)
  {
    if k :| k in B && Above(N, k) {
      assert AtOrBelow(N, k);
    }
  }

  /** One turn of the loop for the way. */
  lemma MovingWay(prefix: string, order: Order, oldName: string, newName: string, B: Objects, B1: Objects,
                  B2: Objects, idx: nat, f1: bool, b1: bool, f2: bool, b2: bool, e: Option<Error>)
    requires RenameNames(prefix, oldName, newName, B) && (f1 ==> f2) && (b1 ==> b2)
    requires Moving(prefix, order, oldName, newName, B, B1, idx, f1, b1)
    requires idx < |Read(order, B, KeyOf(prefix, oldName))|
    requires var K, N, x := KeyOf(prefix, oldName), KeyOf(prefix, newName),
      Read(order, B, KeyOf(prefix, oldName))[idx].name;
      && Mixed(oldName, newName) && Bounded(oldName, newName, B, K, N) && AtOrBelow(Child(K, x), N)
      && RenameNames(prefix, PathJoin(oldName, x), PathJoin(newName, x), B1)
      && Renamed(prefix, order, PathJoin(oldName, x), PathJoin(newName, x), B1, B2, f2, b2, e)
    ensures e.None? ==> Moving(prefix, order, oldName, newName, B, B2, idx + 1, f2, b2)
    ensures e.Some? ==> Renamed(prefix, order, oldName, newName, B, B2, f2, b2, e)
  {
    hide KeyOf, NameOk, BaseKey, PrefixOk, ValidKeys, Read, Children, Seg, Above, AtOrBelow, Get, Child, Lists,
      Framed, Tall, Parts, Shallow, WayKept, Refused, Mixed, PathJoin, WayThere, DirSource, Sure, Trusted, Conserved,
      IsAllMoved, Tidy, FilesKept, FileRenamed, Answered, Bounded, Seen, ParentSeen, Leading, Way, Occupied;
    var K, N, base := KeyOf(prefix, oldName), KeyOf(prefix, newName), BaseKey(prefix);
    var infos := Read(order, B, K);
    var i := infos[idx];
    NameInside(prefix, oldName);
    ReadLists(base, order, B, K);
    assert i in infos by { hide *; }
    ListsMember(infos, Children(B, K), i);
    ChildEntry(base, B, K, i);
    LeadsIsWay(K, N, i.name);
    AtWay(prefix, order, oldName, newName, B, B1, idx);
    EntryNames(prefix, order, oldName, newName, B, B1, i);
    FramedEntry(B, B1, B2, K, N, i.name);
    AtWayNotSure(prefix, order, oldName, newName, B, B1, idx);
    if !f2 && !b2 {
      EntriesOccupy(base, order, B, K, idx);
      WayAnswered(prefix, oldName, newName, order, B, B2, e);
    }
    NameInside(prefix, newName);
    assert Way(K, N) in B1 ==> FileRenamed(B1, B2, Way(K, N), Child(N, Seg(K, N)));
    WayKeptNext(prefix, order, oldName, newName, B, B1, B2, idx);
  }

  lemma AtWayNotSure(prefix: string, order: Order, oldName: string, newName: string, B: Objects, B1: Objects, idx: nat)
    requires PrefixOk(prefix) && NameOk(prefix, oldName) && ValidKeys(BaseKey(prefix), B)
    requires var K, N := KeyOf(prefix, oldName), KeyOf(prefix, newName);
      && idx < |Read(order, B, K)| && Above(K, N) && Read(order, B, K)[idx].name == Seg(K, N)
      && WayKept(order, B, B1, K, N, idx) && Mixed(oldName, newName) && (K !in B || oldName == ".")
      && Bounded(oldName, newName, B, K, N)
    ensures !Sure(oldName, newName, B, KeyOf(prefix, oldName), KeyOf(prefix, newName))
  {
    hide KeyOf, NameOk, BaseKey, PrefixOk, ValidKeys, Read, Seg, Above, Child, Sure, Mixed, Bounded, WayKept,
      Children, Lists;
    var K, N, base := KeyOf(prefix, oldName), KeyOf(prefix, newName), BaseKey(prefix);
    NameInside(prefix, oldName);
    ReadLists(base, order, B, K);
    var i := Read(order, B, K)[idx];
    assert i in Read(order, B, K) by { hide *; }
    ListsMember(Read(order, B, K), Children(B, K), i);
    ChildEntry(base, B, K, i);
    AtWay(prefix, order, oldName, newName, B, B1, idx);
    WayNotSure(oldName, newName, B, K, N);
  }

  /** What the answer tells when no call failed, the new place was free and not all can be said. */
  lemma WayAnswered(prefix: string, oldName: string, newName: string, order: Order, B: Objects, B2: Objects,
                    e: Option<Error>)
    requires Parts(newName) != []
    requires var K, N := KeyOf(prefix, oldName), KeyOf(prefix, newName);
      && DirSource(oldName, B, K) && !Seen(B, N) && ParentSeen(prefix, newName, B) && Occupied(B, K)
      && !Sure(oldName, newName, B, K, N) && (K !in B || oldName == ".")
    ensures Answered(prefix, order, oldName, newName, B, B2, e)
  {
    hide KeyOf, Parts, Seen, ParentSeen, Occupied, Sure;
  }

  lemma WayKeptNext(prefix: string, order: Order, oldName: string, newName: string, B: Objects, B1: Objects,
                    B2: Objects, idx: nat)
    requires PrefixOk(prefix) && NameOk(prefix, oldName) && ValidKeys(BaseKey(prefix), B)
    requires var K, N := KeyOf(prefix, oldName), KeyOf(prefix, newName);
      && idx < |Read(order, B, K)| && Above(K, N) && Read(order, B, K)[idx].name == Seg(K, N) && N != ""
      && WayKept(order, B, B1, K, N, idx) && Mixed(oldName, newName) && (K !in B || oldName == ".")
      && Bounded(oldName, newName, B, K, N)
      && (Way(K, N) in B1 ==> FileRenamed(B1, B2, Way(K, N), Child(N, Seg(K, N))))
    ensures WayKept(order, B, B2, KeyOf(prefix, oldName), KeyOf(prefix, newName), idx + 1)
  {
    hide KeyOf, NameOk, BaseKey, PrefixOk, ValidKeys, Read, Seg, Child, Mixed, Bounded, Get;
    var K, N := KeyOf(prefix, oldName), KeyOf(prefix, newName);
    AtWay(prefix, order, oldName, newName, B, B1, idx);
    var n := Child(N, Seg(K, N));
    assert Leading(order, B, K, N, 0, idx + 1) by { assert Read(order, B, K)[idx].name == Seg(K, N); }
    if Way(K, N) in B1 {
      forall k | k in B2 && Above(n, k) ensures k in B {
        FileStays(B1, B2, Way(K, N), n, k) by { ChildLonger(N, Seg(K, N)); }
      }
    }
  }

  lemma ChildLonger(N: string, x: string)
    requires N != ""
    ensures Child(N, x) != ""
  {
  }

  /** A file that is moved puts nothing below its new place. */
  lemma FileStays(B1: Objects, B2: Objects, w: string, n: string, k: string)
    requires w in B1 && FileRenamed(B1, B2, w, n) && k in B2 && Above(n, k) && n != ""
    ensures k in B1
  {
  }
}
