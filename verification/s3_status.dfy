/**
 What the S3 file system finds under a name: the status of the name and the entries of a directory.
 */
module S3Status {
  import opened Data
  import opened GoPath
  import opened S3Keys
  import opened S3Client
  import opened S3Moves

  datatype Info = FileInfo(name: string, size: nat) | DirInfo(name: string)

  datatype Flags = Flags(append: bool, create: bool, wronly: bool)

  datatype Handle = DirHandle(name: string) | WriteHandle(name: string, create: bool) | ReadHandle(name: string)

  /** The entry of directory K that Readdir makes of the key k. */
  function InfoOf(B: Objects, K: string, k: string): Info
    requires k in B && Above(K, k)
  {
    if Seg(K, k) == Rest(K, k) then FileInfo(Seg(K, k), |B[k]|) else DirInfo(Seg(K, k))
  }

  function Children(B: Objects, K: string): set<Info> {
    set k | k in B && Above(K, k) && !Hidden(K, k) :: InfoOf(B, K, k)
  }

  /** What Readdir makes of one item of the listing. */
  function ToInfo(key: string, size: nat): Info {
    if HasSuffix(key, "/") then DirInfo(Base("/" + key)) else FileInfo(Base("/" + key), size)
  }

  function FromInfo(K: string, i: Info): Listed {
    match i
    case FileInfo(x, n) => Entry(Child(K, x), n)
    case DirInfo(x) => Entry(Child(K, x) + "/", 0)
  }

  lemma BaseOfChild(s: string, c: string)
    requires ValidName(c)
    requires s == "" || s[|s| - 1] == '/'
    ensures Base(s + c) == c && Base(s + c + "/") == c
    ensures !HasSuffix(s + c, "/") && HasSuffix(s + c + "/", "/")
  {
    hide Last;
    assert c[|c| - 1] in c;
    assert (s + c)[|s + c| - 1] == c[|c| - 1];
    TrimOneSlash(s, c);
    LastIs(s, c);
    assert TrimRightSlashes(s + c) == s + c;
    assert (s + c)[|s + c| - 1..] == [c[|c| - 1]];
  }

  lemma EntryIsInfo(base: string, B: Objects, K: string, k: string)
    requires ValidKeys(base, B) && AtOrBelow(base, K) && k in B && Above(K, k)
    ensures var e := EntryOf(B, Slash(K), k);
      && (HasSuffix(e.key, DIR_HOLDER) <==> Hidden(K, k))
      && ToInfo(e.key, e.size) == InfoOf(B, K, k)
      && e == FromInfo(K, InfoOf(B, K, k))
      && ValidName(Seg(K, k))
  {
    SegValid(base, K, k);
    var x := Seg(K, k);
    assert k == Slash(K) + Rest(K, k);
    ChildInfo(K, x, |B[k]|);
  }

  lemma ChildInfo(K: string, x: string, n: nat)
    requires ValidName(x)
    ensures ToInfo(Child(K, x), n) == FileInfo(x, n)
    ensures ToInfo(Child(K, x) + "/", 0) == DirInfo(x)
    ensures !HasSuffix(Child(K, x) + "/", DIR_HOLDER)
  {
    BaseOfChild(Slash(K), x);
    SlashIsNoHolder(Child(K, x));
    RootedBase(K, x);
  }

  lemma RootedBase(K: string, x: string)
    requires ValidName(x)
    ensures Base("/" + Child(K, x)) == x && Base("/" + (Child(K, x) + "/")) == x
  {
    var s := "/" + Slash(K);
    RootedChild(K, x);
    BaseOfChild(s, x);
  }

  lemma RootedChild(K: string, x: string)
    ensures "/" + Child(K, x) == "/" + Slash(K) + x
    ensures "/" + (Child(K, x) + "/") == "/" + Slash(K) + x + "/"
    ensures ("/" + Slash(K))[|"/" + Slash(K)| - 1] == '/'
  {
  }

  lemma SlashIsNoHolder(s: string)
    ensures !HasSuffix(s + "/", DIR_HOLDER)
  {
    var t := s + "/";
    assert t[|t| - 1] == '/';
    assert DIR_HOLDER[|DIR_HOLDER| - 1] == 'r';
  }

  lemma EntryShows(base: string, B: Objects, K: string, e: Listed)
    requires ValidKeys(base, B) && AtOrBelow(base, K) && e in Listing(B, Slash(K))
    requires !HasSuffix(e.key, DIR_HOLDER)
    ensures ToInfo(e.key, e.size) in Children(B, K) && FromInfo(K, ToInfo(e.key, e.size)) == e
  {
    var k :| k in B && Slash(K) <= k && e == EntryOf(B, Slash(K), k);
    EntryIsInfo(base, B, K, k);
  }

  predicate Handled(e: Listed, infos: seq<Info>) {
    e.Entry? && (HasSuffix(e.key, DIR_HOLDER) || ToInfo(e.key, e.size) in infos)
  }

  ghost predicate ReadSoFar(B: Objects, K: string, objects: seq<Listed>, idx: nat, infos: seq<Info>) {
    && idx <= |objects|
    && Distinct(infos)
    && (forall i :: i in infos ==> i in Children(B, K) && FromInfo(K, i) in objects[..idx])
    && (forall e :: e in objects[..idx] ==> Handled(e, infos))
  }

  lemma AllEntries(B: Objects, prefix: string, items: seq<Listed>)
    requires Lists(items, Listing(B, prefix))
    ensures forall e :: e in items ==> e.Entry?
  {
  }

  lemma ReadOne(base: string, B: Objects, K: string, objects: seq<Listed>, idx: nat, infos: seq<Info>)
    requires ValidKeys(base, B) && AtOrBelow(base, K)
    requires Lists(objects, Listing(B, Slash(K)))
    requires ReadSoFar(B, K, objects, idx, infos) && idx < |objects|
    ensures objects[idx].Entry?
    ensures var e := objects[idx];
      ReadSoFar(B, K, objects, idx + 1, if HasSuffix(e.key, DIR_HOLDER) then infos else infos + [ToInfo(e.key, e.size)])
  {
    hide ToInfo, FromInfo, HasSuffix, Listing, Children, ValidKeys, AtOrBelow;
    var e := objects[idx];
    assert e in objects;
    AllEntries(B, Slash(K), objects);
    assert objects[..idx + 1] == objects[..idx] + [e];
    if !HasSuffix(e.key, DIR_HOLDER) {
      EntryShows(base, B, K, e);
      var i := ToInfo(e.key, e.size);
      assert i !in infos;
      var infos' := infos + [i];
      forall e' | e' in objects[..idx + 1] ensures Handled(e', infos') {
        assert e' in objects[..idx] ==> Handled(e', infos);
      }
    }
  }

  lemma ChildShown(base: string, B: Objects, K: string, objects: seq<Listed>, infos: seq<Info>)
    requires ValidKeys(base, B) && AtOrBelow(base, K)
    requires Lists(objects, Listing(B, Slash(K)))
    requires ReadSoFar(B, K, objects, |objects|, infos)
    ensures Lists(infos, Children(B, K))
  {
    hide ToInfo, FromInfo, HasSuffix, ValidKeys, AtOrBelow;
    forall i | i in Children(B, K) ensures i in infos {
      var k :| k in B && Above(K, k) && !Hidden(K, k) && i == InfoOf(B, K, k);
      EntryIsInfo(base, B, K, k);
      var e := EntryOf(B, Slash(K), k);
      assert e in Listing(B, Slash(K));
      assert objects[..|objects|] == objects;
      assert Handled(e, infos);
    }
  }

  /** What Readdir makes of the items of a listing, in their order; holders are left out. */
  function Shown(items: seq<Listed>): seq<Info> {
    if items == [] then []
    else
      var front, e := items[..|items| - 1], items[|items| - 1];
      if e.Broken? || HasSuffix(e.key, DIR_HOLDER) then Shown(front) else Shown(front) + [ToInfo(e.key, e.size)]
  }

  lemma ShownNone()
    ensures Shown([]) == []
  {
  }

  lemma ShownNext(items: seq<Listed>, i: nat)
    requires i < |items| && items[i].Entry?
    ensures var e := items[i];
      Shown(items[..i + 1]) == if HasSuffix(e.key, DIR_HOLDER) then Shown(items[..i])
        else Shown(items[..i]) + [ToInfo(e.key, e.size)]
  {
    assert items[..i + 1][..i] == items[..i];
  }

  lemma {:induction false} ShownPrefix(items: seq<Listed>, i: nat)
    requires i <= |items|
    ensures Shown(items[..i]) <= Shown(items)
    decreases |items|
  {
    if i < |items| {
      var front := items[..|items| - 1];
      ShownPrefix(front, i);
      assert front[..i] == items[..i];
    } else {
      assert items[..i] == items;
    }
  }

  /** The entries of the directory K as Readdir gives them. */
  function Read(order: Order, B: Objects, K: string): seq<Info> {
    Shown(order(Listing(B, Slash(K))))
  }

  /** Asked for n > 0 entries, Readdir gives up to n + 1. */
  function Cut(n: int, infos: seq<Info>): seq<Info> {
    if n > 0 && |infos| > n + 1 then infos[..n + 1] else infos
  }

  lemma CutIs(n: int, all: seq<Info>)
    ensures Cut(n, all) <= all && (n <= 0 || |all| <= n + 1 ==> Cut(n, all) == all)
    ensures n > 0 && |all| > n ==> |Cut(n, all)| == n + 1
  {
  }

  lemma DirectoryKey(prefix: string, name: string)
    requires PrefixOk(prefix) && NameOk(prefix, name)
    ensures var key := TrimRoot(KeyOf(prefix, name));
      Slash(KeyOf(prefix, name)) == if key != "" && !HasSuffix(key, "/") then key + "/" else key
    ensures AtOrBelow(BaseKey(prefix), KeyOf(prefix, name))
  {
    NameInside(prefix, name);
  }

  lemma ReadIs(order: Order, B: Objects, K: string)
    ensures Read(order, B, K) == Shown(order(Listing(B, Slash(K))))
  {
  }

  /** A listing that broke off is a beginning of the whole, and then Broken. */
  predicate BreaksOff(all: seq<Listed>, objects: seq<Listed>) {
    objects == all || (objects != [] && objects[..|objects| - 1] <= all && objects[|objects| - 1] == Broken)
  }

  lemma BreaksIs(all: seq<Listed>, objects: seq<Listed>)
    ensures BreaksOff(all, objects) <==>
      objects == all || (objects != [] && objects[..|objects| - 1] <= all && objects[|objects| - 1] == Broken)
  {
  }

  lemma BrokenAt(all: seq<Listed>, objects: seq<Listed>, i: nat)
    requires BreaksOff(all, objects) && i < |objects| && objects[..i] <= all && forall e :: e in all ==> e.Entry?
    ensures objects[i].Broken? ==> objects != all
    ensures objects[i].Entry? ==> objects[..i + 1] <= all
  {
    if objects != all && i < |objects| - 1 {
      assert objects[..i + 1] == objects[..|objects| - 1][..i + 1];
    }
    assert objects == all ==> objects[i] in all;
  }

  lemma ReadCut(all: seq<Listed>, objects: seq<Listed>, i: nat, n: int)
    requires i <= |objects| && objects[..i] <= all && n > 0 && |Shown(objects[..i])| == n + 1
    ensures Shown(objects[..i]) == Cut(n, Shown(all))
  {
    ShownPrefix(all, i);
    assert objects[..i] == all[..i];
  }

  lemma ReadWhole(all: seq<Listed>, objects: seq<Listed>, n: int)
    requires BreaksOff(all, objects) && objects <= all && forall e :: e in all ==> e.Entry?
    requires n > 0 ==> |Shown(objects)| <= n
    ensures Shown(objects) == Cut(n, Shown(all))
  {
    hide Shown;
    if objects != [] {
      var e := objects[|objects| - 1];
      assert e == all[|objects| - 1];
      assert e in all;
    }
  }

  lemma NoLimit(infos: seq<Info>)
    ensures Cut(0, infos) == infos
  {
  }

  /** Every child once, and nothing else. */
  lemma ReadLists(base: string, order: Order, B: Objects, K: string)
    requires ValidKeys(base, B) && AtOrBelow(base, K)
    ensures Lists(Read(order, B, K), Children(B, K))
  {
    hide ValidKeys, AtOrBelow, Children, Listing;
    var items := order(Listing(B, Slash(K)));
    OrderLists(order, Listing(B, Slash(K)));
    ReadAll(base, B, K, items, |items|);
    assert items[..|items|] == items;
    ChildShown(base, B, K, items, Shown(items));
  }

  lemma {:induction false} ReadAll(base: string, B: Objects, K: string, items: seq<Listed>, n: nat)
    requires ValidKeys(base, B) && AtOrBelow(base, K) && Lists(items, Listing(B, Slash(K))) && n <= |items|
    ensures ReadSoFar(B, K, items, n, Shown(items[..n]))
    decreases n
  {
    hide ValidKeys, AtOrBelow, Children, Listing, ReadSoFar, Lists;
    if n == 0 {
      assert items[..0] == [];
      assert ReadSoFar(B, K, items, 0, []) by { ReadNone(B, K, items); }
    } else {
      ReadAll(base, B, K, items, n - 1);
      ReadOne(base, B, K, items, n - 1, Shown(items[..n - 1]));
      ShownNext(items, n - 1);
    }
  }

  lemma ReadNone(B: Objects, K: string, objects: seq<Listed>)
    ensures ReadSoFar(B, K, objects, 0, [])
  {
  }

  /** What is read of a directory depends on what is below it alone. */
  lemma ReadSame(order: Order, B: Objects, B1: Objects, K: string)
    requires forall k :: Above(K, k) ==> (k in B <==> k in B1) && (k in B ==> B1[k] == B[k])
    ensures Read(order, B1, K) == Read(order, B, K)
  {
    assert Listing(B1, Slash(K)) == Listing(B, Slash(K)) by {
      ListingWithin(B, B1, K);
      ListingWithin(B1, B, K);
    }
  }

  lemma ListingWithin(B: Objects, B1: Objects, K: string)
    requires forall k :: Above(K, k) && k in B ==> k in B1 && B1[k] == B[k]
    ensures Listing(B, Slash(K)) <= Listing(B1, Slash(K))
  {
    forall e | e in Listing(B, Slash(K)) ensures e in Listing(B1, Slash(K)) {
      var k :| k in B && Slash(K) <= k && e == EntryOf(B, Slash(K), k);
      assert Above(K, k);
      assert e == EntryOf(B1, Slash(K), k);
    }
  }

  // ---------------------------------------------------------------- the status of a name

  /** What Stat finds when no call fails. */
  ghost function Status(prefix: string, name: string, B: Objects): Result<Info> {
    if KeyOf(prefix, name) in B then Ok(FileInfo(Base(name), |B[KeyOf(prefix, name)]|))
    else if Seen(B, KeyOf(prefix, Clean(name))) then Ok(DirInfo(Base(name)))
    else Err(NotExist)
  }

  /** The parent of a name is the root, or Stat finds it. */
  ghost predicate ParentSeen(prefix: string, name: string, B: Objects)
    requires Parts(name) != []
  {
    |Parts(name)| == 1 || Seen(B, ParentKey(prefix, name))
  }

  /** What Mkdir answers when no call fails. */
  ghost function MkdirError(prefix: string, name: string, B: Objects): Option<Error>
    requires Parts(name) != []
  {
    if Seen(B, KeyOf(prefix, name)) then Some(Exist)
    else if ParentSeen(prefix, name, B) then None
    else Some(NotExist)
  }

  /** A name for a directory, with a trailing slash. */
  predicate DirNameOk(prefix: string, name: string) {
    NoDotDot(name) && PlainTail(name) && Parts(name) != [] && name != "" &&
    (RootPrefix(prefix) ==> name == Abs(Parts(name)) + "/")
  }

  /** What openDir answers when no call fails. */
  ghost function OpenedDir(prefix: string, name: string, B: Objects): Result<Handle>
    requires Parts(name) != []
  {
    var K := Key(prefix, Parts(name));
    if K in B && !RootPrefix(prefix) then Err(Exist)
    else if Seen(B, K) || ParentSeen(prefix, name, B) then Ok(DirHandle(name))
    else Err(NotExist)
  }

  /** The root, as OpenFile takes it: "/" is a directory, and "." may be opened in any way. */
  predicate RootName(name: string) {
    name == "/" || name == "."
  }

  /** What OpenFile answers when no call fails. */
  ghost function Opened(prefix: string, name: string, flags: Flags, B: Objects): Result<Handle>
    requires Parts(name) != [] || RootName(name)
  {
    if flags.append then Err(Permission)
    else if name == "/" then Ok(DirHandle(name))
    else if name == "." then
      Ok(if flags.create || flags.wronly then WriteHandle(name, flags.create) else ReadHandle(name))
    else if HasSuffix(name, "/") then OpenedDir(prefix, name, B)
    else if flags.create || flags.wronly then
      if ParentSeen(prefix, name, B) then Ok(WriteHandle(name, flags.create)) else Err(NotExist)
    else if Status(prefix, name, B).Ok? then Ok(ReadHandle(name))
    else Err(NotExist)
  }

  /** The parent of "." is "." again. */
  lemma DotParent()
    ensures Dir(TrimRightSlashes(".")) == "."
  {
    hide Clean, Dir, TrimRightSlashes;
    LoneParent(".");
    PlainDots();
  }

  lemma LoneParent(c: string)
    ensures NoSlash(c) && c != "" ==> Dir(TrimRightSlashes(c)) == Clean("")
  {
    hide Clean;
    if NoSlash(c) && c != "" {
      LastIs("", c);
      assert "" + c == c;
      assert c[|c| - 1] in c;
      assert c[..0] == "";
    }
  }

  lemma NameStatus(prefix: string, name: string, B: Objects)
    requires PrefixOk(prefix) && NameOk(prefix, name)
    ensures Parts(name) != [] ==> name != "/" && name != "."
    ensures var K := KeyOf(prefix, name);
      && KeyOf(prefix, Clean(name)) == K
      && (Status(prefix, name, B).Ok? <==> Seen(B, K))
      && (Status(prefix, name, B).Err? ==> Status(prefix, name, B) == Err(NotExist))
      && (Status(prefix, name, B).Ok? && Status(prefix, name, B).value.FileInfo? <==> K in B)
  {
    PlainDots();
    if Parts(name) != [] {
      CleanName(prefix, name);
    } else {
      CleanRoot(prefix, name);
    }
  }

  lemma CleanRoot(prefix: string, name: string)
    requires PrefixOk(prefix) && NameOk(prefix, name) && Parts(name) == []
    ensures KeyOf(prefix, Clean(name)) == KeyOf(prefix, name)
  {
    hide Clean, NoDotDot, Parts, Key;
    CleanNoDotDot(name);
    CleanNoDotDot(Clean(name));
    KeyOfName(prefix, name);
    KeyOfName(prefix, Clean(name));
  }

  lemma StatusOf(prefix: string, name: string, B: Objects)
    ensures Status(prefix, name, B) ==
      if KeyOf(prefix, name) in B then Ok(FileInfo(Base(name), |B[KeyOf(prefix, name)]|))
      else if Seen(B, KeyOf(prefix, Clean(name))) then Ok(DirInfo(Base(name)))
      else Err(NotExist)
  {
  }

  /** A name that OpenFile takes is the root's or of some path, and "." has no trailing slash. */
  lemma OpensAs(prefix: string, name: string, B: Objects)
    requires PrefixOk(prefix)
    requires RootName(name) || (NoDotDot(name) && PlainTail(name) && (RootPrefix(prefix) ==> Rooted(name)))
    ensures Parts(name) != [] || RootName(name)
    ensures Parts(name) != [] ==> !RootName(name)
    ensures Status(prefix, name, B).Ok? <==> KeyOf(prefix, name) in B || Seen(B, KeyOf(prefix, Clean(name)))
  {
    hide Parts, KeyOf, Clean, Seen, NoDotDot, PlainTail;
    PlainDots();
    if !RootName(name) {
      ParentName(prefix, name);
    }
  }

  lemma DirNameStatus(prefix: string, name: string, B: Objects)
    requires PrefixOk(prefix) && DirNameOk(prefix, name) && ValidKeys(BaseKey(prefix), B)
    ensures Parts(name) != [] && name != "/" && name != "."
    ensures var K := Key(prefix, Parts(name));
      && KeyOf(prefix, PathJoin(name, DIR_HOLDER)) == Holder(K)
      && Status(prefix, name, B) ==
           if K in B && !RootPrefix(prefix) then Ok(FileInfo(Base(name), |B[K]|))
           else if Seen(B, K) then Ok(DirInfo(Base(name)))
           else Err(NotExist)
  {
    hide Seen, Base, PlainTail, ValidKeys, KeyOf, Key, Parts, NoDotDot, PathJoin, Dir, Clean, TrimRightSlashes;
    var K := Key(prefix, Parts(name));
    ParentName(prefix, name);
    PlainDots();
    PartsValid(name);
    KeyChild(prefix, Parts(name), DIR_HOLDER);
    RootedSlash(prefix, name);
    DirHolderName(prefix, name);
    DirNameKeys(prefix, name);
    if RootPrefix(prefix) {
      SlashNotKey(prefix, B, Parts(name));
    }
  }

  lemma RootedSlash(prefix: string, name: string)
    requires DirNameOk(prefix, name)
    ensures RootPrefix(prefix) ==> Rooted(name)
  {
  }

  lemma DirNameKeys(prefix: string, name: string)
    requires PrefixOk(prefix) && DirNameOk(prefix, name) && Parts(name) != []
    ensures var K := Key(prefix, Parts(name));
      && KeyOf(prefix, Clean(name)) == K
      && KeyOf(prefix, name) == if RootPrefix(prefix) then K + "/" else K
  {
    hide PlainTail;
    PartsValid(name);
    CleanNoDotDot(name);
    KeyOfName(prefix, Clean(name));
    if RootPrefix(prefix) {
      assert [] + Parts(name) == Parts(name);
      assert name == "/" + (Join(Parts(name)) + "/");
    } else {
      KeyOfName(prefix, name);
    }
  }

  /** No key below the prefix ends in a slash. */
  lemma SlashNotKey(prefix: string, B: Objects, p: Path)
    requires PrefixOk(prefix) && ValidKeys(BaseKey(prefix), B) && ValidPath(p) && p != []
    ensures Key(prefix, p) + "/" !in B
  {
    var base, K := BaseKey(prefix), Key(prefix, p);
    var k := K + "/";
    PathKeyOk(prefix, p);
    KeyInside(prefix, p);
    var a := Rest(base, K);
    assert Rest(base, k) == a + "/" + "";
    SplitConcat(a, "");
    var cs := Split(Rest(base, k));
    assert Above(base, k) && cs[|Split(a)|] == "" && "" in cs;
    assert !KeyOk(base, k);
  }

  lemma SlashKeyAbsent(prefix: string, name: string, B: Objects)
    requires PrefixOk(prefix) && NameOk(prefix, name) && Parts(name) != []
    requires ValidKeys(BaseKey(prefix), B)
    ensures KeyOf(prefix, name) + "/" !in B
  {
    KeyOfName(prefix, name);
    PartsValid(name);
    SlashNotKey(prefix, B, Parts(name));
  }

  lemma NoMoreThan<T>(s: seq<T>, all: set<T>)
    requires Distinct(s) && forall e :: e in s ==> e in all
    ensures |s| <= |all|
  {
    if s != [] {
      var n := |s| - 1;
      NoMoreThan(s[..n], all - {s[n]});
    }
  }

  lemma ListsMember<T(!new)>(s: seq<T>, all: set<T>, e: T)
    requires Lists(s, all) && e in s
    ensures e in all
  {
  }

  /** The name Mkdir opens is a directory name for the same path. */
  lemma MkdirName(prefix: string, name: string)
    requires PrefixOk(prefix) && NameOk(prefix, name) && Parts(name) != []
    ensures DirNameOk(prefix, Clean(name) + "/")
    ensures Parts(Clean(name) + "/") == Parts(name)
    ensures Key(prefix, Parts(name)) == KeyOf(prefix, name)
  {
    CleanName(prefix, name);
    CleanPlainTail(name);
    CleanNoDotDot(name);
    KeyOfName(prefix, name);
  }

  /** The name openDir and openFileForWrite look for before they put anything. */
  lemma ParentStatus(prefix: string, name: string, B: Objects)
    requires PrefixOk(prefix) && NoDotDot(name) && PlainTail(name)
    requires RootPrefix(prefix) ==> Rooted(name)
    ensures Parts(name) != []
    ensures var d := Dir(TrimRightSlashes(name));
      && (|Parts(name)| == 1 <==> d == "/" || d == ".")
      && (|Parts(name)| > 1 ==> (Status(prefix, d, B).Ok? <==> Seen(B, ParentKey(prefix, name))))
      && (|Parts(name)| > 1 ==> Status(prefix, d, B).Ok? || Status(prefix, d, B) == Err(NotExist))
  {
    hide PlainTail, Status;
    ParentName(prefix, name);
    var d := Dir(TrimRightSlashes(name));
    if |Parts(name)| > 1 {
      KeyOfName(prefix, d);
      NameStatus(prefix, d, B);
    }
  }
}
