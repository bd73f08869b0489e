/**
 What RemoveAll does to a bucket: how removing the entries of a directory adds up to removing it.
 */
module S3Removal {
  import opened GoPath
  import opened S3Keys
  import opened S3Client
  import opened S3Invariant
  import opened S3Moves
  import opened S3Status

  /** What RemoveAll of a name with key K takes away. Under the root prefix it asks to remove "K/"
      where it means K. */
  predicate Gone(prefix: string, K: string, k: string) {
    (Above(K, k) && !Stray(k)) || (k == K && !RootPrefix(prefix))
  }

  /** A stray that is not also a directory. */
  ghost predicate LoneStray(B: Objects, k: string) {
    Stray(k) && forall k' :: k' in B ==> !Above(k, k')
  }

  /** B' is B after RemoveAll of K, to the end if done. */
  ghost predicate Removed(prefix: string, B: Objects, B': Objects, K: string, done: bool) {
    && (forall k :: k in B' ==> k in B && B'[k] == B[k])
    && (forall k :: k in B && !AtOrBelow(K, k) ==> k in B')
    && (done ==> forall k :: Gone(prefix, K, k) ==> k !in B')
    && (forall k :: k in B && LoneStray(B, k) && (k != K || RootPrefix(prefix)) ==> k in B')
    && (RootPrefix(prefix) && K in B ==> K in B')
  }

  /** What RemoveAll of directory K takes away for the entry i. */
  predicate Takes(prefix: string, K: string, i: Info, k: string) {
    if i.DirInfo? then Gone(prefix, Child(K, i.name), k) else k == Child(K, i.name)
  }

  /** B1 is B after the entries `gone` of K have been dealt with. */
  ghost predicate Removing(prefix: string, B: Objects, B1: Objects, K: string, gone: seq<Info>) {
    && (forall k :: k in B1 ==> k in B && B1[k] == B[k])
    && (forall k :: k in B && !Above(K, k) ==> k in B1)
    && (forall i, k :: i in gone && Takes(prefix, K, i, k) ==> k !in B1)
    && (forall k :: k in B && LoneStray(B, k) ==> k in B1)
  }

  /** K is not a file that has a holder's name. */
  predicate NoHolderFile(B: Objects, K: string) {
    K in B ==> !HasSuffix(K, DIR_HOLDER)
  }

  /** The file system's own condition for a directory key: it is not the root of the bucket. */
  predicate Proper(base: string, K: string) {
    AtOrBelow(base, K) && K != "" && !Above(K, K)
  }

  /** Every name has a proper key, but the root where the file system is the whole bucket. */
  lemma ProperName(prefix: string, name: string)
    requires PrefixOk(prefix) && NameOk(prefix, name) && (Parts(name) != [] || !RootPrefix(prefix))
    ensures Proper(BaseKey(prefix), KeyOf(prefix, name))
    ensures Parts(name) != [] ==> Inside(BaseKey(prefix), KeyOf(prefix, name))
  {
    NameInside(prefix, name);
    KeyOfName(prefix, name);
    if Parts(name) == [] {
      PartsValid(prefix);
      JoinHead(Parts(prefix));
      assert PrefixParts(prefix) + [] == PrefixParts(prefix);
    }
  }

  lemma NotRoot(prefix: string, name: string)
    requires NameOk(prefix, name) && name != "/"
    ensures Parts(name) != [] || !RootPrefix(prefix)
  {
  }

  lemma NotSlash(name: string)
    ensures Parts(name) != [] ==> name != "/"
  {
    PlainDots();
  }

  lemma RemovingStarts(prefix: string, B: Objects, K: string)
    ensures Removing(prefix, B, B, K, [])
  {
  }

  /** An entry of a directory, as RemoveAll and Rename visit it. */
  lemma EntryName(prefix: string, name: string, B: Objects, B1: Objects, i: Info)
    requires PrefixOk(prefix) && NameOk(prefix, name) && (Parts(name) != [] || !RootPrefix(prefix))
    requires ValidKeys(BaseKey(prefix), B) && i in Children(B, KeyOf(prefix, name))
    requires forall k :: k in B1 && Above(KeyOf(prefix, name), k) ==> k in B
    ensures ValidName(i.name)
    ensures NameOk(prefix, PathJoin(name, i.name)) && Parts(PathJoin(name, i.name)) != []
    ensures KeyOf(prefix, PathJoin(name, i.name)) == Child(KeyOf(prefix, name), i.name)
    ensures Below(B1, Child(KeyOf(prefix, name), i.name)) < Below(B, KeyOf(prefix, name))
  {
    hide NameOk, Split, KeyOf, Parts, Seg, Hidden, InfoOf, NoDotDot, Below, Child, ValidName;
    var K := KeyOf(prefix, name);
    ProperName(prefix, name);
    ChildEntry(BaseKey(prefix), B, K, i);
    var k :| k in B && Above(K, k) && !Hidden(K, k) && i == InfoOf(B, K, k);
    NameChild(prefix, name, i.name);
    assert i.name != "" by { hide *; NameNotEmpty(i.name); }
    AboveLonger(K, k);
    BelowChild(B, B1, K, i.name, k);
  }

  lemma NameNotEmpty(c: string)
    requires ValidName(c)
    ensures c != "" && NoSlash(c)
  {
  }

  lemma AboveLonger(K: string, k: string)
    requires Above(K, k) && K != ""
    ensures |k| > |K|
  {
  }

  /** An entry stands for a key that is the entry's own, or lies below it. */
  lemma ChildEntry(base: string, B: Objects, K: string, i: Info)
    requires ValidKeys(base, B) && AtOrBelow(base, K) && i in Children(B, K)
    ensures ValidName(i.name)
    ensures i.FileInfo? ==>
      Child(K, i.name) in B && !HasSuffix(Child(K, i.name), DIR_HOLDER) && i.size == |B[Child(K, i.name)]|
    ensures i.DirInfo? ==> exists k :: k in B && Above(Child(K, i.name), k)
  {
    var k :| k in B && Above(K, k) && !Hidden(K, k) && i == InfoOf(B, K, k);
    SegValid(base, K, k);
    SegIsChild(K, i.name, k);
    assert k == Slash(K) + Rest(K, k);
  }

  lemma RemovingFacts(prefix: string, base: string, B: Objects, B1: Objects, K: string, gone: seq<Info>)
    requires Removing(prefix, B, B1, K, gone) && ValidKeys(base, B)
    ensures ValidKeys(base, B1)
    ensures forall k :: k in B1 && Above(K, k) ==> k in B
  {
  }

  /** Stopping half-way. */
  lemma RemovingStops(prefix: string, base: string, B: Objects, B1: Objects, K: string, gone: seq<Info>)
    requires Removing(prefix, B, B1, K, gone) && Proper(base, K)
    ensures Removed(prefix, B, B1, K, false)
  {
  }

  lemma RemovingFile(prefix: string, base: string, B: Objects, B1: Objects, B2: Objects, K: string, gone: seq<Info>,
                     i: Info)
    requires ValidKeys(base, B) && Proper(base, K) && Removing(prefix, B, B1, K, gone)
    requires i in Children(B, K) && i.FileInfo?
    requires B2 == B1 || B2 == B1 - {Child(K, i.name)}
    ensures Removing(prefix, B, B2, K, gone)
    ensures B2 == B1 - {Child(K, i.name)} ==> Removing(prefix, B, B2, K, gone + [i])
    ensures WellKept(base, B1) ==> WellKept(base, B2)
  {
    hide WellKept, Seg, Children, ValidKeys;
    ChildEntry(base, B, K, i);
    var c := Child(K, i.name);
    AboveChild(K, K, i.name);
    if WellKept(base, B1) && B2 != B1 {
      RemoveFileKeeps(base, B1, c);
    }
  }

  lemma RemovingDir(prefix: string, base: string, B: Objects, B1: Objects, B2: Objects, K: string, gone: seq<Info>,
                    i: Info, done: bool)
    requires ValidKeys(base, B) && Proper(base, K) && Removing(prefix, B, B1, K, gone)
    requires i in Children(B, K) && i.DirInfo?
    requires Removed(prefix, B1, B2, Child(K, i.name), done)
    ensures Removing(prefix, B, B2, K, gone)
    ensures done ==> Removing(prefix, B, B2, K, gone + [i])
  {
    hide ValidKeys, Children, Stray, Child, ValidName;
    ChildEntry(base, B, K, i);
    var c := Child(K, i.name);
    AboveChild(K, K, i.name);
    forall k | k in B && !Above(K, k) ensures k in B2 {
      if AtOrBelow(c, k) { AboveTransitive(K, c, k); }
    }
    var kc :| kc in B && Above(c, kc);
    forall k | k in B && LoneStray(B, k) ensures k in B2 {
      assert k in B1 && LoneStray(B1, k);
      assert k != c;
    }
    forall j, k | j in gone + [i] && Takes(prefix, K, j, k) && done ensures k !in B2 {
      if j in gone {
        assert k !in B1;
      }
    }
  }

  /** A directory among the entries of a well-kept directory is not a file. */
  lemma DirEntryNotFile(prefix: string, base: string, B: Objects, B1: Objects, K: string, gone: seq<Info>, i: Info)
    requires WellKept(base, B) && Proper(base, K) && Removing(prefix, B, B1, K, gone)
    requires i in Children(B, K) && i.DirInfo?
    ensures Child(K, i.name) !in B1 && NoHolderFile(B1, Child(K, i.name))
  {
    ChildEntry(base, B, K, i);
    var c := Child(K, i.name);
    AboveChild(base, K, i.name);
    var k :| k in B && Above(c, k);
    assert Inside(base, c) by { assert K == base ==> |c| > |K|; }
  }

  lemma RemovingEnds(prefix: string, base: string, B: Objects, B1: Objects, B2: Objects, K: string, infos: seq<Info>,
                     done: bool)
    requires ValidKeys(base, B) && Proper(base, K) && Removing(prefix, B, B1, K, infos)
    requires Lists(infos, Children(B, K))
    requires var last := if RootPrefix(prefix) then K + "/" else K;
      && (B2 == B1 || B2 == B1 - {Holder(K)} || B2 == B1 - {Holder(K)} - {last})
      && (done ==> B2 == B1 - {Holder(K)} - {last})
    requires RootPrefix(prefix) ==> K + "/" !in B
    ensures Removed(prefix, B, B2, K, done)
  {
    hide Children, Stray, ValidKeys;
    HolderIsChild(K);
    HolderNotStray(K);
    forall k | Gone(prefix, K, k) && done ensures k !in B2 {
      if k in B2 {
        LeftOver(prefix, base, B, B1, K, infos, k);
      }
    }
  }

  /** What is left below K once its entries are gone. */
  lemma LeftOver(prefix: string, base: string, B: Objects, B1: Objects, K: string, infos: seq<Info>, k: string)
    requires ValidKeys(base, B) && Proper(base, K) && Removing(prefix, B, B1, K, infos)
    requires Lists(infos, Children(B, K))
    requires k in B1 && Above(K, k)
    ensures k == Holder(K) || Stray(k)
  {
    if Hidden(K, k) {
      HiddenIsHolderOrStray(K, k);
    } else {
      var i := InfoOf(B, K, k);
      assert i in Children(B, K);
      SegValid(base, K, k);
      SegIsChild(K, i.name, k);
      if !Stray(k) {
        assert Takes(prefix, K, i, k);
      }
    }
  }

  /** In a well-kept bucket only the holder is left. */
  lemma HolderLeft(prefix: string, base: string, B: Objects, B1: Objects, K: string, infos: seq<Info>, k: string)
    requires ValidKeys(base, B) && Proper(base, K) && Removing(prefix, B, B1, K, infos)
    requires NoStrayHolder(base, B1) && Lists(infos, Children(B, K))
    requires k in B1 && Above(K, k)
    ensures k == Holder(K)
  {
    hide Removing, Children, ValidKeys, Lists, Holder;
    LeftOver(prefix, base, B, B1, K, infos, k);
    AboveTransitive(base, K, k);
    if Stray(k) {
      var d :| Inside(base, d) && k == Holder(d);
      assert d != "";
      HolderNotStray(d);
    }
  }

  lemma RemovingEndsKept(prefix: string, base: string, B: Objects, B1: Objects, B2: Objects, K: string,
                         infos: seq<Info>)
    requires WellKept(base, B) && WellKept(base, B1) && Proper(base, K) && Removing(prefix, B, B1, K, infos)
    requires Lists(infos, Children(B, K))
    requires NoHolderFile(B, K)
    requires var last := if RootPrefix(prefix) then K + "/" else K;
      B2 == B1 || B2 == B1 - {Holder(K)} || B2 == B1 - {Holder(K)} - {last}
    requires RootPrefix(prefix) ==> K + "/" !in B
    ensures WellKept(base, B2)
  {
    hide Children, ValidKeys, Held, Lists, Holder, HasSuffix, Above, AtOrBelow;
    forall k | k in B1 && Above(K, k) ensures k == Holder(K) {
      HolderLeft(prefix, base, B, B1, K, infos, k);
    }
    RemoveHolderKeeps(base, B1, K);
    var B' := B1 - {Holder(K)};
    var last := if RootPrefix(prefix) then K + "/" else K;
    if last in B' {
      RemoveFileKeeps(base, B', last);
    } else {
      assert B' - {last} == B';
    }
  }
}
