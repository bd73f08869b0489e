/**
 What every operation of the S3 file system keeps: each directory above a key has its holder, and no
 key is both a file and a directory.
 */
module S3Invariant {
  import opened Data
  import opened GoPath
  import opened S3Keys
  import opened S3Client

  /** A key below the place the file system is rooted at. */
  predicate Inside(base: string, d: string) {
    Above(base, d) && d != base
  }

  ghost predicate Held(base: string, B: Objects) {
    forall k, d :: k in B && Inside(base, d) && Above(d, k) ==> d !in B && Holder(d) in B
  }

  ghost predicate IsHolder(base: string, k: string) {
    exists d :: Inside(base, d) && k == Holder(d)
  }

  /** Only holders have names that end like a holder's, and holders are empty. */
  ghost predicate NoStrayHolder(base: string, B: Objects) {
    forall k :: k in B && Above(base, k) && HasSuffix(k, DIR_HOLDER) ==> IsHolder(base, k) && B[k] == []
  }

  ghost predicate WellKept(base: string, B: Objects) {
    ValidKeys(base, B) && Held(base, B) && NoStrayHolder(base, B)
  }

  /** P is a directory: the root, or a key with a holder. */
  predicate IsDir(base: string, B: Objects, P: string) {
    P == base || Holder(P) in B
  }

  // ---------------------------------------------------------------- children

  lemma AboveChild(d: string, P: string, c: string)
    requires ValidName(c)
    ensures Above(d, Child(P, c)) <==> AtOrBelow(d, P)
    ensures Above(P, Child(P, c)) && Child(P, c) != ""
  {
    var K := Child(P, c);
    if Above(d, K) && d != "" {
      assert K[|d|] == '/' && d == K[..|d|];
      assert Slash(P)[..|d| + 1] == d + "/";
      if |d| + 1 == |Slash(P)| {
        assert P == d by { assert Slash(P) == P + "/"; }
      } else {
        assert P[..|d| + 1] == d + "/";
      }
    }
  }

  lemma HolderInjective(a: string, b: string)
    requires Holder(a) == Holder(b)
    ensures a == b
  {
    var h := Holder(a);
    assert h[..|h| - |DIR_HOLDER|] == Slash(a);
    assert h[..|h| - |DIR_HOLDER|] == Slash(b);
    assert a == b by {
      if a != "" && b != "" {
        assert a == Slash(a)[..|a|];
        assert b == Slash(b)[..|b|];
      }
    }
  }

  lemma HolderIsChild(d: string)
    ensures Holder(d) == Child(d, DIR_HOLDER) && ValidName(DIR_HOLDER)
    ensures HasSuffix(Holder(d), DIR_HOLDER)
    ensures Above(d, Holder(d)) && !Above(Holder(d), Holder(d))
  {
  }

  /** In a well-kept bucket everything above a directory is a directory. */
  lemma AncestorsHeld(base: string, B: Objects, P: string, d: string)
    requires WellKept(base, B) && IsDir(base, B, P) && AtOrBelow(base, P)
    requires Inside(base, d) && AtOrBelow(d, P)
    ensures d !in B && Holder(d) in B
  {
    if P != base {
      HolderIsChild(P);
      AboveTransitive(d, P, Holder(P));
    }
  }

  // ---------------------------------------------------------------- each write keeps it

  lemma ChildKeyOk(base: string, P: string, c: string)
    requires AtOrBelow(base, P) && ValidName(c)
    requires P != base ==> ValidPath(Split(Rest(base, P)))
    ensures KeyOk(base, Child(P, c))
  {
    SplitNoSlash(c);
    var K := Child(P, c);
    if P == base {
      assert Rest(base, K) == c;
    } else {
      var a := Rest(base, P);
      assert Rest(base, K) == a + "/" + c;
      SplitConcat(a, c);
    }
  }

  lemma ParentKeyOk(base: string, P: string, k: string)
    requires KeyOk(base, k) && Above(P, k) && Inside(base, P)
    ensures ValidPath(Split(Rest(base, P)))
  {
    AboveTransitive(base, P, k);
    var a := Rest(base, P);
    assert P == Slash(base) + a;
    assert P != "";
    assert Rest(base, k) == a + "/" + Rest(P, k);
    SplitConcat(a, Rest(P, k));
    forall c | c in Split(a) ensures ValidName(c) {
      assert c in Split(Rest(base, k));
    }
  }

  /** A directory can be added below a directory where nothing is. */
  lemma PutHolderKeeps(base: string, B: Objects, P: string, c: string)
    requires WellKept(base, B) && AtOrBelow(base, P) && IsDir(base, B, P) && ValidName(c)
    requires !Seen(B, Child(P, c))
    ensures WellKept(base, B[Holder(Child(P, c)) := []])
  {
    hide Child, Above, AtOrBelow, HasSuffix, KeyOk, Seen, Held;
    var K := Child(P, c);
    AboveChild(base, P, c);
    HolderIsChild(K);
    ParentOk(base, B, P);
    ChildKeyOk(base, P, c);
    ChildKeyOk(base, K, DIR_HOLDER) by { AboveIsInside(base, P, c); }
    PutHolderHeld(base, B, P, c);
    assert Inside(base, K) && IsHolder(base, Holder(K)) by { AboveIsInside(base, P, c); }
  }

  lemma ParentOk(base: string, B: Objects, P: string)
    requires WellKept(base, B) && AtOrBelow(base, P) && IsDir(base, B, P)
    ensures P != base ==> ValidPath(Split(Rest(base, P)))
  {
    if P != base {
      HolderIsChild(P);
      ParentKeyOk(base, P, Holder(P));
    }
  }

  lemma AboveIsInside(base: string, P: string, c: string)
    requires AtOrBelow(base, P) && ValidName(c) && KeyOk(base, Child(P, c))
    ensures var K := Child(P, c); Inside(base, K) && AtOrBelow(base, K) && ValidPath(Split(Rest(base, K)))
  {
    AboveChild(base, P, c);
  }

  lemma PutHolderHeld(base: string, B: Objects, P: string, c: string)
    requires WellKept(base, B) && AtOrBelow(base, P) && IsDir(base, B, P) && ValidName(c)
    requires !Seen(B, Child(P, c))
    ensures Held(base, B[Holder(Child(P, c)) := []])
  {
    hide Child, Above, Holder, HasSuffix, KeyOk, ValidName, ValidKeys, NoStrayHolder, IsDir;
    var K := Child(P, c);
    var h := Holder(K);
    var B' := B[h := []];
    HolderIsChild(K);
    assert K !in B;
    forall k, d | k in B' && Inside(base, d) && Above(d, k)
      ensures d !in B' && Holder(d) in B'
    {
      if k == h {
        AboveChild(d, K, DIR_HOLDER);
        AboveChild(d, P, c);
        if d != K {
          AncestorsHeld(base, B, P, d);
        }
      } else {
        NothingBelowHolder(B, K, k);
        assert d !in B && Holder(d) in B;
      }
    }
  }

  lemma NothingBelowHolder(B: Objects, K: string, k: string)
    requires !Seen(B, K) && k in B
    ensures !Above(Holder(K), k)
  {
    assert K <= Holder(K);
  }

  /** A file can be put where no directory is, below a directory. */
  lemma PutFileKeeps(base: string, B: Objects, P: string, c: string, data: Bytes)
    requires WellKept(base, B) && AtOrBelow(base, P) && IsDir(base, B, P) && ValidName(c)
    requires !HasSuffix(Child(P, c), DIR_HOLDER)
    requires forall k :: k in B ==> !Above(Child(P, c), k)
    ensures WellKept(base, B[Child(P, c) := data])
  {
    var K := Child(P, c);
    var B' := B[K := data];
    if P != base {
      HolderIsChild(P);
      ParentKeyOk(base, P, Holder(P));
    }
    ChildKeyOk(base, P, c);
    forall k, d | k in B' && Inside(base, d) && Above(d, k)
      ensures d !in B' && Holder(d) in B'
    {
      if k == K {
        AboveChild(d, P, c);
        AncestorsHeld(base, B, P, d);
        AboveChild(K, P, c);
      }
    }
  }

  /** A file can go. */
  lemma RemoveFileKeeps(base: string, B: Objects, K: string)
    requires WellKept(base, B)
    requires Above(base, K) ==> !HasSuffix(K, DIR_HOLDER)
    ensures WellKept(base, B - {K})
  {
    forall k, d | k in B - {K} && Inside(base, d) && Above(d, k)
      ensures d !in B - {K} && Holder(d) in B - {K}
    {
      HolderIsChild(d);
      AboveTransitive(base, d, Holder(d));
    }
  }

  /** A holder can go when nothing else is left below its directory. */
  lemma RemoveHolderKeeps(base: string, B: Objects, K: string)
    requires WellKept(base, B)
    requires forall k :: k in B && Above(K, k) ==> k == Holder(K)
    ensures WellKept(base, B - {Holder(K)})
  {
    var h := Holder(K);
    forall k, d | k in B - {h} && Inside(base, d) && Above(d, k)
      ensures d !in B - {h} && Holder(d) in B - {h}
    {
      if Holder(d) == h {
        HolderInjective(d, K);
      }
    }
  }
}
