/**
 What a move never loses, whatever call fails: a listing that fails can leave a directory without its
 holder at the new place, but each file is at its old or at its new key.
 */
module S3Keeping {
  import opened GoPath
  import opened S3Keys
  import opened S3Invariant
  import opened S3Moves
  import opened S3Status
  import opened S3Removal
  import opened S3Rename

  /** Each key below K that does not end like a holder's is still there or is at N. */
  ghost predicate FilesKept(B: Objects, B': Objects, K: string, N: string) {
    forall k :: k in B && AtOrBelow(K, k) && !HasSuffix(k, DIR_HOLDER) ==>
      Get(B', k) == Get(B, k) || Get(B', Moved(K, N, k)) == Get(B, k)
  }

  /** The entries of K other than S are as they were. */
  ghost predicate RestSame(B: Objects, B1: Objects, K: string, S: set<string>) {
    forall k :: k in B && Above(K, k) && Seg(K, k) !in S ==> Get(B1, k) == Get(B, k)
  }

  /** Nothing is at N but the holder and the entries S. */
  ghost predicate RoomLeft(B1: Objects, N: string, S: set<string>) {
    forall k :: k in B1 && Above(N, k) ==> Seg(N, k) == DIR_HOLDER || Seg(N, k) in S
  }

  /** In the middle of a move, after the entries S, whatever failed. */
  ghost predicate Underway(B: Objects, B1: Objects, K: string, N: string, S: set<string>) {
    RestSame(B, B1, K, S) && RoomLeft(B1, N, S) && FilesKept(B, B1, K, N)
  }

  lemma KeptSame(B: Objects, K: string, N: string)
    ensures FilesKept(B, B, K, N)
  {
  }

  lemma UnderwayStarts(B: Objects, B1: Objects, K: string, N: string)
    requires Movable(B, K, N) && (B1 == B || B1 == B[Holder(N) := []])
    ensures Underway(B, B1, K, N, {}) && FilesKept(B, B1, K, N)
  {
    hide Seg, Whole, Occupied, Moved, HasSuffix;
    HolderSeg(N);
    HolderIsChild(N);
    forall k | k in B ensures Get(B1, k) == Get(B, k) {
      assert !AtOrBelow(N, k);
    }
    forall k | k in B1 && Above(N, k) ensures Seg(N, k) == DIR_HOLDER {
      assert k in B ==> !AtOrBelow(N, k);
    }
  }

  /** An entry that has not been tried can be moved. */
  lemma UnderwayEntry(base: string, B: Objects, B1: Objects, K: string, N: string, S: set<string>, i: Info)
    requires ValidKeys(base, B) && Proper(base, K) && K !in B && i in Children(B, K) && Disjoint(Child(K, i.name), N)
    requires Movable(B, K, N) && i.name !in S && Framed(B, B1, K, N) && Underway(B, B1, K, N, S)
    ensures ValidName(i.name) && i.name != DIR_HOLDER && SameAt(B, B1, Child(K, i.name))
    ensures Movable(B1, Child(K, i.name), Child(N, i.name))
  {
    hide Child, ValidName, Disjoint, Children, Whole, Proper, ValidKeys, Occupied, AtOrBelow, Above, FilesKept,
      Framed, Seg;
    WholeEntry(base, B, K, i);
    var x := i.name;
    NameNotEmpty(x);
    var c, n := Child(K, x), Child(N, x);
    ChildApart(c, N, x);
    NotAtOrBelow(c, n);
    NotItsHolder(c, n);
    UnderwaySame(B, B1, K, N, S, x);
    EntryWhole(B, B1, K, x);
    EntryPresent(base, B, B1, K, i);
    forall k | AtOrBelow(n, k) ensures k !in B1 {
      SegIsChild(N, x, k);
    }
    ChildNotRoot(K, x);
    ChildNotRoot(N, x);
  }

  lemma UnderwaySame(B: Objects, B1: Objects, K: string, N: string, S: set<string>, x: string)
    requires Disjoint(Child(K, x), N) && ValidName(x) && x !in S && Framed(B, B1, K, N) && Underway(B, B1, K, N, S)
    ensures SameAt(B, B1, Child(K, x))
  {
    hide Child, ValidName, Disjoint, AtOrBelow, FilesKept, Seg;
    NameNotEmpty(x);
    forall k | AtOrBelow(Child(K, x), k) ensures Get(B1, k) == Get(B, k) {
      SegIsChild(K, x, k);
      ChildAtOrBelow(K, x, k);
      ApartSides(Child(K, x), N, k);
    }
  }

  /** One more entry, moved or not. */
  lemma UnderwayNext(B: Objects, B1: Objects, B2: Objects, K: string, N: string, S: set<string>, x: string)
    requires Movable(B, K, N) && K !in B && Disjoint(Child(K, x), N) && ValidName(x) && x !in S
    requires Framed(B, B1, K, N) && Underway(B, B1, K, N, S) && SameAt(B, B1, Child(K, x))
    requires Framed(B1, B2, Child(K, x), Child(N, x)) && FilesKept(B1, B2, Child(K, x), Child(N, x))
    ensures Underway(B, B2, K, N, S + {x})
  {
    hide Child, ValidName, Disjoint, AtOrBelow, Above, Seg, Whole, Occupied, HasSuffix, Moved, Get, SameAt, Framed,
      FilesKept, Fresh;
    NameNotEmpty(x);
    var c, n := Child(K, x), Child(N, x);
    forall k | k in B && Above(K, k) && Seg(K, k) !in S + {x} ensures Get(B2, k) == Get(B, k) {
      SegIsChild(K, x, k);
      StaysOld(B, B1, B2, K, N, x, k);
    }
    forall k | k in B2 && Above(N, k) ensures Seg(N, k) == DIR_HOLDER || Seg(N, k) in S + {x} {
      SegIsChild(N, x, k);
      if !AtOrBelow(n, k) {
        StaysNew(B1, B2, K, N, x, k);
        GetIn(B1, k);
        GetIn(B2, k);
      }
    }
    FilesKeptNext(B, B1, B2, K, N, x);
  }

  /** Keys of other entries, at the old place. */
  lemma StaysOld(B: Objects, B1: Objects, B2: Objects, K: string, N: string, x: string, k: string)
    requires Fresh(B, N) && ValidName(x) && k in B && !AtOrBelow(Child(K, x), k)
    requires Framed(B1, B2, Child(K, x), Child(N, x))
    ensures Get(B2, k) == Get(B1, k)
  {
    hide Child, ValidName, AtOrBelow, Get;
    ChildAtOrBelow(N, x, k);
  }

  /** Keys of other entries, at the new place. */
  lemma StaysNew(B1: Objects, B2: Objects, K: string, N: string, x: string, k: string)
    requires Disjoint(Child(K, x), N) && Above(N, k) && !AtOrBelow(Child(N, x), k)
    requires Framed(B1, B2, Child(K, x), Child(N, x))
    ensures Get(B2, k) == Get(B1, k)
  {
    hide Child, Disjoint, Get;
    DisjointSwaps(Child(K, x), N);
    ApartSides(N, Child(K, x), k);
  }

  lemma FilesKeptNext(B: Objects, B1: Objects, B2: Objects, K: string, N: string, x: string)
    requires K != "" && N != "" && Fresh(B, N) && K !in B && Disjoint(Child(K, x), N) && ValidName(x)
    requires FilesKept(B, B1, K, N) && SameAt(B, B1, Child(K, x))
    requires Framed(B1, B2, Child(K, x), Child(N, x)) && FilesKept(B1, B2, Child(K, x), Child(N, x))
    ensures FilesKept(B, B2, K, N)
  {
    hide Child, ValidName, Disjoint, AtOrBelow, HasSuffix, Moved, Framed, Fresh;
    var c, n := Child(K, x), Child(N, x);
    NameNotEmpty(x);
    forall k | k in B && AtOrBelow(K, k) && !HasSuffix(k, DIR_HOLDER)
      ensures Get(B2, k) == Get(B, k) || Get(B2, Moved(K, N, k)) == Get(B, k)
    {
      if AtOrBelow(c, k) {
        MovedChild(K, N, x, k);
        assert Get(B1, k) == Get(B, k);
      } else if Get(B1, k) == Get(B, k) {
        StaysOld(B, B1, B2, K, N, x, k);
      } else {
        MovedElsewhere(K, N, x, k);
        StaysNew(B1, B2, K, N, x, Moved(K, N, k));
      }
    }
  }

  lemma MovedElsewhere(K: string, N: string, x: string, k: string)
    requires K != "" && N != "" && ValidName(x) && AtOrBelow(K, k) && k != K && !AtOrBelow(Child(K, x), k)
    ensures Above(N, Moved(K, N, k)) && !AtOrBelow(Child(N, x), Moved(K, N, k))
  {
    hide Child, ValidName, Moved;
    NameNotEmpty(x);
    MovedBack(K, N, k);
    SegIsChild(K, x, k);
    SegIsChild(N, x, Moved(K, N, k));
  }

  /** The end of the move. */
  lemma KeptEnds(B: Objects, B1: Objects, B2: Objects, K: string, N: string)
    requires FilesKept(B, B1, K, N) && K !in B && K != "" && N != "" && !AtOrBelow(N, K)
    requires B2 == B1 || B2 == B1 - {Holder(K)} || B2 == B1 - {Holder(K)} - {K}
    ensures FilesKept(B, B2, K, N)
  {
    hide HasSuffix;
    HolderIsChild(K);
    forall k | k in B && AtOrBelow(K, k) && !HasSuffix(k, DIR_HOLDER)
      ensures Get(B2, k) == Get(B, k) || Get(B2, Moved(K, N, k)) == Get(B, k)
    {
      assert k != Holder(K) && k != K;
      MovedPlain(K, N, k);
    }
  }

  /** A file is not moved to a holder's key, nor to the old place itself. */
  lemma MovedPlain(K: string, N: string, k: string)
    requires AtOrBelow(K, k) && k != K && K != "" && N != "" && !AtOrBelow(N, K) && !HasSuffix(k, DIR_HOLDER)
    ensures Moved(K, N, k) != Holder(K) && Moved(K, N, k) != K
  {
    hide HasSuffix;
    MovedBack(K, N, k);
    SuffixOfTail(K + "/", Rest(K, k));
    SuffixOfTail(N + "/", Rest(N, Moved(K, N, k)));
    RestIs(K, k);
    RestIs(N, Moved(K, N, k));
    HolderIsChild(K);
  }

  /** The move of a file. */
  lemma KeptFile(B: Objects, B2: Objects, K: string, N: string)
    requires Movable(B, K, N) && K in B
    requires var B1 := B[N := B[K]]; B2 == B || B2 == B1 || B2 == B1 - {K}
    ensures FilesKept(B, B2, K, N)
  {
    hide HasSuffix;
    forall k | k in B && AtOrBelow(K, k) ensures k == K {
      assert Above(K, k) && AtOrBelow(K, K) ==> K !in B;
    }
    assert Moved(K, N, K) == N;
  }
}
