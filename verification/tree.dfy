/**
 The reference: a file system as a tree of directories and files, and what each operation should do
 to it. The root is always there and is not recorded.
 */
module Tree {
  import opened Data
  import opened GoPath

  datatype Node = File(data: Bytes) | Dir

  type Tree = map<Path, Node>

  predicate Has(t: Tree, p: Path) {
    p == [] || p in t
  }

  predicate HasDir(t: Tree, p: Path) {
    p == [] || (p in t && t[p] == Dir)
  }

  predicate HasFile(t: Tree, p: Path) {
    p != [] && p in t && t[p].File?
  }

  function Parent(p: Path): Path
    requires p != []
  {
    p[..|p| - 1]
  }

  /** Paths are made of names, and everything above a node is a directory. */
  ghost predicate WellFormed(t: Tree) {
    forall p :: p in t ==> p != [] && ValidPath(p) && forall q :: q < p ==> HasDir(t, q)
  }

  function Without(t: Tree, p: Path): Tree {
    map q | q in t && !(p <= q) :: t[q]
  }

  /** The subtree at p, seen from p; the node p itself is at []. */
  function Subtree(t: Tree, p: Path): Tree {
    map q | q in (set r | r in t && p <= r :: r[|p|..]) && p + q in t :: t[p + q]
  }

  function Graft(s: Tree, q: Path): Tree {
    map r | r in (set x | x in s :: q + x) :: s[r[|q|..]]
  }

  function Move(t: Tree, p: Path, q: Path): Tree {
    Without(t, p) + Graft(Subtree(t, p), q)
  }

  datatype Op =
    | MkdirOp(p: Path)
    | WriteOp(p: Path, data: Bytes)
    | RenameOp(p: Path, q: Path)
    | RemoveOp(p: Path)

  /** What each operation should do; an operation that should fail changes nothing. */
  function Apply(t: Tree, op: Op): Tree {
    match op
    case MkdirOp(p) =>
      if p != [] && !Has(t, p) && HasDir(t, Parent(p)) then t[p := Dir] else t
    case WriteOp(p, data) =>
      if p != [] && !HasDir(t, p) && HasDir(t, Parent(p)) then t[p := File(data)] else t
    case RenameOp(p, q) =>
      if p == [] || q == [] || p <= q || p !in t then t
      else if q in t then
        if HasFile(t, p) && HasFile(t, q) then Without(t, p)[q := t[p]] else t
      else if HasDir(t, Parent(q)) then Move(t, p, q)
      else t
    case RemoveOp(p) =>
      if p == [] then t else Without(t, p)
  }

  datatype Fault = NotFound | Present | NotDirectory | IsDirectory | Invalid | Denied

  /** What each operation should answer. */
  function FaultOf(t: Tree, op: Op): Option<Fault> {
    match op
    case MkdirOp(p) =>
      if Has(t, p) then Some(Present) else ParentFault(t, p)
    case WriteOp(p, _) =>
      if HasDir(t, p) then Some(IsDirectory) else ParentFault(t, p)
    case RenameOp(p, q) =>
      if p == [] || q == [] || p < q then Some(Invalid)
      else if p !in t then Some(NotFound)
      else if p == q then None
      else if q in t then
        if HasFile(t, p) && HasFile(t, q) then None else Some(Present)
      else ParentFault(t, q)
    case RemoveOp(p) =>
      if p == [] then Some(Invalid) else None
  }

  function ParentFault(t: Tree, p: Path): Option<Fault>
    requires p != []
  {
    if HasDir(t, Parent(p)) then None
    else if HasFile(t, Parent(p)) then Some(NotDirectory)
    else Some(NotFound)
  }

  /** An operation that answers a fault changes nothing. */
  lemma FaultKeeps(t: Tree, op: Op)
    ensures FaultOf(t, op) != None ==> Apply(t, op) == t
  {
  }

  function ApplyAll(t: Tree, ops: seq<Op>): Tree
    decreases |ops|
  {
    if ops == [] then t else ApplyAll(Apply(t, ops[0]), ops[1..])
  }

  lemma MoveAt(t: Tree, p: Path, q: Path, r: Path)
    ensures r in Move(t, p, q) <==> if q <= r && p + r[|q|..] in t then true else r in t && !(p <= r)
    ensures r in Move(t, p, q) ==> Move(t, p, q)[r] == if q <= r && p + r[|q|..] in t then t[p + r[|q|..]] else t[r]
  {
    SubtreeAt(t, p, if q <= r then r[|q|..] else []);
    GraftAt(Subtree(t, p), q, r);
  }

  lemma SubtreeAt(t: Tree, p: Path, q: Path)
    ensures q in Subtree(t, p) <==> p + q in t
    ensures q in Subtree(t, p) ==> Subtree(t, p)[q] == t[p + q]
  {
    if p + q in t {
      assert (p + q)[|p|..] == q;
    }
    if q in Subtree(t, p) {
      var r :| r in t && p <= r && q == r[|p|..];
      assert r == p + q;
    }
  }

  lemma GraftAt(s: Tree, q: Path, r: Path)
    ensures r in Graft(s, q) <==> q <= r && r[|q|..] in s
    ensures r in Graft(s, q) ==> Graft(s, q)[r] == s[r[|q|..]]
  {
    if q <= r && r[|q|..] in s {
      assert r == q + r[|q|..];
    }
    if r in Graft(s, q) {
      var x :| x in s && r == q + x;
      assert r[|q|..] == x;
    }
  }

  /** A move takes the subtree as it is to its new place, and touches nothing else. */
  lemma MoveIsExact(t: Tree, p: Path, q: Path)
    requires WellFormed(t) && p in t && q != [] && q !in t && !(p <= q)
    ensures Subtree(Move(t, p, q), q) == Subtree(t, p)
    ensures Subtree(Move(t, p, q), p) == map[]
    ensures Without(Without(Move(t, p, q), p), q) == Without(t, p)
  {
    assert !(q <= p) by {
      assert q < p ==> HasDir(t, q);
    }
    MovedWhole(t, p, q);
    MovedAway(t, p, q);
    MovedAside(t, p, q);
  }

  lemma MovedWhole(t: Tree, p: Path, q: Path)
    requires WellFormed(t) && q != [] && q !in t && !(p <= q) && !(q <= p)
    ensures Subtree(Move(t, p, q), q) == Subtree(t, p)
  {
    hide Move, Subtree, WellFormed;
    var a, b := Subtree(Move(t, p, q), q), Subtree(t, p);
    forall r ensures (r in a <==> r in b) && (r in b ==> a[r] == b[r]) {
      MovedAt(t, p, q, r);
    }
  }

  lemma MovedAway(t: Tree, p: Path, q: Path)
    requires !(p <= q) && !(q <= p)
    ensures Subtree(Move(t, p, q), p) == map[]
  {
    hide Move, Subtree;
    var t' := Move(t, p, q);
    forall r ensures r !in Subtree(t', p) {
      SubtreeAt(t', p, r);
      MoveAt(t, p, q, p + r);
      Apart(q, p, p + r);
    }
  }

  lemma MovedAside(t: Tree, p: Path, q: Path)
    requires WellFormed(t) && q != [] && q !in t
    ensures Without(Without(Move(t, p, q), p), q) == Without(t, p)
  {
    hide Move, WellFormed;
    var a, b := Without(Without(Move(t, p, q), p), q), Without(t, p);
    forall r ensures (r in a <==> r in b) && (r in b ==> a[r] == b[r]) {
      MoveAt(t, p, q, r);
      if q <= r { NothingBelow(t, q, r); }
    }
  }

  lemma MovedAt(t: Tree, p: Path, q: Path, r: Path)
    requires WellFormed(t) && q != [] && q !in t && !(p <= q) && !(q <= p)
    ensures r in Subtree(Move(t, p, q), q) <==> r in Subtree(t, p)
    ensures r in Subtree(t, p) ==> Subtree(Move(t, p, q), q)[r] == Subtree(t, p)[r]
  {
    hide Move, Subtree;
    SubtreeAt(Move(t, p, q), q, r);
    SubtreeAt(t, p, r);
    MoveAt(t, p, q, q + r);
    assert (q + r)[|q|..] == r;
    Apart(p, q, q + r);
    NothingBelow(t, q, q + r);
  }

  lemma Apart(p: Path, q: Path, r: Path)
    requires !(p <= q) && !(q <= p)
    ensures !(p <= r && q <= r)
  {
  }

  lemma NothingBelow(t: Tree, q: Path, r: Path)
    requires WellFormed(t) && q != [] && q !in t && q <= r
    ensures r !in t
  {
    if q < r {
      assert r in t ==> HasDir(t, q);
    } else {
      assert q == r;
    }
  }

  predicate ValidOp(op: Op) {
    match op
    case MkdirOp(p) => ValidPath(p)
    case WriteOp(p, _) => ValidPath(p)
    case RenameOp(_, q) => ValidPath(q)
    case RemoveOp(_) => true
  }

  lemma AddKeeps(t: Tree, p: Path, n: Node)
    requires WellFormed(t) && p != [] && ValidPath(p) && HasDir(t, Parent(p)) && !HasDir(t, p)
    ensures WellFormed(t[p := n])
  {
    var t' := t[p := n];
    forall r | r in t' ensures forall q :: q < r ==> HasDir(t', q) {
      forall q | q < r ensures HasDir(t', q) {
        if r == p {
          PrefixOfParent(p, q);
          if q != Parent(p) {
            assert Parent(p) in t && q < Parent(p);
          }
          assert HasDir(t, q);
        } else {
          assert HasDir(t, q);
        }
      }
    }
  }

  lemma PrefixOfParent(p: Path, q: Path)
    requires q < p
    ensures q <= Parent(p) && (q == Parent(p) || q < Parent(p))
  {
    if |q| == |p| - 1 {
      assert q == Parent(p);
    }
  }

  lemma WithoutKeeps(t: Tree, p: Path)
    requires WellFormed(t)
    ensures WellFormed(Without(t, p))
  {
    var t' := Without(t, p);
    forall r, q | r in t' && q < r ensures HasDir(t', q) {
      assert HasDir(t, q);
      assert p <= q ==> p <= r;
    }
  }

  lemma MoveKeeps(t: Tree, p: Path, q: Path)
    requires WellFormed(t) && p in t && q != [] && q !in t && !(p <= q) && ValidPath(q) && HasDir(t, Parent(q))
    ensures WellFormed(Move(t, p, q))
  {
    var t' := Move(t, p, q);
    forall r | r in t' ensures r != [] && ValidPath(r) && forall s :: s < r ==> HasDir(t', s) {
      MoveAt(t, p, q, r);
      if q <= r && p + r[|q|..] in t {
        MovedKeeps(t, p, q, r);
      } else {
        forall s | s < r ensures HasDir(t', s) {
          MoveAt(t, p, q, s);
          assert HasDir(t, s);
          assert p <= s ==> p <= r;
          if q <= s { NothingBelow(t, q, s); }
        }
      }
    }
  }

  lemma MovedKeeps(t: Tree, p: Path, q: Path, r: Path)
    requires WellFormed(t) && p in t && q != [] && q !in t && !(p <= q) && ValidPath(q) && HasDir(t, Parent(q))
    requires q <= r && p + r[|q|..] in t
    ensures ValidPath(r) && forall s :: s < r ==> HasDir(Move(t, p, q), s)
  {
    var o := p + r[|q|..];
    assert r == q + r[|q|..];
    forall c | c in r ensures ValidName(c) {
      if c !in q { assert c in r[|q|..]; assert c in o; }
    }
    forall s | s < r ensures HasDir(Move(t, p, q), s) {
      MoveAt(t, p, q, s);
      if q <= s {
        assert p + s[|q|..] < o;
        assert HasDir(t, p + s[|q|..]);
      } else {
        assert s < q by { assert s == r[..|s|] && q == r[..|q|]; }
        PrefixOfParent(q, s);
        if s != [] {
          if s != Parent(q) { assert s < Parent(q) && Parent(q) in t; }
          assert HasDir(t, s);
          assert p <= s ==> p <= q;
        }
      }
    }
  }

  /** Every operation keeps the tree well formed. */
  lemma ApplyKeeps(t: Tree, op: Op)
    requires WellFormed(t) && ValidOp(op)
    ensures WellFormed(Apply(t, op))
  {
    hide WellFormed;
    match op
    case MkdirOp(p) =>
      if Apply(t, op) != t { AddKeeps(t, p, Dir); }
    case WriteOp(p, data) =>
      if Apply(t, op) != t { AddKeeps(t, p, File(data)); }
    case RenameOp(p, q) =>
      if p != [] && q != [] && !(p <= q) && p in t {
        if q in t {
          ReplaceKeeps(t, p, q);
        } else if HasDir(t, Parent(q)) {
          MoveKeeps(t, p, q);
        }
      }
    case RemoveOp(p) =>
      WithoutKeeps(t, p);
  }

  lemma ReplaceKeeps(t: Tree, p: Path, q: Path)
    requires WellFormed(t) && p in t && q in t && !(p <= q)
    ensures HasFile(t, p) && HasFile(t, q) ==> WellFormed(Without(t, p)[q := t[p]])
  {
    WithoutKeeps(t, p);
    if HasFile(t, p) && HasFile(t, q) {
      var t1 := Without(t, p);
      assert q in t1 && q != [];
      forall s | s < q ensures HasDir(t1, s) {
      }
      PrefixOfParent(q, Parent(q));
      AddKeeps(t1, q, t[p]);
    }
  }
}
