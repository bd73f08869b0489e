/**
 The order in which a tree is walked, and listings of subtrees in that order.
 */
module WalkOrder {
  import opened GoPath
  import opened Tree

  // ---------------------------------------------------------------- the order of names and paths

  /** Go's order of strings. */
  predicate StrLess(a: string, b: string) {
    b != "" && (a == "" || a[0] < b[0] || (a[0] == b[0] && StrLess(a[1..], b[1..])))
  }

  lemma {:induction false} StrAsymmetric(a: string, b: string)
    ensures !(StrLess(a, b) && StrLess(b, a))
  {
    if a != "" && b != "" {
      StrAsymmetric(a[1..], b[1..]);
    }
  }

  lemma {:induction false} StrTransitive(a: string, b: string, c: string)
    requires StrLess(a, b) && StrLess(b, c)
    ensures StrLess(a, c)
  {
    if a != "" && a[0] == b[0] && b[0] == c[0] {
      StrTransitive(a[1..], b[1..], c[1..]);
    }
  }

  lemma {:induction false} StrTotal(a: string, b: string)
    ensures StrLess(a, b) || StrLess(b, a) || a == b
  {
    if a != "" && b != "" && a[0] == b[0] {
      StrTotal(a[1..], b[1..]);
      assert a == [a[0]] + a[1..] && b == [b[0]] + b[1..];
    }
  }

  /** Component by component. */
  predicate Less(p: Path, q: Path) {
    q != [] && (p == [] || StrLess(p[0], q[0]) || (p[0] == q[0] && Less(p[1..], q[1..])))
  }

  lemma {:induction false} LessAsymmetric(p: Path, q: Path)
    ensures !(Less(p, q) && Less(q, p))
  {
    if p != [] && q != [] {
      LessAsymmetric(p[1..], q[1..]);
      StrAsymmetric(p[0], q[0]);
      StrAsymmetric(p[0], p[0]);
    }
  }

  lemma {:induction false} LessBelow(p: Path, q: Path)
    requires p < q
    ensures Less(p, q)
  {
    if p != [] {
      assert p[0] == q[0] && p[1..] < q[1..];
      LessBelow(p[1..], q[1..]);
    }
  }

  lemma {:induction false} LessBeside(d: Path, a: string, b: string, p: Path, q: Path)
    requires StrLess(a, b) && d + [a] <= p && d + [b] <= q
    ensures Less(p, q)
  {
    if d == [] {
      assert p[0] == (d + [a])[0] && q[0] == (d + [b])[0];
    } else {
      assert p[0] == (d + [a])[0] == d[0] && q[0] == (d + [b])[0] == d[0];
      assert (d + [a])[1..] == d[1..] + [a] && (d + [b])[1..] == d[1..] + [b];
      LessBeside(d[1..], a, b, p[1..], q[1..]);
    }
  }

  // ---------------------------------------------------------------- listings

  /** A call of the walk function: for a node, or, failed, for a directory that could not be read. */
  datatype Entry = Entry(path: Path, isDir: bool, failed: bool)

  predicate Before(a: Entry, b: Entry) {
    Less(a.path, b.path) || (a.path == b.path && !a.failed && b.failed)
  }

  ghost predicate Sorted(es: seq<Entry>) {
    forall i, j :: 0 <= i < j < |es| ==> Before(es[i], es[j])
  }

  /** What a walk from p can come across. */
  ghost predicate Listed(t: Tree, denied: set<Path>, p: Path, e: Entry) {
    && p <= e.path && Has(t, e.path) && e.isDir == HasDir(t, e.path)
    && (forall r :: p <= r && r < e.path ==> r !in denied)
    && (e.failed ==> e.isDir && e.path in denied)
  }

  ghost predicate IsListing(t: Tree, denied: set<Path>, p: Path, es: seq<Entry>) {
    Sorted(es) && forall e :: e in es <==> Listed(t, denied, p, e)
  }

  lemma BeforeAsymmetric(a: Entry, b: Entry)
    ensures !(Before(a, b) && Before(b, a))
  {
    LessAsymmetric(a.path, b.path);
    LessAsymmetric(a.path, a.path);
  }

  lemma EmptyAlike<T>(a: seq<T>, b: seq<T>)
    requires forall e :: e in a <==> e in b
    ensures a == [] <==> b == []
  {
    if |a| > 0 { assert a[0] in b; }
    if |b| > 0 { assert b[0] in a; }
  }

  /** There is only one listing. */
  lemma {:induction false} SortedUnique(a: seq<Entry>, b: seq<Entry>)
    requires Sorted(a) && Sorted(b) && forall e :: e in a <==> e in b
    ensures a == b
    decreases |a|
  {
    EmptyAlike(a, b);
    if a != [] {
      assert a[0] in a && b[0] in b;
      if a[0] != b[0] {
        var j :| 0 <= j < |b| && b[j] == a[0];
        var i :| 0 <= i < |a| && a[i] == b[0];
        assert Before(b[0], b[j]) && Before(a[0], a[i]);
        BeforeAsymmetric(a[0], b[0]);
        assert false;
      }
      var x, a', b' := a[0], a[1..], b[1..];
      assert a == [x] + a' && b == [x] + b';
      SortedTail(a);
      SortedTail(b);
      forall e ensures e in a' <==> e in b' {
        assert e in a <==> e == x || e in a';
        assert e in b <==> e == x || e in b';
      }
      SortedUnique(a', b');
    }
  }

  lemma SortedTail(a: seq<Entry>)
    requires Sorted(a) && a != []
    ensures Sorted(a[1..]) && a[0] !in a[1..]
  {
    BeforeAsymmetric(a[0], a[0]);
    assert forall j :: 0 < j < |a| ==> Before(a[0], a[j]);
  }

  lemma SortedConcat(a: seq<Entry>, b: seq<Entry>)
    requires Sorted(a) && Sorted(b) && forall x, y :: x in a && y in b ==> Before(x, y)
    ensures Sorted(a + b)
  {
    var c := a + b;
    forall i, j | 0 <= i < j < |c| ensures Before(c[i], c[j]) {
      if i < |a| && |a| <= j {
        assert c[i] in a && c[j] in b;
      }
    }
  }

  // ---------------------------------------------------------------- the listing of a directory

  function Flat(ls: seq<seq<Entry>>): seq<Entry> {
    if ls == [] then [] else Flat(ls[..|ls| - 1]) + ls[|ls| - 1]
  }

  /** The names of the entries of p, in order. */
  ghost predicate SortedNames(t: Tree, p: Path, cs: seq<string>) {
    && (forall i, j :: 0 <= i < j < |cs| ==> StrLess(cs[i], cs[j]))
    && (forall c :: c in cs <==> p + [c] in t)
  }

  ghost predicate ListingsOf(t: Tree, denied: set<Path>, p: Path, cs: seq<string>, ls: seq<seq<Entry>>) {
    |ls| == |cs| && forall k :: 0 <= k < |cs| ==> IsListing(t, denied, p + [cs[k]], ls[k])
  }

  lemma {:induction false} FlatHas(ls: seq<seq<Entry>>, k: nat, e: Entry)
    requires k < |ls| && e in ls[k]
    ensures e in Flat(ls)
    decreases |ls|
  {
    var n := |ls| - 1;
    if k < n { FlatHas(ls[..n], k, e); }
  }

  lemma {:induction false} FlatFrom(ls: seq<seq<Entry>>, e: Entry) returns (k: nat)
    requires e in Flat(ls)
    ensures k < |ls| && e in ls[k]
    decreases |ls|
  {
    var n := |ls| - 1;
    if e in ls[n] {
      k := n;
    } else {
      k := FlatFrom(ls[..n], e);
    }
  }

  /** The parts of a directory's listing, and what lies under one entry. */
  lemma {:induction false} FlatSorted(t: Tree, denied: set<Path>, p: Path, cs: seq<string>, ls: seq<seq<Entry>>, n: nat)
    requires ListingsOf(t, denied, p, cs, ls) && n <= |cs|
    requires forall i, j :: 0 <= i < j < |cs| ==> StrLess(cs[i], cs[j])
    ensures Sorted(Flat(ls[..n]))
    decreases n
  {
    hide Listed;
    if n > 0 {
      FlatSorted(t, denied, p, cs, ls, n - 1);
      assert ls[..n][..n - 1] == ls[..n - 1];
      var a, b := Flat(ls[..n - 1]), ls[n - 1];
      assert IsListing(t, denied, p + [cs[n - 1]], b);
      forall x, y | x in a && y in b ensures Before(x, y) {
        var k := FlatFrom(ls[..n - 1], x);
        assert IsListing(t, denied, p + [cs[k]], ls[k]);
        ListedBelow(t, denied, p + [cs[k]], x);
        ListedBelow(t, denied, p + [cs[n - 1]], y);
        LessBeside(p, cs[k], cs[n - 1], x.path, y.path);
      }
      SortedConcat(a, b);
    }
  }

  lemma ListedBelow(t: Tree, denied: set<Path>, p: Path, e: Entry)
    requires Listed(t, denied, p, e)
    ensures p <= e.path
  {
  }

  /** The listing of a directory: the directory, and then the listings of its entries in order. */
  lemma DirListing(t: Tree, denied: set<Path>, p: Path, cs: seq<string>, ls: seq<seq<Entry>>)
    requires WellFormed(t) && HasDir(t, p) && p !in denied
    requires SortedNames(t, p, cs) && ListingsOf(t, denied, p, cs, ls)
    ensures IsListing(t, denied, p, [Entry(p, true, false)] + Flat(ls))
  {
    var d, rest := Entry(p, true, false), Flat(ls);
    FlatSorted(t, denied, p, cs, ls, |cs|);
    assert ls[..|cs|] == ls;
    forall e ensures e in [d] + rest <==> Listed(t, denied, p, e) {
      DirMember(t, denied, p, cs, ls, e);
    }
    forall x, y | x in [d] && y in rest ensures Before(x, y) {
      var k := FlatFrom(ls, y);
      assert IsListing(t, denied, p + [cs[k]], ls[k]);
      assert p < y.path;
      LessBelow(p, y.path);
    }
    SortedConcat([d], rest);
  }

  lemma DirMember(t: Tree, denied: set<Path>, p: Path, cs: seq<string>, ls: seq<seq<Entry>>, e: Entry)
    requires WellFormed(t) && HasDir(t, p) && p !in denied
    requires SortedNames(t, p, cs) && ListingsOf(t, denied, p, cs, ls)
    ensures e in [Entry(p, true, false)] + Flat(ls) <==> Listed(t, denied, p, e)
  {
    if e in Flat(ls) {
      var k := FlatFrom(ls, e);
      assert IsListing(t, denied, p + [cs[k]], ls[k]);
      ListedFurther(t, denied, p, cs[k], e);
    }
    if Listed(t, denied, p, e) && e.path != p {
      var c := e.path[|p|];
      var q := p + [c];
      assert q == e.path[..|p| + 1] && q <= e.path;
      assert e.path in t;
      if q < e.path {
        assert HasDir(t, q);
      } else {
        assert q == e.path;
      }
      assert q in t;
      assert c in cs;
      var k :| 0 <= k < |cs| && cs[k] == c;
      assert IsListing(t, denied, p + [cs[k]], ls[k]);
      ListedNearer(t, denied, p, c, e);
      FlatHas(ls, k, e);
    }
    if Listed(t, denied, p, e) && e.path == p {
      assert e == Entry(p, true, false);
    }
    if e == Entry(p, true, false) {
      ListedSelf(t, denied, e);
    }
  }

  lemma ListedSelf(t: Tree, denied: set<Path>, e: Entry)
    requires Has(t, e.path) && e.isDir == HasDir(t, e.path) && (e.failed ==> e.isDir && e.path in denied)
    ensures Listed(t, denied, e.path, e)
  {
  }

  lemma ListedDenied(t: Tree, denied: set<Path>, p: Path, e: Entry)
    requires Listed(t, denied, p, e) && p in denied
    ensures e.path == p
  {
    assert p <= p;
    assert !(p < e.path);
  }

  lemma ListedFurther(t: Tree, denied: set<Path>, p: Path, c: string, e: Entry)
    requires Listed(t, denied, p + [c], e) && p !in denied
    ensures Listed(t, denied, p, e)
  {
    var q := p + [c];
    forall r | p <= r && r < e.path ensures r !in denied {
      if r != p {
        assert r[|p|] == e.path[|p|] == q[|p|];
        assert q == r[..|q|] by { assert r[..|q|] == e.path[..|q|]; }
      }
    }
  }

  lemma ListedNearer(t: Tree, denied: set<Path>, p: Path, c: string, e: Entry)
    requires Listed(t, denied, p, e) && p + [c] <= e.path
    ensures Listed(t, denied, p + [c], e)
  {
    forall r | p + [c] <= r && r < e.path ensures r !in denied {
      assert p <= r;
    }
  }

  /** A directory that cannot be read is come across twice, and nothing below it. */
  lemma DeniedListing(t: Tree, denied: set<Path>, p: Path)
    requires HasDir(t, p) && p in denied
    ensures IsListing(t, denied, p, [Entry(p, true, false), Entry(p, true, true)])
  {
    var es := [Entry(p, true, false), Entry(p, true, true)];
    forall e ensures e in es <==> Listed(t, denied, p, e) {
      if Listed(t, denied, p, e) {
        ListedDenied(t, denied, p, e);
      }
      if e in es { ListedSelf(t, denied, e); }
    }
  }

  lemma FileListing(t: Tree, denied: set<Path>, p: Path)
    requires WellFormed(t) && HasFile(t, p)
    ensures IsListing(t, denied, p, [Entry(p, false, false)])
  {
    var es := [Entry(p, false, false)];
    forall e ensures e in es <==> Listed(t, denied, p, e) {
      if Listed(t, denied, p, e) {
        assert p < e.path && e.path in t ==> HasDir(t, p);
        assert e.path == p;
      }
      if e in es { ListedSelf(t, denied, e); }
    }
  }

  // ---------------------------------------------------------------- every subtree has a listing

  function NodesAt(t: Tree, p: Path): set<Path> {
    set q | q in t.Keys + {[]} && p <= q
  }

  lemma ChildSmaller(t: Tree, p: Path, c: string)
    requires Has(t, p)
    ensures NodesAt(t, p + [c]) < NodesAt(t, p)
  {
    assert p in NodesAt(t, p) && p !in NodesAt(t, p + [c]);
  }

  lemma {:induction false} NamesSort(s: set<string>) returns (cs: seq<string>)
    ensures forall i, j :: 0 <= i < j < |cs| ==> StrLess(cs[i], cs[j])
    ensures forall c :: c in cs <==> c in s
    decreases s
  {
    if s == {} {
      cs := [];
    } else {
      var m := LeastName(s);
      var rest := NamesSort(s - {m});
      cs := [m] + rest;
      forall i, j | 0 <= i < j < |cs| ensures StrLess(cs[i], cs[j]) {
        assert cs[j] in rest;
      }
    }
  }

  lemma {:induction false} LeastName(s: set<string>) returns (m: string)
    requires s != {}
    ensures m in s && forall c :: c in s && c != m ==> StrLess(m, c)
    decreases s
  {
    var x :| x in s;
    if s == {x} {
      m := x;
    } else {
      var y := LeastName(s - {x});
      StrTotal(x, y);
      m := if StrLess(x, y) then x else y;
      forall c | c in s && c != m ensures StrLess(m, c) {
        if m == x && c != y { StrTransitive(x, y, c); }
      }
    }
  }

  lemma EntryNamesOf(t: Tree, p: Path) returns (cs: seq<string>)
    ensures SortedNames(t, p, cs)
  {
    var s := set q | q in t && q != [] && Parent(q) == p :: q[|q| - 1];
    cs := NamesSort(s);
    forall c ensures c in s <==> p + [c] in t {
      if p + [c] in t { assert Parent(p + [c]) == p; }
      if c in s {
        var q :| q in t && q != [] && Parent(q) == p && c == q[|q| - 1];
        assert q == p + [c];
      }
    }
  }

  lemma {:induction false} MakeListing(t: Tree, denied: set<Path>, p: Path) returns (es: seq<Entry>)
    requires WellFormed(t) && Has(t, p)
    ensures IsListing(t, denied, p, es)
    decreases NodesAt(t, p), 1
  {
    if HasFile(t, p) {
      FileListing(t, denied, p);
      es := [Entry(p, false, false)];
    } else if p in denied {
      DeniedListing(t, denied, p);
      es := [Entry(p, true, false), Entry(p, true, true)];
    } else {
      var cs := EntryNamesOf(t, p);
      var ls := MakeListings(t, denied, p, cs);
      DirListing(t, denied, p, cs, ls);
      es := [Entry(p, true, false)] + Flat(ls);
    }
  }

  lemma {:induction false} MakeListings(t: Tree, denied: set<Path>, p: Path,
                                        cs: seq<string>) returns (ls: seq<seq<Entry>>)
    requires WellFormed(t) && Has(t, p) && forall c :: c in cs ==> p + [c] in t
    ensures ListingsOf(t, denied, p, cs, ls)
    decreases NodesAt(t, p), 0, |cs|
  {
    hide IsListing, WellFormed, NodesAt;
    if cs == [] {
      ls := [];
    } else {
      var n := |cs| - 1;
      assert forall c :: c in cs[..n] ==> c in cs;
      assert cs[n] in cs;
      var before := MakeListings(t, denied, p, cs[..n]);
      ChildSmaller(t, p, cs[n]);
      var es := MakeListing(t, denied, p + [cs[n]]);
      ls := before + [es];
      forall k | 0 <= k < |cs| ensures IsListing(t, denied, p + [cs[k]], ls[k]) {
        if k < n { assert cs[..n][k] == cs[k]; }
      }
    }
  }
}
