/**
 WalkDir with an arbitrary callback, against the flat reading of what it may visit.
 */
module Walk {
  import opened Data
  import opened GoPath
  import opened Tree
  import opened TreeFs
  import opened WalkOrder
  import opened WalkScan

  // ---------------------------------------------------------------- what part of a walk has done

  /** The last answer, and no other, ended the walk. */
  ghost predicate Stopped(visited: seq<Told>, err: Option<WalkErr>) {
    && visited != [] && Final(visited[|visited| - 1].act) && err == ErrOf(visited[|visited| - 1].act)
    && forall v :: v in visited[..|visited| - 1] ==> !Final(v.act)
  }

  /** What a part of a walk has done: the entries `visited` of the listing es, in order, after V; and
      what its error tells of the last of them. */
  ghost predicate Walked(w: Walker, V: seq<Told>, es: seq<Entry>, visited: seq<Told>, err: Option<WalkErr>) {
    && Scan(w, V, es) == V + visited
    && (forall v :: v in visited ==> v.entry in es)
    && (err.None? || err == Some(Skip) ==> forall v :: v in visited ==> !Final(v.act))
    && (err.Some? && err != Some(Skip) ==> Stopped(visited, err))
  }

  /** What walking the node p may leave behind for entries that are not at or below p. */
  ghost predicate Harmless(p: Path, visited: seq<Told>) {
    forall e: Entry :: !(p <= e.path) ==> !Cut(visited, e)
  }

  // ---------------------------------------------------------------- one node

  lemma SelfListed(t: Tree, denied: set<Path>, p: Path, es: seq<Entry>)
    requires WellFormed(t) && Has(t, p) && IsListing(t, denied, p, es)
    ensures es != [] && es[0] == Entry(p, HasDir(t, p), false)
    ensures forall e :: e in es ==> p <= e.path
  {
    var d := Entry(p, HasDir(t, p), false);
    ListedSelf(t, denied, d);
    assert d in es;
    var i :| 0 <= i < |es| && es[i] == d;
    if i > 0 {
      var x := es[0];
      assert x in es;
      assert Before(x, d);
      if x.path == p {
        LessIrreflexive(p);
      } else {
        LessBelow(p, x.path);
        LessAsymmetric(p, x.path);
      }
      assert false;
    }
  }

  lemma {:induction false} LessIrreflexive(p: Path)
    ensures !Less(p, p)
  {
    LessAsymmetric(p, p);
  }

  /** The callback is done with p at once: p is a file, or it did not let the walk go on. */
  lemma WalkedOne(t: Tree, denied: set<Path>, w: Walker, p: Path, V: seq<Told>, es: seq<Entry>)
    requires WellFormed(t) && Has(t, p) && IsListing(t, denied, p, es)
    requires forall e :: e in es ==> !Cut(V, e)
    requires var d := Entry(p, HasDir(t, p), false); !d.isDir || ActOf(w, V, d) != Continue
    ensures var d := Entry(p, HasDir(t, p), false); var a := ActOf(w, V, d);
      var err := if a == SkipDir && d.isDir then None else ErrOf(a);
      && Walked(w, V, es, [Told(d, a)], err)
      && (err.None? ==> Harmless(p, [Told(d, a)]))
      && (err == Some(Skip) ==> !d.isDir && a == SkipDir)
  {
    hide ActOf, IsListing, WellFormed, Scan, Less;
    SelfListed(t, denied, p, es);
    var d := es[0];
    var v := Told(d, ActOf(w, V, d));
    assert d in es;
    assert es == [d] + es[1..];
    ScanOne(w, V, d);
    ScanConcat(w, V, [d], es[1..]);
    forall e | e in es[1..] ensures Cut(V + [v], e) {
      assert e in es;
      if !d.isDir {
        FileAlone(t, denied, p, es);
      }
      assert v in V + [v] && Cuts(v, e);
    }
    ScanCut(w, V + [v], es[1..]);
  }

  lemma FileAlone(t: Tree, denied: set<Path>, p: Path, es: seq<Entry>)
    requires WellFormed(t) && HasFile(t, p) && IsListing(t, denied, p, es)
    ensures es == [Entry(p, false, false)]
  {
    FileListing(t, denied, p);
    SortedUnique(es, [Entry(p, false, false)]);
  }

  /** A directory that could not be read: the callback is told so. */
  lemma WalkedDenied(t: Tree, denied: set<Path>, w: Walker, p: Path, V: seq<Told>, es: seq<Entry>)
    requires WellFormed(t) && HasDir(t, p) && p in denied && IsListing(t, denied, p, es)
    requires forall e :: e in es ==> !Cut(V, e)
    requires ActOf(w, V, Entry(p, true, false)) == Continue
    ensures var d, f := Told(Entry(p, true, false), Continue), Entry(p, true, true); var a := ActOf(w, V + [d], f);
      var err := if a == SkipDir then None else ErrOf(a);
      && Walked(w, V, es, [d, Told(f, a)], err)
      && Harmless(p, [d]) && (err.None? ==> Harmless(p, [d, Told(f, a)]))
  {
    hide ActOf;
    var d, f := Entry(p, true, false), Entry(p, true, true);
    DeniedListing(t, denied, p);
    SortedUnique(es, [d, f]);
    assert es == [d] + [f];
    assert d in es && f in es;
    var d1 := Told(d, Continue);
    var f1 := Told(f, ActOf(w, V + [d1], f));
    ScanOne(w, V, d);
    CutMore(V, [d1], f);
    ScanOne(w, V + [d1], f);
    ScanConcat(w, V, [d], [f]);
    assert V + [d1] + [f1] == V + [d1, f1];
  }

  // ---------------------------------------------------------------- the entries of a directory

  /** After k entries of the directory p. */
  ghost predicate InDir(t: Tree, denied: set<Path>, w: Walker, p: Path, V: seq<Told>, cs: seq<string>,
                        ls: seq<seq<Entry>>, k: nat, visited: seq<Told>) {
    && k <= |cs| && SortedNames(t, p, cs) && ListingsOf(t, denied, p, cs, ls)
    && Walked(w, V, [Entry(p, true, false)] + Flat(ls[..k]), visited, None)
    && Harmless(p, visited)
    && forall m, e :: k <= m < |cs| && e in ls[m] ==> !Cut(V + visited, e)
  }

  lemma DirStarts(t: Tree, denied: set<Path>, w: Walker, p: Path, V: seq<Told>, es: seq<Entry>,
                  cs: seq<string>, ls: seq<seq<Entry>>)
    requires WellFormed(t) && HasDir(t, p) && p !in denied && IsListing(t, denied, p, es)
    requires forall e :: e in es ==> !Cut(V, e)
    requires SortedNames(t, p, cs) && ListingsOf(t, denied, p, cs, ls)
    requires ActOf(w, V, Entry(p, true, false)) == Continue
    ensures es == [Entry(p, true, false)] + Flat(ls)
    ensures InDir(t, denied, w, p, V, cs, ls, 0, [Told(Entry(p, true, false), Continue)])
  {
    hide WellFormed, SortedNames, ActOf;
    var d := Entry(p, true, false);
    var v := Told(d, Continue);
    DirListing(t, denied, p, cs, ls);
    SortedUnique(es, [d] + Flat(ls));
    assert d in es;
    ScanOne(w, V, d);
    assert [d] + Flat(ls[..0]) == [d];
    forall m, e | 0 <= m < |cs| && e in ls[m] ensures !Cut(V + [v], e) {
      FlatHas(ls, m, e);
      assert e in es;
      CutMore(V, [v], e);
    }
  }

  lemma WalkedConcat(w: Walker, V: seq<Told>, a: seq<Entry>, va: seq<Told>, b: seq<Entry>, vb: seq<Told>,
                     err: Option<WalkErr>)
    requires Walked(w, V, a, va, None) && Walked(w, V + va, b, vb, err)
    ensures Walked(w, V, a + b, va + vb, err)
  {
    ScanConcat(w, V, a, b);
    assert V + va + vb == V + (va + vb);
    if err.Some? && err != Some(Skip) {
      var c := va + vb;
      assert c[..|c| - 1] == va + vb[..|vb| - 1];
    }
  }

  lemma BesidePaths(p: Path, a: string, b: string, q: Path)
    requires p + [b] <= q && a != b
    ensures !(p + [a] <= q)
  {
    assert q[|p|] == (p + [b])[|p|] == b;
    assert (p + [a])[|p|] == a;
  }

  lemma DirNext(t: Tree, denied: set<Path>, w: Walker, p: Path, V: seq<Told>, cs: seq<string>,
                ls: seq<seq<Entry>>, k: nat, visited: seq<Told>, vk: seq<Told>)
    requires InDir(t, denied, w, p, V, cs, ls, k, visited) && k < |cs|
    requires Walked(w, V + visited, ls[k], vk, None) && Harmless(p + [cs[k]], vk)
    ensures InDir(t, denied, w, p, V, cs, ls, k + 1, visited + vk)
  {
    hide Walked, Cut, StrLess;
    var head := [Entry(p, true, false)];
    WalkedConcat(w, V, head + Flat(ls[..k]), visited, ls[k], vk, None);
    assert ls[..k + 1][..k] == ls[..k];
    assert head + Flat(ls[..k + 1]) == head + Flat(ls[..k]) + ls[k];
    forall m, e | k + 1 <= m < |cs| && e in ls[m] ensures !Cut(V + (visited + vk), e) {
      assert IsListing(t, denied, p + [cs[m]], ls[m]);
      ListedBelow(t, denied, p + [cs[m]], e);
      NamesDiffer(cs, k, m);
      BesidePaths(p, cs[k], cs[m], e.path);
      assert V + (visited + vk) == V + visited + vk;
      CutMore(V + visited, vk, e);
    }
    forall e: Entry | !(p <= e.path) ensures !Cut(visited + vk, e) {
      assert p + [cs[k]] <= e.path ==> p <= e.path;
      CutMore(visited, vk, e);
    }
  }

  lemma NamesDiffer(cs: seq<string>, k: nat, m: nat)
    requires k < m < |cs| && forall i, j :: 0 <= i < j < |cs| ==> StrLess(cs[i], cs[j])
    ensures cs[k] != cs[m]
  {
    StrAsymmetric(cs[k], cs[m]);
  }

  lemma {:induction false} FlatPrefix(ls: seq<seq<Entry>>, k: nat)
    requires k <= |ls|
    ensures Flat(ls[..k]) <= Flat(ls)
    decreases |ls|
  {
    if k < |ls| {
      var n := |ls| - 1;
      FlatPrefix(ls[..n], k);
      assert ls[..n][..k] == ls[..k];
    } else {
      assert ls[..k] == ls;
    }
  }

  /** An answer below cut off the rest of the directory, or of the whole walk. */
  lemma DirBreaks(t: Tree, denied: set<Path>, w: Walker, p: Path, V: seq<Told>, es: seq<Entry>, cs: seq<string>,
                  ls: seq<seq<Entry>>, k: nat, visited: seq<Told>, vk: seq<Told>, err: Option<WalkErr>)
    requires InDir(t, denied, w, p, V, cs, ls, k, visited) && k < |cs|
    requires es == [Entry(p, true, false)] + Flat(ls) && forall e :: e in es ==> p <= e.path
    requires Walked(w, V + visited, ls[k], vk, err) && err.Some?
    requires err == Some(Skip) ==> vk == [Told(Entry(p + [cs[k]], false, false), SkipDir)]
    ensures err == Some(Skip) ==> Walked(w, V, es, visited + vk, None) && Harmless(p, visited + vk)
    ensures err != Some(Skip) ==> Walked(w, V, es, visited + vk, err)
  {
    hide StrLess, SortedNames, IsListing, Walked, Harmless, Cut;
    var head := [Entry(p, true, false)];
    var a := head + Flat(ls[..k]) + ls[k];
    WalkedConcat(w, V, head + Flat(ls[..k]), visited, ls[k], vk, err);
    assert ls[..k + 1][..k] == ls[..k];
    FlatPrefix(ls, k + 1);
    assert a == head + Flat(ls[..k + 1]);
    assert a <= es;
    var rest := es[|a|..];
    assert es == a + rest;
    forall e | e in rest ensures Cut(V + (visited + vk), e) {
      assert e in es;
      BreakCuts(w, V, p, visited, ls[k], vk, err, e);
    }
    WalkedRest(w, V, a, rest, visited + vk, err);
    if err == Some(Skip) {
      assert Parent(vk[0].entry.path) == p;
      forall e: Entry ensures !(p <= e.path) ==> !Cut(visited + vk, e) {
        CutMore(visited, vk, e);
        SkipCuts(vk[0], e);
        HarmlessAt(p, visited, e);
      }
      HarmlessIs(p, visited + vk);
      SkipGoesOn(w, V, es, visited, vk);
    }
  }

  /** The last answer cuts off everything else in the directory. */
  lemma BreakCuts(w: Walker, V: seq<Told>, p: Path, visited: seq<Told>, es: seq<Entry>, vk: seq<Told>,
                  err: Option<WalkErr>, e: Entry)
    requires Walked(w, V + visited, es, vk, err) && err.Some? && p <= e.path
    requires err == Some(Skip) ==>
      vk != [] && vk[0].entry.path != [] && Parent(vk[0].entry.path) == p && !vk[0].entry.isDir && vk[0].act == SkipDir
    ensures Cut(V + (visited + vk), e)
  {
    var U := V + (visited + vk);
    var v := if err == Some(Skip) then vk[0] else vk[|vk| - 1];
    assert v in vk;
    assert v in U;
    assert Cuts(v, e);
  }

  lemma WalkedRest(w: Walker, V: seq<Told>, a: seq<Entry>, rest: seq<Entry>, visited: seq<Told>, err: Option<WalkErr>)
    requires Walked(w, V, a, visited, err) && forall e :: e in rest ==> Cut(V + visited, e)
    ensures Walked(w, V, a + rest, visited, err)
  {
    ScanCut(w, V + visited, rest);
    ScanConcat(w, V, a, rest);
  }

  lemma SkipCuts(v: Told, e: Entry)
    requires v.entry.path != [] && !v.entry.isDir && v.act == SkipDir
    ensures Cut([v], e) <==> Parent(v.entry.path) <= e.path
  {
    assert v in [v];
  }

  lemma HarmlessAt(p: Path, visited: seq<Told>, e: Entry)
    requires Harmless(p, visited)
    ensures !(p <= e.path) ==> !Cut(visited, e)
  {
  }

  lemma HarmlessIs(p: Path, visited: seq<Told>)
    requires forall e: Entry :: !(p <= e.path) ==> !Cut(visited, e)
    ensures Harmless(p, visited)
  {
  }

  /** Skipping the rest of a directory is no error to the directory itself. */
  lemma SkipGoesOn(w: Walker, V: seq<Told>, es: seq<Entry>, visited: seq<Told>, vk: seq<Told>)
    requires Walked(w, V, es, visited + vk, Some(Skip))
    ensures Walked(w, V, es, visited + vk, None)
  {
  }

  // ---------------------------------------------------------------- the walk

  method SortByName(es: seq<DirEntry>) returns (r: seq<DirEntry>)
    requires forall i, j :: 0 <= i < j < |es| ==> es[i].name != es[j].name
    ensures forall i, j :: 0 <= i < j < |r| ==> StrLess(r[i].name, r[j].name)
    ensures forall e :: e in r <==> e in es
  {
    r := [];
    for n := 0 to |es|
      invariant forall i, j :: 0 <= i < j < |r| ==> StrLess(r[i].name, r[j].name)
      invariant forall e :: e in r <==> e in es[..n]
    {
      var x := es[n];
      var k := 0;
      while k < |r| && StrLess(r[k].name, x.name)
        invariant 0 <= k <= |r|
        invariant forall i :: 0 <= i < k ==> StrLess(r[i].name, x.name)
      {
        k := k + 1;
      }
      InsertSorted(es, r, n, k);
      r := r[..k] + [x] + r[k..];
    }
    assert es[..|es|] == es;
  }

  lemma InsertSorted(es: seq<DirEntry>, r: seq<DirEntry>, n: nat, k: nat)
    requires forall i, j :: 0 <= i < j < |es| ==> es[i].name != es[j].name
    requires n < |es| && k <= |r| && forall e :: e in r <==> e in es[..n]
    requires forall i, j :: 0 <= i < j < |r| ==> StrLess(r[i].name, r[j].name)
    requires forall i :: 0 <= i < k ==> StrLess(r[i].name, es[n].name)
    requires k < |r| ==> !StrLess(r[k].name, es[n].name)
    ensures var s := r[..k] + [es[n]] + r[k..];
      && (forall i, j :: 0 <= i < j < |s| ==> StrLess(s[i].name, s[j].name))
      && (forall e :: e in s <==> e in es[..n + 1])
  {
    hide StrLess;
    var x := es[n];
    assert es[..n + 1] == es[..n] + [x];
    InsertedHas(r, k, x);
    forall j | k <= j < |r| ensures StrLess(x.name, r[j].name) {
      assert r[k] in r;
      var m :| 0 <= m < n && es[m] == r[k];
      StrTotal(r[k].name, x.name);
      if k < j { StrTransitive(x.name, r[k].name, r[j].name); }
    }
    InsertedSorted(r, k, x);
  }

  lemma InsertedHas(r: seq<DirEntry>, k: nat, x: DirEntry)
    requires k <= |r|
    ensures forall e :: e in r[..k] + [x] + r[k..] <==> e in r || e == x
  {
    assert r == r[..k] + r[k..];
  }

  lemma InsertedSorted(r: seq<DirEntry>, k: nat, x: DirEntry)
    requires k <= |r| && forall i, j :: 0 <= i < j < |r| ==> StrLess(r[i].name, r[j].name)
    requires forall i :: 0 <= i < k ==> StrLess(r[i].name, x.name)
    requires forall j :: k <= j < |r| ==> StrLess(x.name, r[j].name)
    ensures var s := r[..k] + [x] + r[k..];
      forall i, j :: 0 <= i < j < |s| ==> StrLess(s[i].name, s[j].name)
  {
    hide StrLess;
    var s := r[..k] + [x] + r[k..];
    forall i, j | 0 <= i < j < |s| ensures StrLess(s[i].name, s[j].name) {
      assert s[i] == if i < k then r[i] else if i == k then x else r[i - 1];
      assert s[j] == if j < k then r[j] else if j == k then x else r[j - 1];
    }
  }

  method ReadDir(fsys: Fs, name: string) returns (r: TreeFs.Result<seq<DirEntry>>)
    ensures Resolve(name) in fsys.denied || !HasDir(fsys.tree, Resolve(name)) ==> r.Err?
    ensures Resolve(name) !in fsys.denied && HasDir(fsys.tree, Resolve(name)) ==>
      && r.Ok?
      && (forall i, j :: 0 <= i < j < |r.value| ==> StrLess(r.value[i].name, r.value[j].name))
      && (forall e :: e in r.value <==> e in Entries(fsys.tree, Resolve(name)))
  {
    var infos := fsys.Readdir(name);
    if infos.Err? {
      return Err(infos.error);
    }
    EntriesNamed(fsys.tree, Resolve(name), infos.value);
    var sorted := SortByName(infos.value);
    r := Ok(sorted);
  }

  lemma EntriesNamed(t: Tree, p: Path, es: seq<DirEntry>)
    requires TreeFs.Distinct(es) && forall e :: e in es ==> e in Entries(t, p)
    ensures forall i, j :: 0 <= i < j < |es| ==> es[i].name != es[j].name
  {
    forall i, j | 0 <= i < j < |es| ensures es[i].name != es[j].name {
      assert es[i] in es && es[j] in es && es[i] != es[j];
      EntryAt(t, p, es[i]);
      EntryAt(t, p, es[j]);
    }
  }

  lemma EntryAt(t: Tree, p: Path, e: DirEntry)
    requires e in Entries(t, p)
    ensures p + [e.name] in t && e.isDir == (t[p + [e.name]] == Dir)
  {
    var q :| q in t && q != [] && Parent(q) == p && e == DirEntry(q[|q| - 1], t[q] == Dir);
    assert q == p + [e.name];
  }

  lemma NamesSorted(t: Tree, p: Path, es: seq<DirEntry>, cs: seq<string>)
    requires forall i, j :: 0 <= i < j < |es| ==> StrLess(es[i].name, es[j].name)
    requires forall e :: e in es <==> e in Entries(t, p)
    requires |cs| == |es| && forall i :: 0 <= i < |es| ==> cs[i] == es[i].name
    ensures SortedNames(t, p, cs)
  {
    hide StrLess, Entries;
    forall c ensures c in cs <==> p + [c] in t {
      if c in cs {
        var i :| 0 <= i < |cs| && cs[i] == c;
        assert es[i] in es;
        EntryAt(t, p, es[i]);
      }
      if p + [c] in t {
        EntryOf(t, p, c);
        var e := DirEntry(c, t[p + [c]] == Dir);
        assert e in es;
        var i :| 0 <= i < |es| && es[i] == e;
        assert cs[i] == c;
      }
    }
  }

  lemma EntryOf(t: Tree, p: Path, c: string)
    requires p + [c] in t
    ensures DirEntry(c, t[p + [c]] == Dir) in Entries(t, p)
  {
    var q := p + [c];
    assert Parent(q) == p && q[|q| - 1] == c;
  }

  lemma VisitsConcat(w: Walker, a: seq<Told>, b: seq<Told>)
    ensures VisitsOf(w, a + b) == VisitsOf(w, a) + VisitsOf(w, b)
  {
  }

  /** The names a walk forms. */
  ghost predicate Named(w: Walker, name: string, p: Path) {
    w.top <= p && name == NameAt(w.root, p[|w.top|..]) && Resolve(name) == p
  }

  lemma NamedChild(w: Walker, name: string, p: Path, c: string)
    requires Named(w, name, p) && ValidName(c)
    ensures Named(w, PathJoin(name, c), p + [c])
  {
    ResolvePathJoin(name, c);
    var rel := (p + [c])[|w.top|..];
    assert rel == p[|w.top|..] + [c];
    assert Parent(rel) == p[|w.top|..];
  }

  /** The callback is told of a node by its name. */
  lemma NamedVisit(w: Walker, name: string, p: Path, isDir: bool, failed: bool)
    requires Named(w, name, p)
    ensures VisitOf(w, Entry(p, isDir, failed)) == Visit(name, isDir, failed)
    ensures forall a :: VisitsOf(w, [Told(Entry(p, isDir, failed), a)]) == [Visit(name, isDir, failed)]
  {
  }

  method WalkDirRec(fsys: Fs, name: string, isDir: bool, fn: seq<Visit> -> Act, past: seq<Visit>,
                    ghost w: Walker, ghost p: Path, ghost V: seq<Told>, ghost es: seq<Entry>)
    returns (log: seq<Visit>, err: Option<WalkErr>, ghost visited: seq<Told>)
    requires WellFormed(fsys.tree) && w.fn == fn && past == VisitsOf(w, V) && Named(w, name, p) && Has(fsys.tree, p)
    requires isDir == HasDir(fsys.tree, p) && IsListing(fsys.tree, fsys.denied, p, es)
    requires forall e :: e in es ==> !Cut(V, e)
    decreases NodesAt(fsys.tree, p)
    ensures Walked(w, V, es, visited, err)
    ensures |V| <= |Scan(w, V, es)| && visited == Scan(w, V, es)[|V|..] && log == VisitsOf(w, Scan(w, V, es)[|V|..])
    ensures err.None? ==> Harmless(p, visited)
    ensures err == Some(Skip) ==> visited == [Told(Entry(p, false, false), SkipDir)]
  {
    hide *;
    ghost var t, denied := fsys.tree, fsys.denied;
    NamedVisit(w, name, p, isDir, false);
    NamedVisit(w, name, p, isDir, true);
    NamedIs(w, name, p);
    var act := fn(past + [Visit(name, isDir, false)]);
    ActIs(w, V, Entry(p, isDir, false));
    log := [Visit(name, isDir, false)];
    visited := [Told(Entry(p, isDir, false), act)];
    if act != Continue || !isDir {
      WalkedOne(t, denied, w, p, V, es);
      err := if act == SkipDir && isDir then None else ErrOf(act);
      VisitedIs(w, V, es, visited, err);
      return;
    }
    var dirs := ReadDir(fsys, name);
    if dirs.Err? {
      WalkedDenied(t, denied, w, p, V, es);
      VisitsConcat(w, V, visited);
      ActIs(w, V + visited, Entry(p, isDir, true));
      var again := fn(past + log + [Visit(name, isDir, true)]);
      log := log + [Visit(name, isDir, true)];
      VisitsConcat(w, visited, [Told(Entry(p, isDir, true), again)]);
      visited := visited + [Told(Entry(p, isDir, true), again)];
      assert visited == [Told(Entry(p, true, false), Continue), Told(Entry(p, true, true), again)];
      err := if again == SkipDir then None else ErrOf(again);
      VisitedIs(w, V, es, visited, err);
      return;
    }
    var entries := dirs.value;
    ghost var cs := seq(|entries|, i requires 0 <= i < |entries| => entries[i].name);
    NamesSorted(t, p, entries, cs);
    NamesIn(t, p, cs);
    ghost var ls := MakeListings(t, denied, p, cs);
    DirStarts(t, denied, w, p, V, es, cs, ls);
    SelfListed(t, denied, p, es);
    assert ls[..0] == [];
    for k := 0 to |entries|
      invariant log == VisitsOf(w, visited)
      invariant InDir(t, denied, w, p, V, cs, ls, k, visited)
    {
      var d1 := entries[k];
      assert d1 in entries;
      EntryAt(t, p, d1);
      InTreeValid(t, p, d1.name);
      NamedChild(w, name, p, d1.name);
      ChildSmaller(t, p, d1.name);
      InDirNext(t, denied, w, p, V, cs, ls, k, visited);
      var name1 := PathJoin(name, d1.name);
      ghost var vk;
      var sub, e;
      VisitsConcat(w, V, visited);
      sub, e, vk := WalkDirRec(fsys, name1, d1.isDir, fn, past + log, w, p + [d1.name], V + visited, ls[k]);
      VisitsConcat(w, visited, vk);
      log := log + sub;
      if e.Some? {
        DirBreaks(t, denied, w, p, V, es, cs, ls, k, visited, vk, e);
        visited := visited + vk;
        if e == Some(Skip) {
          err := None;
          VisitedIs(w, V, es, visited, err);
          return;
        }
        err := e;
        VisitedIs(w, V, es, visited, err);
        return;
      }
      DirNext(t, denied, w, p, V, cs, ls, k, visited, vk);
      visited := visited + vk;
    }
    err := None;
    DirEnds(t, denied, w, p, V, es, cs, ls, visited);
    VisitedIs(w, V, es, visited, err);
  }

  lemma VisitedIs(w: Walker, V: seq<Told>, es: seq<Entry>, visited: seq<Told>, err: Option<WalkErr>)
    requires Walked(w, V, es, visited, err)
    ensures |V| <= |Scan(w, V, es)| && visited == Scan(w, V, es)[|V|..]
  {
  }

  lemma ActIs(w: Walker, V: seq<Told>, e: Entry)
    ensures ActOf(w, V, e) == w.fn(VisitsOf(w, V) + [VisitOf(w, e)])
    ensures forall a :: (ErrOf(a) == Some(Skip) <==> a == SkipDir) && (ErrOf(a) == None <==> a == Continue)
  {
  }

  lemma NamedIs(w: Walker, name: string, p: Path)
    requires Named(w, name, p)
    ensures Resolve(name) == p
  {
  }

  lemma NamesIn(t: Tree, p: Path, cs: seq<string>)
    requires SortedNames(t, p, cs)
    ensures forall c :: c in cs ==> p + [c] in t
  {
  }

  lemma InTreeValid(t: Tree, p: Path, c: string)
    requires WellFormed(t) && p + [c] in t
    ensures ValidName(c) && Has(t, p + [c]) && (t[p + [c]] == Dir <==> HasDir(t, p + [c]))
  {
    assert c in p + [c];
  }

  lemma InDirNext(t: Tree, denied: set<Path>, w: Walker, p: Path, V: seq<Told>, cs: seq<string>,
                  ls: seq<seq<Entry>>, k: nat, visited: seq<Told>)
    requires InDir(t, denied, w, p, V, cs, ls, k, visited) && k < |cs|
    ensures k < |ls| && IsListing(t, denied, p + [cs[k]], ls[k])
    ensures forall e :: e in ls[k] ==> !Cut(V + visited, e)
  {
  }

  lemma DirEnds(t: Tree, denied: set<Path>, w: Walker, p: Path, V: seq<Told>, es: seq<Entry>, cs: seq<string>,
                ls: seq<seq<Entry>>, visited: seq<Told>)
    requires InDir(t, denied, w, p, V, cs, ls, |cs|, visited)
    requires es == [Entry(p, true, false)] + Flat(ls)
    ensures Walked(w, V, es, visited, None) && Harmless(p, visited)
  {
    assert ls[..|cs|] == ls;
  }

  method WalkDir(fsys: Fs, root: string, fn: seq<Visit> -> Act) returns (log: seq<Visit>, err: Option<int>)
    requires WellFormed(fsys.tree)
    ensures !Has(fsys.tree, Resolve(root)) ==>
      log == [Visit(root, false, true)] && err == if fn(log).Fail? then Some(fn(log).code) else None
    ensures Has(fsys.tree, Resolve(root)) ==> forall es :: IsListing(fsys.tree, fsys.denied, Resolve(root), es) ==>
      var w := Walker(fn, root, Resolve(root)); var visited := Scan(w, [], es);
      && log == VisitsOf(w, visited) && err == CodeOf(visited)
      && forall i :: 0 <= i < |log| ==>
           log[i].isDir == visited[i].entry.isDir && log[i].failed == visited[i].entry.failed
    ensures log != [] && err == if fn(log).Fail? then Some(fn(log).code) else None
    ensures forall i :: 0 < i < |log| ==> !fn(log[..i]).SkipAll? && !fn(log[..i]).Fail?
  {
    hide Resolve, IsListing, Scan, NameAt, PathJoin, VisitsOf, VisitOf, Walked, CodeOf, Cut, Named, WellFormed;
    ghost var t, denied, p := fsys.tree, fsys.denied, Resolve(root);
    NoVisits(fn, root);
    var info := fsys.Stat(root);
    var e: Option<WalkErr>;
    if info.Err? {
      log := [Visit(root, false, true)];
      e := ErrOf(fn(log));
    } else {
      ghost var w := Walker(fn, root, p);
      ghost var listing := MakeListing(t, denied, p);
      RootNamed(w);
      ghost var visited;
      log, e, visited := WalkDirRec(fsys, root, info.value.Dir?, fn, [], w, p, [], listing);
      assert [] + visited == visited;
      SkipNotFinal(w, visited, listing, e);
      SelfListed(t, denied, p, listing);
      LastDecides(w, visited, listing, e);
      VisitKinds(w, visited);
      forall es | IsListing(t, denied, p, es) ensures es == listing {
        ListingUnique(t, denied, p, es, listing);
      }
    }
    err := match e case Some(Raised(code)) => Some(code) case _ => None;
  }

  lemma NoVisits(fn: seq<Visit> -> Act, root: string)
    ensures VisitsOf(Walker(fn, root, Resolve(root)), []) == [] && forall e :: !Cut([], e)
  {
  }

  lemma VisitKinds(w: Walker, visited: seq<Told>)
    ensures var log := VisitsOf(w, visited); |log| == |visited| && forall i :: 0 <= i < |log| ==>
      log[i].isDir == visited[i].entry.isDir && log[i].failed == visited[i].entry.failed
  {
  }

  lemma RootNamed(w: Walker)
    requires w.top == Resolve(w.root)
    ensures Named(w, w.root, w.top)
  {
  }

  lemma ListingUnique(t: Tree, denied: set<Path>, p: Path, a: seq<Entry>, b: seq<Entry>)
    requires IsListing(t, denied, p, a) && IsListing(t, denied, p, b)
    ensures a == b
  {
    SortedUnique(a, b);
  }

  /** The walk goes on as long as the answers let it, and the last one decides. */
  lemma LastDecides(w: Walker, visited: seq<Told>, es: seq<Entry>, e: Option<WalkErr>)
    requires Walked(w, [], es, visited, e) && es != []
    ensures var log := VisitsOf(w, visited);
      && log != []
      && (w.fn(log).Fail? <==> e.Some? && e.value.Raised?)
      && (w.fn(log).Fail? ==> e == Some(Raised(w.fn(log).code)))
      && forall i :: 0 < i < |log| ==> !w.fn(log[..i]).SkipAll? && !w.fn(log[..i]).Fail?
  {
    hide Scan, VisitsOf, Walked;
    var log := VisitsOf(w, visited);
    EndsIs(w, visited, es, e);
    ScanStarts(w, es);
    AnswersOf(w, visited, es);
    assert log[..|log|] == log;
  }

  /** Only the last answer can end the walk, and then its error is the walk's. */
  lemma EndsIs(w: Walker, visited: seq<Told>, es: seq<Entry>, e: Option<WalkErr>)
    requires Walked(w, [], es, visited, e)
    ensures Scan(w, [], es) == visited
    ensures forall i :: 0 <= i < |visited| - 1 ==> !Final(visited[i].act)
    ensures visited != [] ==> var a := visited[|visited| - 1].act;
      (a.Fail? <==> e.Some? && e.value.Raised?) && (a.Fail? ==> e == Some(Raised(a.code)))
  {
    hide *;
    assert [] + visited == visited;
    WalkedIs(w, visited, es, e);
    if e.None? || e == Some(Skip) {
      NoneFinal(visited, e);
    } else {
      LastFinal(visited, e);
    }
  }

  lemma WalkedIs(w: Walker, visited: seq<Told>, es: seq<Entry>, e: Option<WalkErr>)
    requires Walked(w, [], es, visited, e)
    ensures Scan(w, [], es) == [] + visited
    ensures e.None? || e == Some(Skip) ==> forall v :: v in visited ==> !Final(v.act)
    ensures e.Some? && e != Some(Skip) ==> Stopped(visited, e)
  {
    hide Scan, Stopped, Final;
  }

  lemma NoneFinal(visited: seq<Told>, e: Option<WalkErr>)
    requires (forall v :: v in visited ==> !Final(v.act)) && (e.None? || e == Some(Skip))
    ensures forall i :: 0 <= i < |visited| ==> !Final(visited[i].act) && !visited[i].act.Fail?
  {
    forall i | 0 <= i < |visited| ensures !Final(visited[i].act) {
      assert visited[i] in visited;
    }
  }

  lemma LastFinal(visited: seq<Told>, e: Option<WalkErr>)
    requires Stopped(visited, e)
    ensures visited != [] && forall i :: 0 <= i < |visited| - 1 ==> !Final(visited[i].act)
    ensures var a := visited[|visited| - 1].act;
      (a.Fail? <==> e.Some? && e.value.Raised?) && (a.Fail? ==> e == Some(Raised(a.code)))
  {
    forall i | 0 <= i < |visited| - 1 ensures !Final(visited[i].act) {
      assert visited[..|visited| - 1][i] in visited[..|visited| - 1];
    }
  }

  lemma AnswersOf(w: Walker, visited: seq<Told>, es: seq<Entry>)
    requires visited == Scan(w, [], es)
    ensures |VisitsOf(w, visited)| == |visited|
    ensures forall i :: 0 < i <= |visited| ==> visited[i - 1].act == w.fn(VisitsOf(w, visited)[..i])
  {
    hide Scan, VisitOf;
    assert es[..|es|] == es;
    forall i | 0 < i <= |visited| ensures visited[i - 1].act == w.fn(VisitsOf(w, visited)[..i]) {
      ScanAnswers(w, es, |es|, i - 1);
      assert VisitsOf(w, visited[..i]) == VisitsOf(w, visited)[..i];
    }
  }

  lemma ScanStarts(w: Walker, es: seq<Entry>)
    requires es != []
    ensures Scan(w, [], es) != []
  {
    assert !Cut([], es[0]);
    ScanLonger(w, [] + [Told(es[0], ActOf(w, [], es[0]))], es[1..]);
  }

  lemma {:induction false} ScanLonger(w: Walker, V: seq<Told>, es: seq<Entry>)
    ensures |Scan(w, V, es)| >= |V|
    decreases |es|
  {
    if es != [] {
      ScanLonger(w, if Cut(V, es[0]) then V else V + [Told(es[0], ActOf(w, V, es[0]))], es[1..]);
    }
  }

  lemma SkipNotFinal(w: Walker, visited: seq<Told>, es: seq<Entry>, e: Option<WalkErr>)
    requires Walked(w, [], es, visited, e)
    ensures CodeOf(visited) == match e case Some(Raised(code)) => Some(code) case _ => None
    ensures Scan(w, [], es) == [] + visited
  {
    if visited != [] {
      assert visited[|visited| - 1] in visited;
    }
  }
}
