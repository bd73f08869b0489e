/**
 Tar archives: exporting a directory as a sequence of files, importing the files again.
 */
module Tar {
  import opened Data
  import opened GoPath
  import opened Tree
  import opened TreeFs
  import opened MkdirAllUtil
  import opened WalkOrder
  import opened WalkScan
  import opened Walk
  import opened TarFiles

  datatype TarEntry = TarEntry(name: string, data: Bytes)

  // ---------------------------------------------------------------- relative names

  /** The components of a cleaned name. */
  function CleanParts(s: string): seq<string> {
    Reduce([], Split(s), Rooted(s))
  }

  function Ups(n: nat): seq<string> {
    seq(n, i => "..")
  }

  function RelParts(bs: seq<string>, ts: seq<string>): Option<string> {
    if bs != [] && ts != [] && bs[0] == ts[0] then RelParts(bs[1..], ts[1..])
    else if bs != [] && bs[0] == ".." then None
    else Some(Join(Ups(|bs|) + ts))
  }

  /** path.Rel: the name of targ seen from base. */
  function Rel(base: string, targ: string): Option<string> {
    if Clean(base) == Clean(targ) then Some(".")
    else if Rooted(base) != Rooted(targ) then None
    else RelParts(CleanParts(base), CleanParts(targ))
  }

  lemma {:induction false} RelPartsBelow(bs: seq<string>, ts: seq<string>)
    requires ts != []
    ensures RelParts(bs, bs + ts) == Some(Join(ts))
    decreases |bs|
  {
    if bs == [] {
      assert bs + ts == ts && Ups(0) + ts == ts;
    } else {
      assert (bs + ts)[0] == bs[0] && (bs + ts)[1..] == bs[1..] + ts;
      RelPartsBelow(bs[1..], ts);
    }
  }

  /** Cleaned components stay as they are when cleaned again. */
  predicate Normal(st: seq<string>, rooted: bool) {
    Reduce([], st, rooted) == st && forall c :: c in st ==> NoSlash(c) && c != ""
  }

  lemma {:induction false} DotsKept(d: seq<string>, e: seq<string>)
    requires Dots(d) && Dots(e)
    ensures Reduce(d, e, false) == d + e
    decreases |e|
  {
    if e != [] {
      assert e[0] in e;
      if d != [] { assert d[|d| - 1] in d; }
      assert Push(d, e[0], false) == d + [".."];
      assert forall c :: c in e[1..] ==> c in e;
      DotsKept(d + [".."], e[1..]);
      assert d + [".."] + e[1..] == d + e;
    }
  }

  lemma CleanPartsNormal(s: string)
    ensures Normal(CleanParts(s), Rooted(s))
  {
    SplitElements(s);
    if Rooted(s) {
      ReduceStack([], Split(s));
      StackNormal(CleanParts(s));
    } else {
      ReduceBoth([], [], Split(s));
      var a, b := Reduce([], Split(s), false), Reduce([], Split(s), true);
      var d := a[..|a| - |b|];
      assert a == d + b;
      ReduceConcat([], d, b, false);
      DotsKept([], d);
      assert [] + d == d;
      assert ".." !in b;
      ReduceKeeps(d, b, false);
      KeepAll(b);
    }
  }

  lemma StackNormal(st: Path)
    requires Stack(st)
    ensures Normal(st, true)
  {
    assert ".." !in st;
    ReduceKeeps([], st, true);
    KeepAll(st);
    assert [] + st == st;
  }

  /** A cleaned name, spelled out. */
  function Spelled(rooted: bool, st: seq<string>): string {
    (if rooted then "/" else "") + Join(st)
  }

  lemma SpelledParts(rooted: bool, st: seq<string>)
    requires Normal(st, rooted) && st != []
    ensures CleanParts(Spelled(rooted, st)) == st && Rooted(Spelled(rooted, st)) == rooted
    ensures Spelled(rooted, st) != ""
  {
    SplitJoin(st);
    assert st[0] in st && st[0] != "";
    assert Join(st)[0] == st[0][0] && st[0][0] in st[0];
    if rooted {
      SplitConcat("", Join(st));
      SplitNoSlash("");
      assert "" + "/" + Join(st) == Spelled(true, st);
      ReduceStep([], "", st, true);
    } else {
      assert Spelled(false, st) == Join(st);
    }
  }

  lemma CleanSpelled(s: string)
    requires s != "" && CleanParts(s) != []
    ensures Clean(s) == Spelled(Rooted(s), CleanParts(s))
  {
    assert "" + Join(CleanParts(s)) == Join(CleanParts(s));
  }

  lemma NormalMore(st: seq<string>, rooted: bool, c: string)
    requires Normal(st, rooted) && ValidName(c)
    ensures Normal(st + [c], rooted)
  {
    ReduceConcat([], st, [c], rooted);
    ReduceOne(st, c, rooted);
  }

  lemma JoinParts(a: string, c: string)
    requires ValidName(c)
    ensures PathJoin(a, c) == Spelled(Rooted(a), CleanParts(a) + [c])
  {
    SplitNoSlash(c);
    if a == "" {
      assert [] + [c] == [c];
      SplitNoSlash("");
      ReduceOne([], "", false);
      ReduceOne([], c, false);
      assert c[0] in c;
      CleanSpelled(c);
    } else {
      var s := a + "/" + c;
      SplitConcat(a, c);
      ReduceConcat([], Split(a), [c], Rooted(a));
      ReduceOne(CleanParts(a), c, Rooted(a));
      assert Rooted(s) == Rooted(a);
      CleanSpelled(s);
    }
  }

  /** The name a walk gives to what lies below its root. */
  lemma {:induction false} NameAtSpelled(root: string, rel: Path)
    requires rel != [] && ValidPath(rel)
    ensures NameAt(root, rel) == Spelled(Rooted(root), CleanParts(root) + rel)
    ensures Normal(CleanParts(root) + rel, Rooted(root))
    decreases |rel|
  {
    hide Normal, CleanParts, Spelled, PathJoin;
    var front, c := Parent(rel), rel[|rel| - 1];
    assert rel == front + [c] && c in rel;
    CleanPartsNormal(root);
    if front == [] {
      assert CleanParts(root) + rel == CleanParts(root) + [c];
      JoinParts(root, c);
      NormalMore(CleanParts(root), Rooted(root), c);
    } else {
      assert forall x :: x in front ==> x in rel;
      NameAtSpelled(root, front);
      var st := CleanParts(root) + front;
      SpelledParts(Rooted(root), st);
      JoinParts(NameAt(root, front), c);
      NormalMore(st, Rooted(root), c);
      assert st + [c] == CleanParts(root) + rel;
    }
  }

  /** What the exporter puts in a header is the path below the base, spelled out. */
  lemma RelOfName(base: string, rel: Path)
    requires rel != [] && ValidPath(rel)
    ensures Rel(base, NameAt(base, rel)) == Some(Join(rel))
  {
    hide Normal, Spelled, Clean, CleanParts, NameAt;
    var name := NameAt(base, rel);
    NameAtSpelled(base, rel);
    var st := CleanParts(base) + rel;
    SpelledParts(Rooted(base), st);
    CleanSpelled(name);
    RelPartsBelow(CleanParts(base), rel);
    CleanPartsOfClean(base);
    assert |st| != |CleanParts(base)|;
    assert CleanParts(Clean(name)) == st;
  }

  lemma CleanPartsOfClean(s: string)
    ensures CleanParts(Clean(s)) == CleanParts(s)
  {
    hide Normal;
    CleanPartsNormal(s);
    SplitNoSlash("");
    SplitNoSlash(".");
    ReduceOne([], "", false);
    ReduceOne([], ".", false);
    if s != "" {
      if CleanParts(s) != [] {
        CleanSpelled(s);
        SpelledParts(Rooted(s), CleanParts(s));
      } else if Rooted(s) {
        SplitConcat("", "");
        assert "" + "/" + "" == "/" == Clean(s);
        assert Split("/") == ["", ""] == [""] + [""];
        ReduceStep([], "", [""], true);
        ReduceOne([], "", true);
      }
    }
  }

  // ---------------------------------------------------------------- exporting

  /** What a file is called in an archive: its path below the base, or "." if it is the base. */
  function HeaderName(rel: Path): string {
    if rel == [] then "." else Join(rel)
  }

  /** The archive of what a walk from top lists: its files, in order. */
  function Archive(t: Tree, top: Path, es: seq<Entry>): seq<TarEntry> {
    if es == [] then []
    else
      var e := es[|es| - 1];
      Archive(t, top, es[..|es| - 1]) +
        if !e.isDir && top <= e.path && e.path in t && t[e.path].File?
        then [TarEntry(HeaderName(e.path[|top|..]), t[e.path].data)] else []
  }

  /** A has the files among the first n entries of es, those at the places `at`, each once and in their order, under
      their names as seen from the top and with their bytes; a top that is a file itself is called ".". */
  ghost predicate FilesInOrder(t: Tree, top: Path, es: seq<Entry>, n: nat, at: seq<nat>, A: seq<TarEntry>) {
    && n <= |es| && |at| == |A| && (forall i, j :: 0 <= i < j < |at| ==> at[i] < at[j])
    && (forall k: nat :: k in at <==> k < n && !es[k].isDir)
    && forall i :: 0 <= i < |at| ==> at[i] < n && FileAs(t, top, es[at[i]].path, A[i])
  }

  ghost predicate FileAs(t: Tree, top: Path, p: Path, x: TarEntry) {
    top <= p && HasFile(t, p) && x == TarEntry(if p == top then "." else Join(p[|top|..]), t[p].data)
  }

  /** An archive, also one cut short, has the files of the listing in its order. */
  lemma {:induction false} ArchiveInOrder(t: Tree, denied: set<Path>, top: Path, es: seq<Entry>, n: nat)
    returns (at: seq<nat>)
    requires WellFormed(t) && Has(t, top) && IsListing(t, denied, top, es) && n <= |es|
    ensures FilesInOrder(t, top, es, n, at, Archive(t, top, es[..n]))
    decreases n
  {
    hide IsListing, WellFormed, FilesInOrder, FileAs, HeaderName, Archive;
    if n == 0 {
      at := [];
      assert es[..0] == [];
      NoFilesYet(t, top, es);
    } else {
      at := ArchiveInOrder(t, denied, top, es, n - 1);
      var A, e := Archive(t, top, es[..n - 1]), es[n - 1];
      assert e in es;
      ArchiveNext(t, top, es, n - 1);
      ListedFile(t, denied, top, es, e);
      if e.isDir {
        assert A + [] == A;
        DirInOrder(t, top, es, n - 1, at, A);
      } else {
        var x := TarEntry(HeaderName(e.path[|top|..]), t[e.path].data);
        FileIs(t, top, e.path);
        FileInOrder(t, top, es, n - 1, at, A, x);
        at := at + [n - 1];
      }
    }
  }

  lemma ArchiveNext(t: Tree, top: Path, es: seq<Entry>, n: nat)
    requires n < |es|
    ensures var e := es[n];
      Archive(t, top, es[..n + 1]) == Archive(t, top, es[..n]) +
        if !e.isDir && top <= e.path && e.path in t && t[e.path].File?
        then [TarEntry(HeaderName(e.path[|top|..]), t[e.path].data)] else []
  {
    hide HeaderName;
    assert es[..n + 1][..n] == es[..n];
  }

  lemma NoFilesYet(t: Tree, top: Path, es: seq<Entry>)
    ensures FilesInOrder(t, top, es, 0, [], []) && Archive(t, top, []) == []
  {
  }

  lemma FileIs(t: Tree, top: Path, p: Path)
    requires top <= p && HasFile(t, p)
    ensures FileAs(t, top, p, TarEntry(HeaderName(p[|top|..]), t[p].data))
  {
    assert p[|top|..] == [] <==> p == top;
  }

  lemma DirInOrder(t: Tree, top: Path, es: seq<Entry>, n: nat, at: seq<nat>, A: seq<TarEntry>)
    requires n < |es| && es[n].isDir && FilesInOrder(t, top, es, n, at, A)
    ensures FilesInOrder(t, top, es, n + 1, at, A)
  {
    hide FileAs;
  }

  lemma FileInOrder(t: Tree, top: Path, es: seq<Entry>, n: nat, at: seq<nat>, A: seq<TarEntry>, x: TarEntry)
    requires n < |es| && !es[n].isDir && FilesInOrder(t, top, es, n, at, A) && FileAs(t, top, es[n].path, x)
    ensures FilesInOrder(t, top, es, n + 1, at + [n], A + [x])
  {
    hide FileAs;
    var at' := at + [n];
    forall k: nat ensures k in at' <==> k < n + 1 && !es[k].isDir {
      assert k in at' <==> k in at || k == n;
    }
  }

  class Writer {
    var entries: seq<TarEntry>

    constructor ()
      ensures entries == []
    {
      entries := [];
    }

    method WriteFile(name: string, data: Bytes)
      modifies this
      ensures entries == old(entries) + [TarEntry(name, data)]
    {
      entries := entries + [TarEntry(name, data)];
    }
  }

  const OPEN_FAILED := 1
  const REL_FAILED := 2

  /** What the export callback answers. A directory that could not be read is passed over. */
  function ExportAct(base: string, denied: set<Path>, v: Visit): Act {
    if v.failed || v.isDir then Continue
    else if Rel(base, v.name).None? then Fail(REL_FAILED)
    else if Resolve(v.name) in denied then Fail(OPEN_FAILED)
    else Continue
  }

  predicate Closed(denied: set<Path>, e: Entry) {
    !e.isDir && e.path in denied
  }

  /** How many entries come before the first file that cannot be opened. */
  function Openable(denied: set<Path>, es: seq<Entry>): (n: nat)
    ensures n <= |es| && forall i :: 0 <= i < n ==> es[i].isDir || es[i].path !in denied
    ensures n < |es| ==> !es[n].isDir && es[n].path in denied
  {
    if es == [] || Closed(denied, es[0]) then 0 else 1 + Openable(denied, es[1..])
  }

  /** The callback looks at the last visit alone. */
  function LastAct(b: string, denied: set<Path>, past: seq<Visit>): Act {
    if past == [] then Continue else ExportAct(b, denied, past[|past| - 1])
  }

  /** The archive gets the files before the first one that cannot be opened, which ends the walk. A base that
      is not there gives no entry and no error. */
  method ExportAsTar(fsys: Fs, base: string, tw: Writer) returns (err: Option<int>)
    requires WellFormed(fsys.tree)
    modifies tw
    ensures var top := Resolve(if base == "" then "." else base);
      !Has(fsys.tree, top) ==> err == None && tw.entries == old(tw.entries)
    ensures var top := Resolve(if base == "" then "." else base);
      Has(fsys.tree, top) ==> forall es :: IsListing(fsys.tree, fsys.denied, top, es) ==>
        && tw.entries == old(tw.entries) + Archive(fsys.tree, top, es[..Openable(fsys.denied, es)])
        && (err == None <==> forall e: Entry :: e in es ==> e.isDir || e.path !in fsys.denied)
        && (err == None || err == Some(OPEN_FAILED))
  {
    hide IsListing, Resolve, Scan, NameAt, Rel, Archive, WellFormed, ExportAct, Openable, LastAct, CodeOf;
    var b := if base == "" then "." else base;
    var denied := fsys.denied;
    ghost var t, top := fsys.tree, Resolve(b);
    var fn := (past: seq<Visit>) => LastAct(b, denied, past);
    var log;
    log, err := WalkDir(fsys, b, fn);
    ghost var w := Walker(fn, b, top);
    ghost var es: seq<Entry> := [];
    ghost var n := 0;
    if Has(t, top) {
      es := MakeListing(t, denied, top);
      n := Openable(denied, es);
      forall x | IsListing(t, denied, top, x) ensures x == es {
        ListingUnique(t, denied, top, x, es);
      }
      ExportGoesOn(t, denied, b, top, w, es);
      ArchiveStarts(t, top);
      assert es[..0] == [];
      AllOpen(denied, es);
    } else {
      AbsentPassed(b, denied);
    }
    for i := 0 to |log|
      invariant Has(t, top) ==> tw.entries == old(tw.entries) + Archive(t, top, es[..if i <= n then i else n])
      invariant !Has(t, top) ==> tw.entries == old(tw.entries)
    {
      var v := log[i];
      if Has(t, top) {
        ExportStep(t, denied, b, top, w, es, i);
      }
      if !v.failed && !v.isDir && ExportAct(b, denied, v) == Continue {
        var rel := Rel(b, v.name);
        var data := fsys.ReadFile(v.name);
        if rel.Some? && data.Ok? {
          tw.WriteFile(rel.value, data.value);
        }
      }
    }
  }

  lemma AbsentPassed(b: string, denied: set<Path>)
    ensures LastAct(b, denied, [Visit(b, false, true)]) == Continue
  {
  }

  lemma AllOpen(denied: set<Path>, es: seq<Entry>)
    ensures Openable(denied, es) == |es| <==> forall e: Entry :: e in es ==> e.isDir || e.path !in denied
  {
    var n := Openable(denied, es);
    if n < |es| {
      assert es[n] in es;
    }
  }

  lemma ArchiveStarts(t: Tree, top: Path)
    ensures Archive(t, top, []) == []
  {
  }

  lemma ListedFile(t: Tree, denied: set<Path>, top: Path, es: seq<Entry>, e: Entry)
    requires WellFormed(t) && Has(t, top) && IsListing(t, denied, top, es) && e in es
    ensures top <= e.path
    ensures !e.isDir ==>
      !e.failed && HasFile(t, e.path) && ValidPath(e.path[|top|..]) && (HasDir(t, top) ==> top < e.path)
  {
    if !e.isDir {
      assert e.path in t && (e.path == top ==> !HasDir(t, top));
      ValidRest(top, e.path);
    }
  }

  lemma ValidRest(p: Path, q: Path)
    requires p <= q && ValidPath(q)
    ensures ValidPath(q[|p|..])
  {
    assert forall c :: c in q[|p|..] ==> c in q;
  }

  lemma {:induction false} NameAtResolves(root: string, rel: Path)
    requires ValidPath(rel)
    ensures Resolve(NameAt(root, rel)) == Resolve(root) + rel
    decreases |rel|
  {
    hide Resolve, PathJoin;
    if rel != [] {
      var front, c := Parent(rel), rel[|rel| - 1];
      assert rel == front + [c] && c in rel;
      assert forall x :: x in front ==> x in rel;
      NameAtResolves(root, front);
      ResolvePathJoin(NameAt(root, front), c);
      assert Resolve(root) + front + [c] == Resolve(root) + rel;
    } else {
      assert Resolve(root) + rel == Resolve(root);
    }
  }

  /** The visit to a file. */
  lemma ExportVisit(t: Tree, denied: set<Path>, b: string, top: Path, w: Walker, es: seq<Entry>, e: Entry)
    requires WellFormed(t) && Has(t, top) && top == Resolve(b) && IsListing(t, denied, top, es)
    requires w.root == b && w.top == top && e in es && !e.isDir
    ensures top <= e.path && HasFile(t, e.path) && !e.failed
    ensures Resolve(VisitOf(w, e).name) == e.path && Rel(b, VisitOf(w, e).name) == Some(HeaderName(e.path[|top|..]))
  {
    hide Resolve, Rel, NameAt, IsListing;
    ListedFile(t, denied, top, es, e);
    var rel := e.path[|top|..];
    NameAtResolves(b, rel);
    if rel == [] {
      RelOfBase(b);
    } else {
      RelOfName(b, rel);
    }
    assert top + rel == e.path;
  }

  /** A file that is the base itself is called ".". */
  lemma RelOfBase(base: string)
    ensures Rel(base, NameAt(base, [])) == Some(".")
  {
  }

  /** What the callback answers for an entry. */
  lemma ExportAnswer(t: Tree, denied: set<Path>, b: string, top: Path, w: Walker, es: seq<Entry>, e: Entry)
    requires WellFormed(t) && Has(t, top) && top == Resolve(b) && IsListing(t, denied, top, es)
    requires w.root == b && w.top == top && (forall past :: w.fn(past) == LastAct(b, denied, past)) && e in es
    ensures forall V :: ActOf(w, V, e) == if Closed(denied, e) then Fail(OPEN_FAILED) else Continue
  {
    hide Resolve, Rel, NameAt, IsListing, VisitOf;
    forall V ensures ActOf(w, V, e) == ExportAct(b, denied, VisitOf(w, e)) {
      LastIsAct(b, denied, VisitsOf(w, V), VisitOf(w, e));
    }
    VisitKind(w, e);
    if !e.isDir {
      ExportVisit(t, denied, b, top, w, es, e);
    }
  }

  lemma LastIsAct(b: string, denied: set<Path>, past: seq<Visit>, v: Visit)
    ensures LastAct(b, denied, past + [v]) == ExportAct(b, denied, v)
  {
  }

  lemma ExportGoesOn(t: Tree, denied: set<Path>, b: string, top: Path, w: Walker, es: seq<Entry>)
    requires WellFormed(t) && Has(t, top) && top == Resolve(b) && IsListing(t, denied, top, es)
    requires w.root == b && w.top == top && forall past :: w.fn(past) == LastAct(b, denied, past)
    ensures var n := Openable(denied, es); var visited := Scan(w, [], es);
      && EntriesOf(visited) == (if n < |es| then es[..n + 1] else es)
      && CodeOf(visited) == if n < |es| then Some(OPEN_FAILED) else None
  {
    hide Resolve, Rel, NameAt, IsListing, VisitOf, ExportAct, Closed, ActOf, Openable, WellFormed, Scan, LastAct;
    forall e, V | e in es ensures ActOf(w, V, e) == if Closed(denied, e) then Fail(OPEN_FAILED) else Continue {
      ExportAnswer(t, denied, b, top, w, es, e);
    }
    ScanStops(w, denied, es);
  }

  function EntriesOf(V: seq<Told>): seq<Entry> {
    seq(|V|, i requires 0 <= i < |V| => V[i].entry)
  }

  /** A callback that ends the walk at the first file that cannot be opened. */
  lemma ScanStops(w: Walker, denied: set<Path>, es: seq<Entry>)
    requires forall V, e :: e in es ==> ActOf(w, V, e) == if Closed(denied, e) then Fail(OPEN_FAILED) else Continue
    ensures var n := Openable(denied, es); var visited := Scan(w, [], es);
      && EntriesOf(visited) == (if n < |es| then es[..n + 1] else es)
      && CodeOf(visited) == if n < |es| then Some(OPEN_FAILED) else None
  {
    hide *;
    var n := Openable(denied, es);
    StopsAt(w, denied, es, n);
    ScanAll(w, [], es[..n]);
    assert [] + Passed(es[..n]) == Passed(es[..n]);
    PassedEntries(es, n);
    if n < |es| {
      ScanUntil(w, es, n, OPEN_FAILED);
    } else {
      assert es[..n] == es;
    }
  }

  lemma StopsAt(w: Walker, denied: set<Path>, es: seq<Entry>, n: nat)
    requires n == Openable(denied, es)
    requires forall V, e :: e in es ==> ActOf(w, V, e) == if Closed(denied, e) then Fail(OPEN_FAILED) else Continue
    ensures n <= |es| && forall U, e :: e in es[..n] ==> ActOf(w, U, e) == Continue
    ensures n < |es| ==> forall V :: ActOf(w, V, es[n]) == Fail(OPEN_FAILED)
  {
    hide ActOf;
    forall U, e | e in es[..n] ensures ActOf(w, U, e) == Continue {
      var i :| 0 <= i < n && es[i] == e;
      assert e in es;
    }
    if n < |es| {
      assert es[n] in es;
    }
  }

  lemma PassedEntries(es: seq<Entry>, n: nat)
    requires n <= |es|
    ensures EntriesOf(Passed(es[..n])) == es[..n] && CodeOf(Passed(es[..n])) == None
    ensures n < |es| ==> forall code ::
      var V := Passed(es[..n]) + [Told(es[n], Fail(code))]; EntriesOf(V) == es[..n + 1] && CodeOf(V) == Some(code)
  {
    forall code | n < |es|
      ensures var V := Passed(es[..n]) + [Told(es[n], Fail(code))];
        EntriesOf(V) == es[..n + 1] && CodeOf(V) == Some(code)
    {
      assert EntriesOf(Passed(es[..n]) + [Told(es[n], Fail(code))]) == es[..n + 1];
    }
  }

  /** The first answer that ends the walk is the last. */
  lemma ScanUntil(w: Walker, es: seq<Entry>, n: nat, code: int)
    requires n < |es| && (forall V :: ActOf(w, V, es[n]) == Fail(code))
    requires Scan(w, [], es[..n]) == Passed(es[..n])
    ensures Scan(w, [], es) == Passed(es[..n]) + [Told(es[n], Fail(code))]
  {
    hide Scan, ActOf;
    var seen, rest := es[..n + 1], es[n + 1..];
    ScanNext(w, es, n);
    NoneCut(es[..n], es[n]);
    var S := Passed(es[..n]) + [Told(es[n], Fail(code))];
    ScanConcat(w, [], seen, rest);
    assert es == seen + rest;
    forall e | e in rest ensures Cut(S, e) {
      assert Told(es[n], Fail(code)) in S && Cuts(Told(es[n], Fail(code)), e);
    }
    ScanCut(w, S, rest);
  }

  lemma NoneCut(es: seq<Entry>, e: Entry)
    ensures !Cut(Passed(es), e)
  {
  }

  lemma VisitKind(w: Walker, e: Entry)
    ensures VisitOf(w, e).isDir == e.isDir && VisitOf(w, e).failed == e.failed
  {
  }

  /** Visiting this file adds its entry to the archive. */
  ghost predicate Exported(t: Tree, denied: set<Path>, b: string, v: Visit, A: seq<TarEntry>, A': seq<TarEntry>) {
    && !v.failed && ExportAct(b, denied, v) == Continue
    && HasFile(t, Resolve(v.name)) && Resolve(v.name) !in denied
    && Rel(b, v.name).Some?
    && A' == A + [TarEntry(Rel(b, v.name).value, t[Resolve(v.name)].data)]
  }

  lemma ExportStep(t: Tree, denied: set<Path>, b: string, top: Path, w: Walker, es: seq<Entry>, i: nat)
    requires WellFormed(t) && Has(t, top) && top == Resolve(b) && IsListing(t, denied, top, es)
    requires w.root == b && w.top == top && (forall past :: w.fn(past) == LastAct(b, denied, past)) && i < |es|
    ensures VisitOf(w, es[i]).isDir == es[i].isDir && VisitOf(w, es[i]).failed == es[i].failed
    ensures es[i].isDir ==> Archive(t, top, es[..i + 1]) == Archive(t, top, es[..i])
    ensures !es[i].isDir && es[i].path !in denied ==>
      Exported(t, denied, b, VisitOf(w, es[i]), Archive(t, top, es[..i]), Archive(t, top, es[..i + 1]))
    ensures Closed(denied, es[i]) ==> ExportAct(b, denied, VisitOf(w, es[i])) != Continue
  {
    hide Resolve, Rel, NameAt, IsListing, VisitOf;
    var e := es[i];
    assert e in es;
    VisitKind(w, e);
    ExportAnswer(t, denied, b, top, w, es, e);
    assert es[..i + 1][..i] == es[..i];
    if !e.isDir {
      ExportVisit(t, denied, b, top, w, es, e);
    }
  }

  // ---------------------------------------------------------------- importing

  /** An entry the importer takes to a place below the destination. */
  predicate EntryOk(dest: string, name: string) {
    NoDotDot(name) && Parts(name) != [] && (dest == "" ==> Clean(name) == name)
  }

  function FullNameOf(dest: string, name: string): string {
    if dest != "" then PathJoin(dest, name) else name
  }

  function FilesAt(entries: seq<TarEntry>): seq<FileAt> {
    seq(|entries|, i requires 0 <= i < |entries| => FileAt(Parts(entries[i].name), entries[i].data))
  }

  lemma CleanDir(name: string)
    requires NoDotDot(name) && Parts(name) != [] && Clean(name) == name
    ensures var d := GoPath.Dir(name);
      NoDotDot(d) && Parts(d) == Parent(Parts(name)) && d != "" && (d == "." ==> Parts(d) == [])
  {
    hide GoPath.Dir, NoDotDot, Parts, Clean, Last, Reduce, Split, Join;
    var s := CleanEnds(name);
    var p := Parts(name);
    var c := p[|p| - 1];
    LastIs(s, c);
    DirSplits(name);
    assert name[..|name| - |c|] == s;
    assert Parent(Parts(s) + [c]) == Parts(s);
    CleanNoDotDot(s);
    CleanNotEmpty(s);
  }

  lemma EntryTarget(dest: string, name: string)
    requires NoDotDot(dest) && EntryOk(dest, name)
    ensures var full := FullNameOf(dest, name); var p := Parts(dest) + Parts(name);
      && Resolve(full) == p && p != [] && ValidPath(p)
      && NoDotDot(GoPath.Dir(full)) && Parts(GoPath.Dir(full)) == Parent(p) && GoPath.Dir(full) != ""
      && (GoPath.Dir(full) == "." ==> Parent(p) == [])
  {
    hide Split, Reduce, NoDotDot, Parts, Clean, Resolve, GoPath.Dir;
    PlainDots();
    PartsValid(dest);
    PartsValid(name);
    var full := FullNameOf(dest, name);
    if dest != "" {
      PathJoinParts(dest, name);
      PathJoinClean(dest, name);
    } else {
      assert [] + Parts(name) == Parts(name);
    }
    ResolveParts(full);
    CleanDir(full);
  }

  lemma PathJoinClean(a: string, b: string)
    requires a != "" && NoDotDot(a) && NoDotDot(b)
    ensures Clean(PathJoin(a, b)) == PathJoin(a, b)
  {
    hide Split, Reduce, NoDotDot, Parts, Clean;
    var s := a + "/" + b;
    PartsConcat(a, b);
    CleanNoDotDot(s);
    CleanNoDotDot(Clean(s));
    PathJoinIs(a, b);
  }

  method WriteFile(fsys: Fs, filename: string, data: Bytes, ghost dest: string, ghost name: string)
    returns (err: Option<PathError>)
    requires WellFormed(fsys.tree) && NoDotDot(dest) && EntryOk(dest, name) && filename == FullNameOf(dest, name)
    modifies fsys`tree
    ensures Parts(dest) + Parts(name) != []
    ensures WellFormed(fsys.tree)
    ensures err.None? <==> ImportOne(old(fsys.tree), Parts(dest) + Parts(name), data).Some?
    ensures err.None? ==> Some(fsys.tree) == ImportOne(old(fsys.tree), Parts(dest) + Parts(name), data)
    ensures var t, p := old(fsys.tree), Parts(dest) + Parts(name);
      && (err.None? <==> (forall q :: q < p ==> !HasFile(t, q)) && !HasDir(t, p))
      && (err.None? ==> forall q :: At(fsys.tree, q) == WrittenAt(t, p, data, q))
    ensures err.Some? ==> fsys.tree == old(fsys.tree)
  {
    hide ImportOne, WrittenAt, At, HasFile, HasDir, Resolve, GoPath.Dir, WellFormed, WithDirs, Parts, NoDotDot,
      NoFileOn, EntryOk, FullNameOf;
    ghost var t, p := fsys.tree, Parts(dest) + Parts(name);
    EntryTarget(dest, name);
    ImportOneIs(t, p, data);
    ImportOneAs(t, p, data);
    var dir := GoPath.Dir(filename);
    if dir != "" && dir != "." {
      var e := MkdirAll(fsys, dir);
      MadeIs(t, fsys.tree, dir, e);
      if e.Some? {
        return e;
      }
    } else {
      WithDirsThere(t, []);
    }
    ghost var t1 := fsys.tree;
    WithDirsExtends(t, Parent(p));
    ApplyKeeps(t1, WriteOp(p, data));
    WriteIs(t1, p, data);
    err := fsys.WriteFile(filename, data);
  }

  lemma ImportOneAs(t: Tree, p: Path, data: Bytes)
    requires WellFormed(t) && p != []
    ensures var t1 := WithDirs(t, Parent(p));
      ImportOne(t, p, data) == if !NoFileOn(t, Parent(p)) || HasDir(t1, p) then None else Some(t1[p := File(data)])
    ensures NoFileOn(t, Parent(p)) && HasDir(WithDirs(t, Parent(p)), p) ==> WithDirs(t, Parent(p)) == t
  {
    hide WithDirs, NoFileOn;
    if HasDir(WithDirs(t, Parent(p)), p) {
      WithDirsAt(t, Parent(p), p);
      assert Parent(p) < p;
      WithDirsThere(t, Parent(p));
    }
  }

  lemma MadeIs(t: Tree, t': Tree, path: string, err: Option<PathError>)
    requires Made(t, t', path, err) && NoDotDot(path)
    ensures WellFormed(t') && (err.None? <==> NoFileOn(t, Parts(path)))
    ensures err.None? ==> t' == WithDirs(t, Parts(path))
  {
  }

  lemma WriteIs(t: Tree, p: Path, data: Bytes)
    requires p != [] && HasDir(t, Parent(p))
    ensures FaultOf(t, WriteOp(p, data)) == None <==> !HasDir(t, p)
    ensures !HasDir(t, p) ==> Apply(t, WriteOp(p, data)) == t[p := File(data)]
  {
  }

  lemma FilesAtNonEmpty(dest: string, entries: seq<TarEntry>)
    requires forall e :: e in entries ==> EntryOk(dest, e.name)
    ensures forall f :: f in FilesAt(entries) ==> f.rel != []
  {
    forall f | f in FilesAt(entries) ensures f.rel != [] {
      var i :| 0 <= i < |entries| && f == FileAt(Parts(entries[i].name), entries[i].data);
      assert entries[i] in entries;
    }
  }

  /** The tree the importer leaves behind, if nothing is in its way. */
  ghost function Imported(t: Tree, dest: Path, fs: seq<FileAt>): Option<Tree>
    requires forall f :: f in fs ==> f.rel != []
  {
    if NoFileOn(t, dest) then ImportAll(WithDirs(t, dest), dest, fs) else None
  }

  /** The import stopped at the n-th file: those before it are in place, and it cannot be written. */
  ghost predicate StoppedAt(t: Tree, t': Tree, dest: Path, fs: seq<FileAt>, n: nat)
    requires n < |fs| && forall f :: f in fs ==> f.rel != []
  {
    assert fs[n] in fs;
    var p := dest + fs[n].rel;
    && Some(t') == Imported(t, dest, fs[..n])
    && (HasDir(t', p) || exists q :: q < p && HasFile(t', q))
  }

  /** All that was there is there, and only the places of files of the archive may have changed. */
  ghost predicate Kept(t: Tree, t': Tree, dest: Path, fs: seq<FileAt>) {
    forall q :: q in t ==> q in t' && (t'[q] == t[q] || exists f :: f in fs && q == dest + f.rel)
  }

  lemma ImportedKeeps(t: Tree, dest: Path, fs: seq<FileAt>, n: nat)
    requires NoFileOn(t, dest) && WellFormed(WithDirs(t, dest)) && ValidPath(dest) && n <= |fs|
    requires forall f :: f in fs ==> f.rel != [] && ValidPath(f.rel)
    requires ImportAll(WithDirs(t, dest), dest, fs[..n]).Some?
    ensures Kept(t, ImportAll(WithDirs(t, dest), dest, fs[..n]).value, dest, fs)
  {
    hide ImportAll, WithDirs, WellFormed, NoFileOn;
    var t1 := WithDirs(t, dest);
    WithDirsExtends(t, dest);
    forall f | f in fs[..n] ensures ValidPath(dest + f.rel) {
    }
    var t' := ImportAll(t1, dest, fs[..n]).value;
    forall q | q in t ensures q in t' && (t'[q] == t[q] || exists f :: f in fs && q == dest + f.rel) {
      ImportKeeps(t1, dest, fs[..n], q);
    }
  }

  method ImportFrom(fsys: Fs, dest: string, entries: seq<TarEntry>) returns (err: Option<PathError>)
    requires WellFormed(fsys.tree) && NoDotDot(dest)
    requires forall e :: e in entries ==> EntryOk(dest, e.name)
    modifies fsys`tree
    ensures WellFormed(fsys.tree)
    ensures (forall f :: f in FilesAt(entries) ==> f.rel != [])
      && (err.None? <==> Imported(old(fsys.tree), Parts(dest), FilesAt(entries)).Some?)
      && (err.None? ==> Some(fsys.tree) == Imported(old(fsys.tree), Parts(dest), FilesAt(entries)))
    ensures err.Some? ==>
      if NoFileOn(old(fsys.tree), Parts(dest))
      then exists n :: 0 <= n < |FilesAt(entries)|
                    && StoppedAt(old(fsys.tree), fsys.tree, Parts(dest), FilesAt(entries), n)
      else fsys.tree == old(fsys.tree)
    ensures Kept(old(fsys.tree), fsys.tree, Parts(dest), FilesAt(entries))
  {
    hide Resolve, GoPath.Dir, WellFormed, WithDirs, Parts, NoDotDot, NoFileOn, EntryOk, FullNameOf, ImportOne,
      ImportAll, ValidPath, HasDir, HasFile, FilesAt, Kept;
    ghost var t, d, fs := fsys.tree, Parts(dest), FilesAt(entries);
    FilesAtNonEmpty(dest, entries);
    FilesAtIs(dest, entries);
    KeptSame(t, d, fs);
    if dest != "" {
      err := MkdirAll(fsys, dest);
      MadeIs(t, fsys.tree, dest, err);
      if err.Some? {
        return;
      }
    } else {
      PlainDots();
      RootThere();
      WithDirsThere(t, []);
    }
    assert fs[0..] == fs && fs[..0] == [];
    ImportNone(fsys.tree, d);
    for i := 0 to |entries|
      invariant WellFormed(fsys.tree)
      invariant ImportAll(WithDirs(t, d), d, fs) == ImportAll(fsys.tree, d, fs[i..])
      invariant (forall f :: f in fs[..i] ==> f.rel != [])
             && Some(fsys.tree) == ImportAll(WithDirs(t, d), d, fs[..i])
    {
      assert entries[i] in entries;
      ImportSnoc(WithDirs(t, d), d, fs, i);
      ImportedKeeps(t, d, fs, i);
      var filename := FullNameOf(dest, entries[i].name);
      ImportFirst(fsys.tree, d, fs, i);
      err := WriteFile(fsys, filename, entries[i].data, dest, entries[i].name);
      if err.Some? {
        assert StoppedAt(t, fsys.tree, d, fs, i);
        return;
      }
    }
    assert fs[|entries|..] == [] && fs[..|entries|] == fs;
    ImportedKeeps(t, d, fs, |fs|);
    ImportNone(fsys.tree, d);
    err := None;
  }

  lemma RootThere()
    ensures forall t :: HasDir(t, [])
  {
  }

  lemma KeptSame(t: Tree, dest: Path, fs: seq<FileAt>)
    ensures Kept(t, t, dest, fs)
  {
  }

  lemma ImportNone(t: Tree, d: Path)
    ensures ImportAll(t, d, []) == Some(t)
  {
  }

  lemma FilesAtIs(dest: string, entries: seq<TarEntry>)
    requires NoDotDot(dest) && forall e :: e in entries ==> EntryOk(dest, e.name)
    ensures ValidPath(Parts(dest)) && |FilesAt(entries)| == |entries|
    ensures forall i :: 0 <= i < |entries| ==> FilesAt(entries)[i] == FileAt(Parts(entries[i].name), entries[i].data)
    ensures forall f :: f in FilesAt(entries) ==> ValidPath(f.rel)
  {
    PartsValid(dest);
    forall f | f in FilesAt(entries) ensures ValidPath(f.rel) {
      var i :| 0 <= i < |entries| && f == FileAt(Parts(entries[i].name), entries[i].data);
      assert entries[i] in entries;
      PartsValid(entries[i].name);
    }
  }

  lemma ImportFirst(t: Tree, d: Path, fs: seq<FileAt>, i: nat)
    requires i < |fs| && forall f :: f in fs ==> f.rel != []
    ensures fs[i] in fs && forall f :: f in fs[i..] || f in fs[i + 1..] ==> f.rel != []
    ensures d + fs[i].rel != []
    ensures ImportAll(t, d, fs[i..]) ==
      match ImportOne(t, d + fs[i].rel, fs[i].data) case None => None case Some(t') => ImportAll(t', d, fs[i + 1..])
  {
    assert fs[i..][0] == fs[i] && fs[i..][1..] == fs[i + 1..];
  }

  // ---------------------------------------------------------------- the round trip

  /** The files below a directory, by their paths from it. */
  function FilesBelow(t: Tree, top: Path): Files {
    map q | q in (set r | r in t && top < r :: r[|top|..]) && top + q in t && t[top + q].File? :: t[top + q].data
  }

  lemma FilesBelowAt(t: Tree, top: Path, q: Path)
    ensures q in FilesBelow(t, top) <==> q != [] && HasFile(t, top + q)
    ensures q in FilesBelow(t, top) ==> FilesBelow(t, top)[q] == t[top + q].data
  {
    if q != [] && HasFile(t, top + q) {
      assert (top + q)[|top|..] == q && top < top + q;
    }
    if q in FilesBelow(t, top) {
      var r :| r in t && top < r && q == r[|top|..];
      assert q != [];
    }
  }

  lemma FilesCompatible(t: Tree, top: Path)
    requires WellFormed(t)
    ensures Compatible(FilesBelow(t, top))
  {
    hide FilesBelow;
    var F := FilesBelow(t, top);
    forall f, g | f in F && g in F ensures f != [] && !(f < g) {
      FilesBelowAt(t, top, f);
      FilesBelowAt(t, top, g);
      assert f < g ==> top + g == top + f + g[|f|..];
      assert f < g ==> HasDir(t, top + f);
    }
  }

  /** A has the files among the first n entries of es, under plain names, and nothing else. */
  ghost predicate Collects(t: Tree, top: Path, es: seq<Entry>, n: nat, A: seq<TarEntry>)
    requires n <= |es|
  {
    && (forall e :: e in A ==> PlainName(e.name))
    && (forall q :: q in FilesOf(FilesAt(A)) <==> q != [] && FileAmong(es, n, top + q))
    && (forall q :: q in FilesOf(FilesAt(A)) ==> HasFile(t, top + q) && FilesOf(FilesAt(A))[q] == t[top + q].data)
  }

  predicate PlainName(name: string) {
    NoDotDot(name) && Parts(name) != [] && Clean(name) == name
  }

  ghost predicate FileAmong(es: seq<Entry>, n: nat, p: Path)
    requires n <= |es|
  {
    exists i :: 0 <= i < n && !es[i].isDir && es[i].path == p
  }

  lemma FileAmongStep(es: seq<Entry>, n: nat, p: Path)
    requires n < |es|
    ensures FileAmong(es, n + 1, p) <==> FileAmong(es, n, p) || (!es[n].isDir && es[n].path == p)
  {
    if FileAmong(es, n, p) {
      var i :| 0 <= i < n && !es[i].isDir && es[i].path == p;
      assert 0 <= i < n + 1;
    }
  }

  lemma CollectsDir(t: Tree, top: Path, es: seq<Entry>, n: nat, A: seq<TarEntry>)
    requires n < |es| && es[n].isDir && Collects(t, top, es, n, A)
    ensures Collects(t, top, es, n + 1, A)
  {
    hide FilesOf, FilesAt, PlainName, FileAmong;
    forall q ensures FileAmong(es, n + 1, top + q) <==> FileAmong(es, n, top + q) {
      FileAmongStep(es, n, top + q);
    }
  }

  lemma CollectsFile(t: Tree, top: Path, es: seq<Entry>, n: nat, A: seq<TarEntry>, rel: Path)
    requires n < |es| && !es[n].isDir && es[n].path == top + rel && Collects(t, top, es, n, A)
    requires rel != [] && ValidPath(rel) && HasFile(t, top + rel)
    ensures Collects(t, top, es, n + 1, A + [TarEntry(Join(rel), t[top + rel].data)])
  {
    hide FilesOf, FilesAt, PlainName, FileAmong, Join, Parts;
    var x := TarEntry(Join(rel), t[top + rel].data);
    JoinIsPlain(rel);
    FilesAtSnoc(A, x);
    forall q ensures FileAmong(es, n + 1, top + q) <==> FileAmong(es, n, top + q) || q == rel {
      FileAmongStep(es, n, top + q);
      assert (top + q)[|top|..] == q && (top + rel)[|top|..] == rel;
    }
  }

  /** The archive of a listing with everything readable holds exactly the files below the base. */
  lemma {:induction false} ArchiveFiles(t: Tree, top: Path, es: seq<Entry>, n: nat)
    requires WellFormed(t) && HasDir(t, top) && IsListing(t, {}, top, es) && n <= |es|
    ensures Collects(t, top, es, n, Archive(t, top, es[..n]))
    decreases n
  {
    hide Collects, IsListing, Join, WellFormed;
    if n == 0 {
      assert es[..0] == [];
      CollectsNone(t, top, es);
    } else {
      ArchiveFiles(t, top, es, n - 1);
      assert es[..n][..n - 1] == es[..n - 1];
      var e := es[n - 1];
      assert e in es;
      ListedFile(t, {}, top, es, e);
      if e.isDir {
        CollectsDir(t, top, es, n - 1, Archive(t, top, es[..n - 1]));
        assert Archive(t, top, es[..n]) == Archive(t, top, es[..n - 1]);
      } else {
        assert top + e.path[|top|..] == e.path;
        CollectsFile(t, top, es, n - 1, Archive(t, top, es[..n - 1]), e.path[|top|..]);
      }
    }
  }

  lemma CollectsNone(t: Tree, top: Path, es: seq<Entry>)
    ensures Collects(t, top, es, 0, [])
  {
    assert FilesAt([]) == [];
  }

  lemma JoinIsPlain(p: Path)
    requires ValidPath(p) && p != []
    ensures PlainName(Join(p)) && Parts(Join(p)) == p
  {
    PartsJoin(p);
    JoinHead(p);
    CleanNoDotDot(Join(p));
  }

  lemma FilesAtSnoc(A: seq<TarEntry>, x: TarEntry)
    ensures FilesAt(A + [x]) == FilesAt(A) + [FileAt(Parts(x.name), x.data)]
    ensures FilesOf(FilesAt(A + [x])) == FilesOf(FilesAt(A))[Parts(x.name) := x.data]
  {
    var fs := FilesAt(A + [x]);
    assert fs[..|fs| - 1] == FilesAt(A);
  }

  lemma ArchiveIsFiles(t: Tree, top: Path, es: seq<Entry>)
    requires WellFormed(t) && HasDir(t, top) && IsListing(t, {}, top, es)
    ensures FilesOf(FilesAt(Archive(t, top, es))) == FilesBelow(t, top)
    ensures forall dest, e :: e in Archive(t, top, es) ==> EntryOk(dest, e.name)
  {
    hide Archive, FilesAt, FilesOf, FilesBelow;
    assert es[..|es|] == es;
    ArchiveFiles(t, top, es, |es|);
    var F, G := FilesOf(FilesAt(Archive(t, top, es))), FilesBelow(t, top);
    forall q ensures (q in F <==> q in G) && (q in F ==> F[q] == G[q]) {
      FilesBelowAt(t, top, q);
      if q in G {
        var e := Entry(top + q, false, false);
        assert Listed(t, {}, top, e);
        assert e in es;
        assert FileAmong(es, |es|, top + q);
      }
    }
  }

  /** Exporting a directory and importing the archive where nothing is: below the destination there are
      exactly the files below the base, with their bytes, and the directories that lead to them; what
      lies elsewhere is as it was, but for the destination itself. Importing again changes nothing. */
  lemma RoundTrip(t: Tree, top: Path, es: seq<Entry>, u: Tree, dest: Path)
    requires WellFormed(t) && HasDir(t, top) && IsListing(t, {}, top, es)
    requires WellFormed(u) && ValidPath(dest) && NoFileOn(u, dest) && forall q :: q in u ==> !(dest < q)
    ensures var fs := FilesAt(Archive(t, top, es));
      && (forall f :: f in fs ==> f.rel != [])
      && Imported(u, dest, fs).Some?
      && Grown(Imported(u, dest, fs).value, u, dest, FilesBelow(t, top))
      && Imported(Imported(u, dest, fs).value, dest, fs) == Imported(u, dest, fs)
  {
    hide Archive, FilesAt, FilesOf, FilesBelow, Grown, Compatible, ImportAll, EntryOk, IsListing;
    var A := Archive(t, top, es);
    var fs, F := FilesAt(A), FilesBelow(t, top);
    ArchiveIsFiles(t, top, es);
    FilesAtNonEmpty("", A);
    FilesCompatible(t, top);
    GrownStarts(u, dest);
    var none: Files := map[];
    assert none + F == F && F + F == F;
    GrownAll(WithDirs(u, dest), u, dest, none, fs);
    var r := ImportAll(WithDirs(u, dest), dest, fs).value;
    GrownAll(r, u, dest, F, fs);
    var r2 := ImportAll(r, dest, fs).value;
    GrownUnique(r, r2, u, dest, F);
    GrownDest(r, u, dest, F);
  }

  /** The same over the code: a directory whose files can all be opened is exported, and the archive imported
      where nothing is, and once more. */
  method ExportAndImport(src: Fs, base: string, dst: Fs, dest: string)
    returns (exported: Option<int>, imported: Option<PathError>, again: Option<PathError>)
    requires WellFormed(src.tree) && src.denied == {} && HasDir(src.tree, Resolve(if base == "" then "." else base))
    requires WellFormed(dst.tree) && NoDotDot(dest) && NoFileOn(dst.tree, Parts(dest))
    requires forall q :: q in dst.tree ==> !(Parts(dest) < q)
    modifies dst`tree
    ensures exported.None? && imported.None? && again.None?
    ensures WellFormed(dst.tree)
    ensures Grown(dst.tree, old(dst.tree), Parts(dest),
      FilesBelow(old(src.tree), Resolve(if base == "" then "." else base)))
  {
    hide Resolve, WellFormed, Parts, NoDotDot, NoFileOn, EntryOk, Grown, FilesBelow, IsListing, Imported, FilesAt,
      Archive, Openable, Closed;
    ghost var t, top, u := src.tree, Resolve(if base == "" then "." else base), dst.tree;
    ghost var es := MakeListing(t, {}, top);
    AllReadable(es);
    var tw := new Writer();
    exported := ExportAsTar(src, base, tw);
    assert [] + Archive(t, top, es) == Archive(t, top, es);
    assert es[..|es|] == es;
    ArchiveIsFiles(t, top, es);
    PartsValid(dest);
    RoundTrip(t, top, es, u, Parts(dest));
    imported := ImportFrom(dst, dest, tw.entries);
    again := ImportFrom(dst, dest, tw.entries);
  }

  lemma AllReadable(es: seq<Entry>)
    ensures Openable({}, es) == |es| && forall e :: e in es ==> !Closed({}, e)
  {
  }

  /** The destination is a directory by then. */
  lemma GrownDest(r: Tree, u: Tree, d: Path, F: Files)
    requires Grown(r, u, d, F)
    ensures WithDirs(r, d) == r && NoFileOn(r, d)
  {
    forall q | q <= d ensures HasDir(r, q) && !HasFile(r, q) {
      assert At(r, q) == GrownAt(u, d, F, q);
    }
    var r' := WithDirs(r, d);
    forall q ensures (q in r' <==> q in r) && (q in r ==> r'[q] == r[q]) {
      WithDirsAt(r, d, q);
      assert q <= d ==> HasDir(r, q);
    }
  }
}
