/**
 What importing files one by one builds, in terms of the whole set of files.
 */
module TarFiles {
  import opened Data
  import opened GoPath
  import opened Tree
  import opened MkdirAllUtil

  /** Writing one file, after making its directory. */
  ghost function ImportOne(t: Tree, p: Path, data: Bytes): Option<Tree>
    requires p != []
  {
    if !NoFileOn(t, Parent(p)) then None
    else
      var t1 := WithDirs(t, Parent(p));
      if HasDir(t1, p) then None else Some(t1[p := File(data)])
  }

  /** What is at q after the file p has been written. */
  ghost function WrittenAt(t: Tree, p: Path, data: Bytes, q: Path): Option<Node> {
    if q == p then Some(File(data)) else if q != [] && q < p then Some(Dir) else At(t, q)
  }

  /** A file can be written exactly where nothing above it is a file and there is no directory; then it is there,
      there are directories above it, and everything else is as it was. */
  lemma ImportOneIs(t: Tree, p: Path, data: Bytes)
    requires WellFormed(t) && p != []
    ensures ImportOne(t, p, data).Some? <==> (forall q :: q < p ==> !HasFile(t, q)) && !HasDir(t, p)
    ensures ImportOne(t, p, data).Some? ==> forall q :: At(ImportOne(t, p, data).value, q) == WrittenAt(t, p, data, q)
  {
    hide WithDirs;
    var d := Parent(p);
    forall q ensures q < p && HasFile(t, q) <==> q <= d && HasFile(t, q) {
    }
    WithDirsAt(t, d, p);
    var r := ImportOne(t, p, data);
    if r.Some? {
      forall q ensures At(r.value, q) == WrittenAt(t, p, data, q) {
        WithDirsAt(t, d, q);
        assert q <= d <==> q < p;
      }
    }
  }

  /** A file of an archive: where it goes, below the destination, and its bytes. */
  datatype FileAt = FileAt(rel: Path, data: Bytes)

  ghost function ImportAll(t: Tree, d: Path, fs: seq<FileAt>): Option<Tree>
    requires forall f :: f in fs ==> f.rel != []
    decreases |fs|
  {
    if fs == [] then Some(t)
    else
      assert fs[0] in fs;
      match ImportOne(t, d + fs[0].rel, fs[0].data)
      case None => None
      case Some(t') => ImportAll(t', d, fs[1..])
  }

  /** Importing one file more. */
  lemma {:induction false} ImportSnoc(t: Tree, d: Path, fs: seq<FileAt>, i: nat)
    requires i < |fs| && forall f :: f in fs ==> f.rel != []
    ensures (forall f :: f in fs[..i] || f in fs[..i + 1] ==> f.rel != []) && d + fs[i].rel != []
    ensures ImportAll(t, d, fs[..i + 1]) ==
      match ImportAll(t, d, fs[..i]) case None => None case Some(t') => ImportOne(t', d + fs[i].rel, fs[i].data)
    decreases i
  {
    hide ImportOne;
    assert fs[i] in fs;
    if i == 0 {
      assert fs[..1] == [fs[0]] && fs[..1][1..] == [];
    } else {
      assert fs[0] in fs;
      assert fs[..i + 1][1..] == fs[1..][..i] && fs[..i][1..] == fs[1..][..i - 1];
      match ImportOne(t, d + fs[0].rel, fs[0].data)
      case None =>
      case Some(t') =>
        ImportSnoc(t', d, fs[1..], i - 1);
    }
  }

  /** Nothing that was there is gone, and only a file of the archive is written over. */
  lemma {:induction false} ImportKeeps(t: Tree, d: Path, fs: seq<FileAt>, q: Path)
    requires WellFormed(t) && (forall f :: f in fs ==> f.rel != [] && ValidPath(d + f.rel)) && ImportAll(t, d, fs).Some?
    ensures WellFormed(ImportAll(t, d, fs).value)
    ensures q in t ==> q in ImportAll(t, d, fs).value
    ensures q in t && ImportAll(t, d, fs).value[q] != t[q] ==> exists f :: f in fs && q == d + f.rel
    decreases |fs|
  {
    hide ImportOne, WellFormed;
    if fs != [] {
      assert fs[0] in fs;
      var p := d + fs[0].rel;
      var t1 := ImportOne(t, p, fs[0].data).value;
      ImportOneKeeps(t, p, fs[0].data, q);
      ImportKeeps(t1, d, fs[1..], q);
    }
  }

  lemma ImportOneKeeps(t: Tree, p: Path, data: Bytes, q: Path)
    requires WellFormed(t) && p != [] && ValidPath(p) && ImportOne(t, p, data).Some?
    ensures WellFormed(ImportOne(t, p, data).value)
    ensures q in t ==> q in ImportOne(t, p, data).value && (q == p || ImportOne(t, p, data).value[q] == t[q])
  {
    hide ImportOne, WithDirs;
    ImportOneIs(t, p, data);
    var r := ImportOne(t, p, data).value;
    assert At(r, q) == WrittenAt(t, p, data, q);
    assert q < p ==> !HasFile(t, q);
    forall x | x in r ensures x != [] && ValidPath(x) && forall y :: y < x ==> HasDir(r, y) {
      assert At(r, x) == WrittenAt(t, p, data, x);
      if x < p {
        assert x == p[..|x|];
        assert forall c :: c in x ==> c in p;
      }
      forall y | y < x ensures HasDir(r, y) {
        assert At(r, y) == WrittenAt(t, p, data, y);
        if !(x <= p) { assert x in t && HasDir(t, y); }
      }
    }
  }

  type Files = map<Path, Bytes>

  function FilesOf(fs: seq<FileAt>): Files {
    if fs == [] then map[] else FilesOf(fs[..|fs| - 1])[fs[|fs| - 1].rel := fs[|fs| - 1].data]
  }

  /** No file lies below another. */
  ghost predicate Compatible(F: Files) {
    forall f, g :: f in F && g in F ==> f != [] && !(f < g)
  }

  ghost predicate Leads(F: Files, q: Path) {
    exists f :: f in F && q < f
  }

  /** What is at q when the files F have been put below d: the files, and the directories above them. */
  ghost function GrownAt(u: Tree, d: Path, F: Files, q: Path): Option<Node> {
    if d < q then
      var rel := q[|d|..];
      if rel in F then Some(File(F[rel])) else if Leads(F, rel) then Some(Dir) else None
    else if q != [] && q <= d then Some(Dir)
    else if q in u then Some(u[q]) else None
  }

  ghost function At(t: Tree, q: Path): Option<Node> {
    if q in t then Some(t[q]) else None
  }

  ghost predicate Grown(r: Tree, u: Tree, d: Path, F: Files) {
    forall q :: At(r, q) == GrownAt(u, d, F, q)
  }

  lemma GrownUnique(r: Tree, r': Tree, u: Tree, d: Path, F: Files)
    requires Grown(r, u, d, F) && Grown(r', u, d, F)
    ensures r == r'
  {
    forall q ensures (q in r <==> q in r') && (q in r ==> r[q] == r'[q]) {
      assert At(r, q) == GrownAt(u, d, F, q);
      assert At(r', q) == GrownAt(u, d, F, q);
    }
  }

  /** An empty destination. */
  lemma GrownStarts(u: Tree, d: Path)
    requires forall q :: q in u ==> q != [] && !(d < q)
    ensures Grown(WithDirs(u, d), u, d, map[])
  {
    forall q ensures At(WithDirs(u, d), q) == GrownAt(u, d, map[], q) {
      WithDirsAt(u, d, q);
    }
  }

  lemma GrownNoFile(r: Tree, u: Tree, d: Path, F: Files, f: Path)
    requires Grown(r, u, d, F) && f != [] && [] !in u
    requires forall g :: g in F ==> g != [] && !(g < f)
    ensures NoFileOn(r, d + Parent(f))
  {
    forall q | q <= d + Parent(f) ensures !HasFile(r, q) {
      assert At(r, q) == GrownAt(u, d, F, q);
      if q <= d {
      } else {
        LongerPrefix(d, Parent(f), q);
        var rel := q[|d|..];
        assert rel <= Parent(f) && Parent(f) < f;
        assert rel < f;
      }
    }
  }

  lemma LongerPrefix(d: Path, p: Path, q: Path)
    requires q <= d + p && !(q <= d)
    ensures d < q && q[|d|..] <= p && q == d + q[|d|..]
  {
    assert q == (d + p)[..|q|];
    assert |q| > |d|;
    assert d == q[..|d|];
    assert q[|d|..] == p[..|q| - |d|];
  }

  /** Putting one more file, or the same file again. */
  lemma GrownNext(r: Tree, u: Tree, d: Path, F: Files, f: Path, data: Bytes)
    requires Grown(r, u, d, F) && Compatible(F[f := data]) && f != [] && [] !in u
    ensures ImportOne(r, d + f, data).Some?
    ensures Grown(ImportOne(r, d + f, data).value, u, d, F[f := data])
  {
    var F' := F[f := data];
    forall g | g in F ensures g != [] && !(g < f) {
      assert g in F' && f in F';
    }
    GrownNoFile(r, u, d, F, f);
    var p := d + f;
    assert Parent(p) == d + Parent(f);
    var t1 := WithDirs(r, Parent(p));
    WithDirsAt(r, Parent(p), p);
    assert !(p <= Parent(p));
    assert At(r, p) == GrownAt(u, d, F, p);
    assert p[|d|..] == f && d < p;
    assert forall g :: g in F ==> g in F';
    assert f in F' && !Leads(F, f);
    var r' := t1[p := File(data)];
    forall q ensures At(r', q) == GrownAt(u, d, F', q) {
      GrownNextAt(r, u, d, F, f, data, q);
    }
  }

  lemma GrownNextAt(r: Tree, u: Tree, d: Path, F: Files, f: Path, data: Bytes, q: Path)
    requires Grown(r, u, d, F) && Compatible(F[f := data]) && f != [] && [] !in u
    ensures At(WithDirs(r, d + Parent(f))[d + f := File(data)], q) == GrownAt(u, d, F[f := data], q)
  {
    hide WithDirs, Compatible, GrownAt;
    WithDirsAt(r, d + Parent(f), q);
    assert At(r, q) == GrownAt(u, d, F, q);
    if d < q {
      var rel := q[|d|..];
      assert q == d + rel;
      PrefixConcat(d, rel, f);
      PrefixConcat(d, rel, Parent(f));
      assert rel <= Parent(f) <==> rel < f by { if rel < f { PrefixOfParent(f, rel); } }
      GrownAtMore(u, d, F, f, data, rel);
    } else {
      GrownAtElsewhere(u, d, F, F[f := data], q);
      assert q != d + f by { assert d < d + f; }
      if q <= d + Parent(f) && !(q <= d) { LongerPrefix(d, Parent(f), q); }
      assert q <= d ==> q <= d + Parent(f);
    }
  }

  /** With one more file, its place and the places above it change. */
  lemma GrownAtMore(u: Tree, d: Path, F: Files, f: Path, data: Bytes, rel: Path)
    requires Compatible(F[f := data]) && rel != []
    ensures d < d + rel
    ensures GrownAt(u, d, F[f := data], d + rel) ==
            if rel == f then Some(File(data)) else if rel < f then Some(Dir) else GrownAt(u, d, F, d + rel)
  {
    var F' := F[f := data];
    assert (d + rel)[|d|..] == rel;
    LeadsMore(F, f, data, rel);
    assert f in F';
    assert rel in F ==> rel in F';
  }

  lemma GrownAtElsewhere(u: Tree, d: Path, F: Files, F': Files, q: Path)
    requires !(d < q)
    ensures GrownAt(u, d, F', q) == GrownAt(u, d, F, q)
    ensures q != [] && q <= d ==> GrownAt(u, d, F, q) == Some(Dir)
  {
  }

  lemma LeadsMore(F: Files, f: Path, data: Bytes, q: Path)
    ensures Leads(F[f := data], q) <==> Leads(F, q) || q < f
  {
    var F' := F[f := data];
    if q < f { assert f in F'; }
    if g :| g in F && q < g { assert g in F'; }
  }

  /** Importing files adds them all, whatever was there of them before. */
  lemma {:induction false} GrownAll(r: Tree, u: Tree, d: Path, F: Files, fs: seq<FileAt>)
    requires Grown(r, u, d, F) && [] !in u && forall f :: f in fs ==> f.rel != []
    requires Compatible(F + FilesOf(fs))
    ensures ImportAll(r, d, fs).Some?
    ensures Grown(ImportAll(r, d, fs).value, u, d, F + FilesOf(fs))
    decreases |fs|
  {
    hide Grown, Compatible, ImportOne;
    if fs == [] {
      assert F + map[] == F;
    } else {
      assert fs[0] in fs;
      FilesFirst(fs);
      var F1 := F[fs[0].rel := fs[0].data];
      assert Compatible(F1) by {
        SameKeys(F, fs);
      }
      GrownNext(r, u, d, F, fs[0].rel, fs[0].data);
      var r1 := ImportOne(r, d + fs[0].rel, fs[0].data).value;
      assert F1 + FilesOf(fs[1..]) == F + FilesOf(fs);
      GrownAll(r1, u, d, F1, fs[1..]);
    }
  }

  lemma SameKeys(F: Files, fs: seq<FileAt>)
    requires fs != [] && Compatible(F + FilesOf(fs))
    ensures Compatible(F[fs[0].rel := fs[0].data])
  {
    FilesFirst(fs);
    var F1, G := F[fs[0].rel := fs[0].data], F + FilesOf(fs);
    assert forall f :: f in F1 ==> f in G;
  }

  lemma {:induction false} FilesFirst(fs: seq<FileAt>)
    requires fs != []
    ensures FilesOf(fs) == map[fs[0].rel := fs[0].data] + FilesOf(fs[1..])
    decreases |fs|
  {
    var n := |fs| - 1;
    if n == 0 {
      assert fs[..0] == [];
    } else {
      FilesFirst(fs[..n]);
      assert fs[..n][1..] == fs[1..][..n - 1];
      assert fs[1..][n - 1] == fs[n];
    }
  }
}
