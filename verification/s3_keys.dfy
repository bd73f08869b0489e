/**
 Object keys of the S3 file system. A directory d is the holder object d/.fs_dir together with every
 key that starts with "d/"; a file is the object at its own key.
 */
module S3Keys {
  import opened Data
  import opened GoPath

  type Objects = map<string, Bytes>

  const DIR_HOLDER := ".fs_dir"

  // ---------------------------------------------------------------- the order of keys

  /** What the keys below the directory key d start with; the root of the bucket has the key "". */
  function Slash(d: string): string {
    if d == "" then "" else d + "/"
  }

  predicate Above(d: string, k: string) {
    Slash(d) <= k
  }

  predicate AtOrBelow(d: string, k: string) {
    k == d || Above(d, k)
  }

  function Child(d: string, x: string): string {
    Slash(d) + x
  }

  function Holder(d: string): string {
    Child(d, DIR_HOLDER)
  }

  function Rest(d: string, k: string): string
    requires Above(d, k)
  {
    k[|Slash(d)|..]
  }

  /** The entry of directory d that k lies at or below. */
  function Seg(d: string, k: string): string
    requires Above(d, k)
  {
    Split(Rest(d, k))[0]
  }

  predicate HasSuffix(k: string, s: string) {
    |s| <= |k| && k[|k| - |s|..] == s
  }

  /** Whether a key ends like a holder is settled after its last slash. */
  lemma SuffixOfTail(s: string, x: string)
    requires s == "" || s[|s| - 1] == '/'
    ensures HasSuffix(s + x, DIR_HOLDER) <==> HasSuffix(x, DIR_HOLDER)
  {
    var t := s + x;
    if |x| < |DIR_HOLDER| {
      if |t| >= |DIR_HOLDER| && s != "" {
        assert t[|t| - 7..][6 - |x|] == t[|s| - 1] == '/';
        assert DIR_HOLDER[6 - |x|] != '/';
      }
    } else {
      assert t[|t| - 7..] == x[|x| - 7..];
    }
  }

  /** A file directly in d that Readdir takes for a holder. */
  predicate Hidden(d: string, k: string) {
    Above(d, k) && Seg(d, k) == Rest(d, k) && HasSuffix(k, DIR_HOLDER)
  }

  lemma AboveTransitive(a: string, b: string, c: string)
    requires AtOrBelow(a, b) && AtOrBelow(b, c)
    ensures AtOrBelow(a, c)
    ensures Above(a, b) || Above(b, c) ==> Above(a, c)
  {
  }

  lemma AboveComparable(a: string, b: string, c: string)
    requires AtOrBelow(a, c) && AtOrBelow(b, c)
    ensures AtOrBelow(a, b) || AtOrBelow(b, a)
  {
    if |a| <= |b| {
      assert a == c[..|a|] && b == c[..|b|];
      assert a == b[..|a|];
      if |a| < |b| && a != "" {
        assert b[|a|] == c[|a|] == '/';
        assert Slash(a) == b[..|a| + 1];
      }
    } else if b != "" {
      assert a == c[..|a|] && b == c[..|b|];
      assert b == a[..|b|];
      assert a[|b|] == c[|b|] == '/';
      assert Slash(b) == a[..|b| + 1];
    }
  }

  lemma FirstComponent(s: string)
    ensures var x := Split(s)[0];
      NoSlash(x) && x <= s && (x == s || (|x| < |s| && s[|x|] == '/'))
  {
    SplitElements(s);
    assert Split(s)[0] in Split(s);
    if s != "" && s[0] != '/' {
      FirstComponent(s[1..]);
    }
  }

  lemma FirstComponentOf(x: string, s: string)
    requires NoSlash(x) && x <= s && (x == s || s[|x|] == '/')
    ensures Split(s)[0] == x
  {
    SplitNoSlash(x);
    if x != s {
      SplitConcat(x, s[|x| + 1..]);
      assert s == x + "/" + s[|x| + 1..];
    }
  }

  /** A key is at or below the child x of d exactly if it is below d and x is the next component. */
  lemma SegIsChild(d: string, x: string, k: string)
    requires NoSlash(x) && x != ""
    ensures AtOrBelow(Child(d, x), k) <==> Above(d, k) && Seg(d, k) == x
    ensures AtOrBelow(Child(d, x), k) ==> (k == Child(d, x) <==> Rest(d, k) == x)
  {
    var c := Child(d, x);
    if AtOrBelow(c, k) {
      ChildSplits(d, x, k);
      FirstComponentOf(x, Rest(d, k));
    }
    if Above(d, k) && Seg(d, k) == x {
      FirstComponent(Rest(d, k));
      ChildJoins(d, x, k);
    }
  }

  lemma ChildSplits(d: string, x: string, k: string)
    requires x != "" && AtOrBelow(Child(d, x), k)
    ensures Above(d, k) && k == Slash(d) + Rest(d, k)
    ensures x <= Rest(d, k)
    ensures k == Child(d, x) <==> Rest(d, k) == x
    ensures k != Child(d, x) ==> |x| < |Rest(d, k)| && Rest(d, k)[|x|] == '/'
  {
    var c := Child(d, x);
    var n := |Slash(d)|;
    assert c == k[..|c|];
    assert k[..n] == c[..n] == Slash(d);
    assert k == k[..n] + k[n..];
    assert k[n..][..|x|] == k[..|c|][n..] == x;
    if k != c {
      assert k[..|c| + 1] == Slash(c);
      assert k[|c|] == '/';
      assert k[n..][|x|] == k[n + |x|];
    }
  }

  lemma ChildJoins(d: string, x: string, k: string)
    requires Above(d, k) && x != "" && x <= Rest(d, k)
    requires x == Rest(d, k) || Rest(d, k)[|x|] == '/'
    ensures AtOrBelow(Child(d, x), k)
  {
    var c := Child(d, x);
    var s := Rest(d, k);
    assert k == Slash(d) + s;
    if x != s {
      assert s == x + "/" + s[|x| + 1..];
      assert k == Slash(c) + s[|x| + 1..];
    } else {
      assert k == c;
    }
  }

  lemma HolderSeg(d: string)
    ensures Above(d, Holder(d)) && Rest(d, Holder(d)) == DIR_HOLDER && Seg(d, Holder(d)) == DIR_HOLDER
    ensures Hidden(d, Holder(d))
  {
    SegIsChild(d, DIR_HOLDER, Holder(d));
  }

  // ---------------------------------------------------------------- names to keys

  predicate RootPrefix(prefix: string) {
    prefix == "" || prefix == "/"
  }

  /** A configured prefix that names some place in the bucket. */
  predicate PrefixOk(prefix: string) {
    RootPrefix(prefix) || (NoDotDot(prefix) && Parts(prefix) != [])
  }

  /** fs.path */
  function KeyOf(prefix: string, name: string): string {
    if RootPrefix(prefix) then TrimRoot(name) else TrimRoot(PathJoin(prefix, name))
  }

  function PrefixParts(prefix: string): Path {
    if RootPrefix(prefix) then [] else Parts(prefix)
  }

  function BaseKey(prefix: string): string {
    Join(PrefixParts(prefix))
  }

  /** The key of the path p. */
  function Key(prefix: string, p: Path): string {
    Join(PrefixParts(prefix) + p)
  }

  /** A name the S3 file system gives a path to. Under the root prefix names are used as they are,
      so there they must be cleaned and rooted. */
  predicate NameOk(prefix: string, name: string) {
    NoDotDot(name) && (RootPrefix(prefix) ==> name == Abs(Parts(name)))
  }

  lemma JoinAppend(p: Path, c: string)
    requires ValidPath(p) && ValidName(c)
    ensures Join(p + [c]) == Child(Join(p), c)
    ensures p != [] <==> Join(p) != ""
  {
    if p == [] {
      assert p + [c] == [c];
    } else {
      JoinHead(p);
      JoinConcat(p, [c]);
    }
  }

  lemma PrefixPartsValid(prefix: string)
    requires PrefixOk(prefix)
    ensures ValidPath(PrefixParts(prefix))
  {
    if !RootPrefix(prefix) {
      PartsValid(prefix);
    }
  }

  lemma KeyChild(prefix: string, p: Path, c: string)
    requires PrefixOk(prefix) && ValidPath(p) && ValidName(c)
    ensures Key(prefix, p + [c]) == Child(Key(prefix, p), c)
  {
    PrefixPartsValid(prefix);
    var q := PrefixParts(prefix);
    assert q + (p + [c]) == (q + p) + [c];
    JoinAppend(q + p, c);
  }

  lemma KeyOfName(prefix: string, name: string)
    requires PrefixOk(prefix) && NameOk(prefix, name)
    ensures KeyOf(prefix, name) == Key(prefix, Parts(name))
  {
    PartsValid(name);
    if RootPrefix(prefix) {
      assert [] + Parts(name) == Parts(name);
    } else {
      PartsValid(prefix);
      var p := Parts(prefix) + Parts(name);
      assert prefix != "" by { assert Split("") == [""]; }
      PathJoinParts(prefix, name);
      JoinHead(p);
    }
  }

  /** path.Join(name, c) names the child c. */
  lemma NameChild(prefix: string, name: string, c: string)
    requires PrefixOk(prefix) && NameOk(prefix, name) && ValidName(c)
    ensures NameOk(prefix, PathJoin(name, c))
    ensures Parts(PathJoin(name, c)) == Parts(name) + [c]
    ensures KeyOf(prefix, PathJoin(name, c)) == Child(KeyOf(prefix, name), c)
  {
    PartsValid(name);
    PartsOfName(c);
    if name == "" {
      CleanNoDotDot(c);
      assert Parts(name) == [];
      assert [] + [c] == [c];
    } else {
      PathJoinParts(name, c);
    }
    KeyOfName(prefix, name);
    KeyOfName(prefix, PathJoin(name, c));
    KeyChild(prefix, Parts(name), c);
  }

  lemma HolderName(prefix: string, name: string)
    requires PrefixOk(prefix) && NameOk(prefix, name)
    ensures KeyOf(prefix, PathJoin(name, DIR_HOLDER)) == Holder(KeyOf(prefix, name))
  {
    NameChild(prefix, name, DIR_HOLDER);
  }

  lemma CleanName(prefix: string, name: string)
    requires PrefixOk(prefix) && NameOk(prefix, name) && Parts(name) != []
    ensures NameOk(prefix, Clean(name)) && Parts(Clean(name)) == Parts(name)
    ensures KeyOf(prefix, Clean(name)) == KeyOf(prefix, name)
    ensures Clean(Clean(name)) == Clean(name) && Clean(Clean(name) + "/") == Clean(name)
    ensures NoDotDot(Clean(name) + "/") && Parts(Clean(name) + "/") == Parts(name)
    ensures Clean(name) != ""
  {
    CleanNoDotDot(name);
    var n := Clean(name);
    CleanNoDotDot(n);
    PartsTrailing(n);
    assert n != "" by { assert Split("") == [""]; }
    CleanNoDotDot(n + "/");
    assert Rooted(n + "/") <==> Rooted(n);
    KeyOfName(prefix, name);
    KeyOfName(prefix, n);
  }

  /** The name Mkdir and RemoveAll hand on: path.Clean(name) + "/". Under the root prefix its own key
      keeps the slash. */
  lemma DirName(prefix: string, name: string)
    requires PrefixOk(prefix) && NameOk(prefix, name) && (Parts(name) != [] || !RootPrefix(prefix))
    ensures KeyOf(prefix, PathJoin(Clean(name) + "/", DIR_HOLDER)) == Holder(KeyOf(prefix, name))
    ensures KeyOf(prefix, Clean(name) + "/") == KeyOf(prefix, name) + if RootPrefix(prefix) then "/" else ""
  {
    var d := Clean(name) + "/";
    KeyOfName(prefix, name);
    PartsValid(name);
    KeyChild(prefix, Parts(name), DIR_HOLDER);
    CleanSlash(name);
    DirHolderName(prefix, d);
    if RootPrefix(prefix) {
      CleanName(prefix, name);
      assert Rooted(Clean(name));
      assert d[1..] == Clean(name)[1..] + "/";
    } else {
      KeyOfName(prefix, d);
    }
  }

  /** path.Clean(name) + "/" names the same path. */
  lemma CleanSlash(name: string)
    requires NoDotDot(name)
    ensures var d := Clean(name) + "/";
      NoDotDot(d) && Parts(d) == Parts(name) && (Rooted(d) <==> Rooted(name))
  {
    hide Clean, NoDotDot, Parts;
    CleanNoDotDot(name);
    CleanNotEmpty(name);
    PartsConcat(Clean(name), "");
    PlainDots();
    assert Clean(name) + "/" + "" == Clean(name) + "/";
    assert Parts(name) + [] == Parts(name);
  }

  lemma DirHolderName(prefix: string, d: string)
    requires PrefixOk(prefix) && NoDotDot(d) && d != ""
    requires RootPrefix(prefix) ==> Rooted(d)
    ensures KeyOf(prefix, PathJoin(d, DIR_HOLDER)) == Key(prefix, Parts(d) + [DIR_HOLDER])
  {
    PartsOfName(DIR_HOLDER);
    PathJoinParts(d, DIR_HOLDER);
    KeyOfName(prefix, PathJoin(d, DIR_HOLDER));
  }

  /** path.Dir(strings.TrimRight(name, "/")) names the parent. */
  lemma ParentName(prefix: string, name: string)
    requires PrefixOk(prefix) && NoDotDot(name) && PlainTail(name)
    requires RootPrefix(prefix) ==> Rooted(name)
    ensures var d := Dir(TrimRightSlashes(name));
      && |Parts(name)| > 0
      && NameOk(prefix, d) && Parts(d) == Parts(name)[..|Parts(name)| - 1]
      && (|Parts(name)| == 1 <==> d == "/" || d == ".")
  {
    hide Last, TrimRightSlashes, Clean, Parts, NoDotDot, Dir;
    var t := TrimRightSlashes(name);
    TrimmedParts(name);
    DirSplits(t);
    PlainDots();
    var s := t[..|t| - |Last(t)|];
    CleanNoDotDot(s);
    if Parts(s) != [] {
      PartsValid(s);
      JoinHead(Parts(s));
    }
  }

  lemma CleanPlainTail(name: string)
    requires NoDotDot(name) && Parts(name) != []
    ensures PlainTail(Clean(name) + "/")
  {
    hide Clean, NoDotDot, Parts, Last, TrimRightSlashes;
    var s := CleanEnds(name);
    var c := Parts(name)[|Parts(name)| - 1];
    LastIs(s, c);
    TrimOneSlash(s, c);
  }

  // ---------------------------------------------------------------- keys of a well-kept bucket

  /** Keys below the prefix are cleaned; keys elsewhere in the bucket are not restricted. */
  predicate KeyOk(base: string, k: string) {
    Above(base, k) ==> ValidPath(Split(Rest(base, k)))
  }

  predicate ValidKeys(base: string, B: Objects) {
    forall k :: k in B ==> KeyOk(base, k)
  }

  /** The components of a cleaned key, seen from any directory above it, are names. */
  lemma SegValid(base: string, d: string, k: string)
    requires KeyOk(base, k) && AtOrBelow(base, d) && Above(d, k)
    ensures ValidName(Seg(d, k)) && ValidPath(Split(Rest(d, k)))
  {
    if d != base {
      AboveTransitive(base, d, k);
      if d != "" {
        var a := d[|Slash(base)|..];
        assert Rest(base, k) == a + "/" + Rest(d, k);
        SplitConcat(a, Rest(d, k));
        forall c | c in Split(Rest(d, k)) ensures ValidName(c) {
          assert c in Split(Rest(base, k));
        }
      }
    }
    assert Seg(d, k) in Split(Rest(d, k));
  }

  /** Where the subtree at K would have k, if it were moved to N. */
  function Moved(K: string, N: string, k: string): string
    requires AtOrBelow(K, k)
  {
    N + k[|K|..]
  }
}
