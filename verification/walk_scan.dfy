/**
 What a walk may visit, read flat: go through the sorted listing of what lies below the root, and leave out
 what an earlier answer of the callback has cut off.
 */
module WalkScan {
  import opened Data
  import opened GoPath
  import opened Tree
  import opened WalkOrder

  // ---------------------------------------------------------------- callbacks

  datatype Visit = Visit(name: string, isDir: bool, failed: bool)

  datatype Act = Continue | SkipDir | SkipAll | Fail(code: int)

  datatype WalkErr = Skip | Stop | Raised(code: int)

  /** A walk: what is called, the name it starts from, and the path of that name. The callback answers after all
      visits so far, so it may keep a state. */
  datatype Walker = Walker(fn: seq<Visit> -> Act, root: string, top: Path)

  /** An entry the callback has been told of, and its answer. */
  datatype Told = Told(entry: Entry, act: Act)

  /** The name the walk gives to what lies at rel below its root. */
  function NameAt(root: string, rel: Path): string
    decreases |rel|
  {
    if rel == [] then root else PathJoin(NameAt(root, Parent(rel)), rel[|rel| - 1])
  }

  function VisitOf(w: Walker, e: Entry): Visit {
    Visit(NameAt(w.root, if w.top <= e.path then e.path[|w.top|..] else []), e.isDir, e.failed)
  }

  function VisitsOf(w: Walker, V: seq<Told>): seq<Visit> {
    seq(|V|, i requires 0 <= i < |V| => VisitOf(w, V[i].entry))
  }

  /** What is answered for e, after the visits V. */
  function ActOf(w: Walker, V: seq<Told>, e: Entry): Act {
    w.fn(VisitsOf(w, V) + [VisitOf(w, e)])
  }

  function ErrOf(a: Act): Option<WalkErr> {
    match a
    case Continue => None
    case SkipDir => Some(Skip)
    case SkipAll => Some(Stop)
    case Fail(code) => Some(Raised(code))
  }

  // ---------------------------------------------------------------- the flat reading

  /** What the answer given for v cuts off: everything; what is below a directory; what is beside a
      file and after it. */
  predicate Cuts(v: Told, e: Entry) {
    match v.act
    case Continue => false
    case SkipDir =>
      if v.entry.isDir then !v.entry.failed && v.entry.path <= e.path
      else v.entry.path != [] && Parent(v.entry.path) <= e.path
    case SkipAll => true
    case Fail(_) => true
  }

  ghost predicate Cut(V: seq<Told>, e: Entry) {
    exists v :: v in V && Cuts(v, e)
  }

  /** Going through es in order, with V already visited. */
  ghost function Scan(w: Walker, V: seq<Told>, es: seq<Entry>): seq<Told>
    decreases |es|
  {
    if es == [] then V
    else if Cut(V, es[0]) then Scan(w, V, es[1..])
    else Scan(w, V + [Told(es[0], ActOf(w, V, es[0]))], es[1..])
  }

  lemma {:induction false} ScanConcat(w: Walker, V: seq<Told>, a: seq<Entry>, b: seq<Entry>)
    ensures Scan(w, V, a + b) == Scan(w, Scan(w, V, a), b)
    decreases |a|
  {
    hide ActOf;
    if a == [] {
      assert a + b == b;
    } else {
      assert (a + b)[0] == a[0] && (a + b)[1..] == a[1..] + b;
      ScanConcat(w, if Cut(V, a[0]) then V else V + [Told(a[0], ActOf(w, V, a[0]))], a[1..], b);
    }
  }

  lemma {:induction false} ScanCut(w: Walker, V: seq<Told>, es: seq<Entry>)
    requires forall e :: e in es ==> Cut(V, e)
    ensures Scan(w, V, es) == V
    decreases |es|
  {
    hide ActOf;
    if es != [] {
      assert es[0] in es;
      assert forall e :: e in es[1..] ==> e in es;
      ScanCut(w, V, es[1..]);
    }
  }

  lemma ScanOne(w: Walker, V: seq<Told>, e: Entry)
    requires !Cut(V, e)
    ensures Scan(w, V, [e]) == V + [Told(e, ActOf(w, V, e))]
  {
    hide ActOf;
    assert [e][1..] == [];
  }

  lemma CutMore(V: seq<Told>, U: seq<Told>, e: Entry)
    ensures Cut(V + U, e) <==> Cut(V, e) || Cut(U, e)
  {
  }

  predicate Final(a: Act) {
    a.SkipAll? || a.Fail?
  }

  /** The error WalkDir returns: none unless the last answer raised one. */
  function CodeOf(visited: seq<Told>): Option<int> {
    if visited != [] && visited[|visited| - 1].act.Fail? then Some(visited[|visited| - 1].act.code) else None
  }

  // ---------------------------------------------------------------- what the flat reading means

  lemma ScanNext(w: Walker, es: seq<Entry>, n: nat)
    requires n < |es|
    ensures var S := Scan(w, [], es[..n]);
      Scan(w, [], es[..n + 1]) == if Cut(S, es[n]) then S else S + [Told(es[n], ActOf(w, S, es[n]))]
  {
    hide ActOf;
    var S := Scan(w, [], es[..n]);
    assert es[..n + 1] == es[..n] + [es[n]];
    ScanConcat(w, [], es[..n], [es[n]]);
    assert [es[n]][1..] == [];
  }

  /** The answers are those of the callback after exactly the visits made by then. */
  lemma {:induction false} ScanAnswers(w: Walker, es: seq<Entry>, n: nat, i: nat)
    requires n <= |es| && i < |Scan(w, [], es[..n])|
    ensures var S := Scan(w, [], es[..n]); S[i].act == w.fn(VisitsOf(w, S[..i + 1]))
    decreases n
  {
    hide Scan, Cut;
    var S := Scan(w, [], es[..n]);
    ScanNone(w);
    assert es[..0] == [];
    if n > 0 {
      ScanNext(w, es, n - 1);
      var S1 := Scan(w, [], es[..n - 1]);
      if i < |S1| {
        ScanAnswers(w, es, n - 1, i);
        assert S[..i + 1] == S1[..i + 1];
      } else {
        assert S[..i + 1] == S1 + [S[i]];
        VisitsNext(w, S1, S[i]);
      }
    }
  }

  lemma ScanNone(w: Walker)
    ensures Scan(w, [], []) == []
  {
  }

  lemma VisitsNext(w: Walker, V: seq<Told>, v: Told)
    ensures VisitsOf(w, V + [v]) == VisitsOf(w, V) + [VisitOf(w, v.entry)]
  {
  }

  /** What is visited among the first n entries is what is visited before the n-th. */
  lemma {:induction false} ScanBefore(w: Walker, es: seq<Entry>, n: nat, m: nat, v: Told)
    requires Sorted(es) && n <= m <= |es| && n < |es|
    ensures v in Scan(w, [], es[..n]) <==> v in Scan(w, [], es[..m]) && Before(v.entry, es[n])
    ensures v in Scan(w, [], es[..m]) ==> v.entry in es[..m]
    decreases m
  {
    hide ActOf, Cut, Scan;
    if m == 0 {
      assert es[..0] == [];
      ScanNone(w);
    } else {
      ScanNext(w, es, m - 1);
      assert es[..m] == es[..m - 1] + [es[m - 1]];
      if n < m {
        ScanBefore(w, es, n, m - 1, v);
        if v.entry == es[m - 1] {
          if n < m - 1 { BeforeAsymmetric(es[n], es[m - 1]); } else { BeforeAsymmetric(es[n], es[n]); }
        }
        if n < m - 1 && v.entry == es[m - 1] {
          assert v.entry !in es[..m - 1] by {
            forall i | 0 <= i < m - 1 ensures es[i] != v.entry { BeforeAsymmetric(es[i], es[m - 1]); }
          }
        }
      } else {
        ScanBefore(w, es, m - 1, m - 1, v);
        assert Before(es[m - 1], es[n]);
        if v in Scan(w, [], es[..m]) && v.entry != es[m - 1] {
          ScanWithin(w, es, m - 1, v);
        }
      }
    }
  }

  lemma {:induction false} ScanWithin(w: Walker, es: seq<Entry>, n: nat, v: Told)
    requires n <= |es| && v in Scan(w, [], es[..n])
    ensures v.entry in es[..n]
    decreases n
  {
    hide ActOf, Cut, Scan;
    assert es[..0] == [];
    ScanNone(w);
    if n > 0 {
      ScanNext(w, es, n - 1);
      assert es[..n] == es[..n - 1] + [es[n - 1]];
      if v.entry != es[n - 1] { ScanWithin(w, es, n - 1, v); }
    }
  }

  ghost predicate Sees(V: seq<Told>, e: Entry) {
    exists v: Told :: v in V && v.entry == e
  }

  /** An entry is visited exactly when it is listed and no answer to an earlier visit cuts it off: none stopped the
      walk, none skipped a directory at or above it, and none a file in such a directory. */
  lemma ScanMember(w: Walker, es: seq<Entry>, e: Entry)
    requires Sorted(es)
    ensures Sees(Scan(w, [], es), e) <==>
      e in es && forall v :: v in Scan(w, [], es) && Before(v.entry, e) ==>
        && v.act != SkipAll && !v.act.Fail?
        && (v.act == SkipDir && v.entry.isDir && !v.entry.failed ==> !(v.entry.path <= e.path))
        && (v.act == SkipDir && !v.entry.isDir && v.entry.path != [] ==> !(Parent(v.entry.path) <= e.path))
  {
    ScanMemberCuts(w, es, e);
    hide Sees, Scan, Before;
  }

  lemma ScanMemberCuts(w: Walker, es: seq<Entry>, e: Entry)
    requires Sorted(es)
    ensures Sees(Scan(w, [], es), e) <==>
      e in es && forall v :: v in Scan(w, [], es) && Before(v.entry, e) ==> !Cuts(v, e)
  {
    hide Cuts, ActOf, Scan;
    assert es[..|es|] == es;
    if Sees(Scan(w, [], es), e) {
      var v :| v in Scan(w, [], es) && v.entry == e;
      ScanWithin(w, es, |es|, v);
    }
    if e in es {
      var n :| 0 <= n < |es| && es[n] == e;
      ScanNext(w, es, n);
      var S := Scan(w, [], es[..n]);
      forall v: Told ensures v in S <==> v in Scan(w, [], es) && Before(v.entry, e) {
        ScanBefore(w, es, n, |es|, v);
      }
      if !Cut(S, e) { assert Told(e, ActOf(w, S, e)) in Scan(w, [], es[..n + 1]); }
      ScanKeeps(w, es, n, e);
    }
  }

  /** Whether the n-th entry is visited is settled once it has been looked at. */
  lemma ScanKeeps(w: Walker, es: seq<Entry>, n: nat, e: Entry)
    requires Sorted(es) && n < |es| && es[n] == e
    ensures Sees(Scan(w, [], es), e) <==> Sees(Scan(w, [], es[..n + 1]), e)
    ensures !Sees(Scan(w, [], es[..n]), e)
  {
    hide ActOf, Scan;
    assert es[..|es|] == es;
    BeforeAsymmetric(e, e);
    forall v: Told | v.entry == e
      ensures v !in Scan(w, [], es[..n])
      ensures v in Scan(w, [], es) <==> v in Scan(w, [], es[..n + 1])
    {
      ScanBefore(w, es, n, n, v);
      if n + 1 < |es| {
        assert Before(es[n], es[n + 1]);
        ScanBefore(w, es, n + 1, |es|, v);
      } else {
        assert es[..n + 1] == es;
      }
    }
  }

  function Passed(es: seq<Entry>): seq<Told> {
    seq(|es|, i requires 0 <= i < |es| => Told(es[i], Continue))
  }

  /** A callback that goes on at everything listed sees all of it, once each and in order. */
  lemma {:induction false} ScanAll(w: Walker, V: seq<Told>, es: seq<Entry>)
    requires forall v :: v in V ==> v.act == Continue
    requires forall U, e :: e in es ==> ActOf(w, U, e) == Continue
    ensures Scan(w, V, es) == V + Passed(es)
    decreases |es|
  {
    hide ActOf;
    if es != [] {
      assert es[0] in es;
      assert !Cut(V, es[0]);
      assert forall e :: e in es[1..] ==> e in es;
      ScanAll(w, V + [Told(es[0], Continue)], es[1..]);
      assert V + [Told(es[0], Continue)] + Passed(es[1..]) == V + Passed(es);
    }
  }

  /** Nothing is visited after an answer that ends the walk. */
  lemma ScanEnds(w: Walker, es: seq<Entry>, v: Told, e: Entry)
    requires Sorted(es) && v in Scan(w, [], es) && Final(v.act) && Before(v.entry, e)
    ensures !Sees(Scan(w, [], es), e)
  {
    hide ActOf, Scan;
    ScanMember(w, es, e);
  }
}
