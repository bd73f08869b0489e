/**
 Rename when no call of the client fails, as a function of the bucket it finds: how deep it calls itself, what it
 leaves and what it answers. Rename ends exactly if it calls itself only finitely deep.
 */
module S3Attempt {
  import opened Data
  import opened GoPath
  import opened S3Keys
  import opened S3Client
  import opened S3Status
  import opened S3Renaming
  import opened S3Ways
  import opened S3Onto

  /** What a call leaves, and its answer. */
  datatype Outcome = Outcome(objects: Objects, err: Option<Error>)

  /** The outcome of Rename, if it calls itself less than n deep. */
  ghost function Attempt(prefix: string, order: Order, oldName: string, newName: string, B: Objects,
                         n: nat): Option<Outcome>
    decreases n, 1, 0
  {
    var K, N := KeyOf(prefix, oldName), KeyOf(prefix, newName);
    if newName == oldName then Some(Outcome(B, None))
    else if !RootName(oldName) && !Seen(B, K) then Some(Outcome(B, Some(NotExist)))
    else if Refused(oldName, newName) then Some(Outcome(B, Some(Permission)))
    else if K in B && oldName != "." then
      Some(if K == N || N == "" then Outcome(B, Some(Invalid)) else Outcome(B[N := B[K]] - {K}, None))
    else if Parts(newName) == [] then Some(Outcome(B, Some(Exist)))
    else if MkdirError(prefix, newName, B).Some? then Some(Outcome(B, MkdirError(prefix, newName, B)))
    else if n == 0 then None
    else
      match AttemptSome(prefix, order, oldName, newName, B, |Read(order, B, K)|, n)
      case None => None
      case Some(o) => Some(if o.err.Some? then o else Outcome(o.objects - {Holder(K)} - {K}, None))
  }

  /** The outcome after the new directory is made and the first i entries are moved, or one of them failed. */
  ghost function AttemptSome(prefix: string, order: Order, oldName: string, newName: string, B: Objects, i: nat,
                             n: nat):
      Option<Outcome>
    requires i <= |Read(order, B, KeyOf(prefix, oldName))| && n > 0
    decreases n, 0, i
  {
    if i == 0 then Some(Outcome(B[Holder(KeyOf(prefix, newName)) := []], None))
    else
      match AttemptSome(prefix, order, oldName, newName, B, i - 1, n)
      case None => None
      case Some(o) =>
        var x := Read(order, B, KeyOf(prefix, oldName))[i - 1].name;
        if o.err.Some? then Some(o)
        else Attempt(prefix, order, PathJoin(oldName, x), PathJoin(newName, x), o.objects, n - 1)
  }

  /** Rename ends with the outcome o. */
  ghost predicate Tried(prefix: string, order: Order, oldName: string, newName: string, B: Objects, o: Outcome) {
    exists n: nat :: Attempt(prefix, order, oldName, newName, B, n) == Some(o)
  }

  /** The loop over the entries comes to the i-th, or has failed before, with the outcome o. */
  ghost predicate TriedSome(prefix: string, order: Order, oldName: string, newName: string, B: Objects, i: nat,
                            o: Outcome)
    requires i <= |Read(order, B, KeyOf(prefix, oldName))|
  {
    exists n: nat :: n > 0 && AttemptSome(prefix, order, oldName, newName, B, i, n) == Some(o)
  }

  /** Rename ends. */
  ghost predicate Ends(prefix: string, order: Order, oldName: string, newName: string, B: Objects) {
    exists o :: Tried(prefix, order, oldName, newName, B, o)
  }

  // ---------------------------------------------------------------- one outcome at most

  lemma {:induction false} Deeper(prefix: string, order: Order, oldName: string, newName: string, B: Objects, n: nat,
                                  m: nat)
    requires n <= m && Attempt(prefix, order, oldName, newName, B, n).Some?
    ensures Attempt(prefix, order, oldName, newName, B, m) == Attempt(prefix, order, oldName, newName, B, n)
    decreases n, 1, 0
  {
    hide Refused, Read, MkdirError, Parts, KeyOf, Holder, RootName;
    var K := KeyOf(prefix, oldName);
    if n > 0 && AttemptSome(prefix, order, oldName, newName, B, |Read(order, B, K)|, n).Some? {
      DeeperSome(prefix, order, oldName, newName, B, |Read(order, B, K)|, n, m);
    }
  }

  lemma {:induction false} DeeperSome(prefix: string, order: Order, oldName: string, newName: string, B: Objects,
                                      i: nat, n: nat, m: nat)
    requires i <= |Read(order, B, KeyOf(prefix, oldName))| && 0 < n <= m
    requires AttemptSome(prefix, order, oldName, newName, B, i, n).Some?
    ensures AttemptSome(prefix, order, oldName, newName, B, i, m) == AttemptSome(prefix, order, oldName, newName, B,
      i, n)
    decreases n, 0, i
  {
    hide Attempt, Read, KeyOf, Holder;
    if i > 0 {
      DeeperSome(prefix, order, oldName, newName, B, i - 1, n, m);
      var o := AttemptSome(prefix, order, oldName, newName, B, i - 1, n).value;
      var x := Read(order, B, KeyOf(prefix, oldName))[i - 1].name;
      if o.err.None? {
        Deeper(prefix, order, PathJoin(oldName, x), PathJoin(newName, x), o.objects, n - 1, m - 1);
      }
    }
  }

  /** A call has one outcome. */
  lemma TriedOnce(prefix: string, order: Order, oldName: string, newName: string, B: Objects, o: Outcome, o': Outcome)
    requires Tried(prefix, order, oldName, newName, B, o) && Tried(prefix, order, oldName, newName, B, o')
    ensures o == o'
  {
    hide Attempt;
    var n: nat :| Attempt(prefix, order, oldName, newName, B, n) == Some(o);
    var m: nat :| Attempt(prefix, order, oldName, newName, B, m) == Some(o');
    Deeper(prefix, order, oldName, newName, B, n, if n < m then m else n);
    Deeper(prefix, order, oldName, newName, B, m, if n < m then m else n);
  }

  lemma TriedSomeOnce(prefix: string, order: Order, oldName: string, newName: string, B: Objects, i: nat, o: Outcome,
                      o': Outcome)
    requires i <= |Read(order, B, KeyOf(prefix, oldName))|
    requires TriedSome(prefix, order, oldName, newName, B, i, o) && TriedSome(prefix, order, oldName, newName, B, i, o')
    ensures o == o'
  {
    hide AttemptSome, Read, KeyOf;
    var n: nat :| n > 0 && AttemptSome(prefix, order, oldName, newName, B, i, n) == Some(o);
    var m: nat :| m > 0 && AttemptSome(prefix, order, oldName, newName, B, i, m) == Some(o');
    DeeperSome(prefix, order, oldName, newName, B, i, n, if n < m then m else n);
    DeeperSome(prefix, order, oldName, newName, B, i, m, if n < m then m else n);
  }

  // ---------------------------------------------------------------- step by step

  /** Rename comes to make the new directory. */
  ghost predicate Makes(prefix: string, oldName: string, newName: string, B: Objects) {
    && !Refused(oldName, newName) && DirSource(oldName, B, KeyOf(prefix, oldName))
    && Parts(newName) != [] && MkdirError(prefix, newName, B).None?
  }

  /** A call that does not come to make a directory ends at once. */
  lemma TriedAtOnce(prefix: string, order: Order, oldName: string, newName: string, B: Objects)
    requires !Makes(prefix, oldName, newName, B)
    ensures Attempt(prefix, order, oldName, newName, B, 0).Some?
    ensures Ends(prefix, order, oldName, newName, B)
  {
    hide Read, MkdirError, Parts, KeyOf, Holder;
    assert Tried(prefix, order, oldName, newName, B, Attempt(prefix, order, oldName, newName, B, 0).value);
  }

  /** How a call can end at once. */
  lemma TriedNow(prefix: string, order: Order, oldName: string, newName: string, B: Objects, o: Outcome)
    requires var K, N := KeyOf(prefix, oldName), KeyOf(prefix, newName);
      if newName == oldName then o == Outcome(B, None)
      else if !RootName(oldName) && !Seen(B, K) then o == Outcome(B, Some(NotExist))
      else if Refused(oldName, newName) then o == Outcome(B, Some(Permission))
      else if K in B && oldName != "." then
        o == if K == N || N == "" then Outcome(B, Some(Invalid)) else Outcome(B[N := B[K]] - {K}, None)
      else o.objects == B && o.err.Some? && Made(prefix, newName, B, B, false, false, o.err)
    ensures Tried(prefix, order, oldName, newName, B, o)
  {
    hide Read, MkdirError, Parts, KeyOf, Holder, Refused;
    assert Attempt(prefix, order, oldName, newName, B, 0) == Some(o);
  }

  lemma TriedNoDir(prefix: string, order: Order, oldName: string, newName: string, B: Objects, e: Error)
    requires !Refused(oldName, newName) && DirSource(oldName, B, KeyOf(prefix, oldName))
    requires Made(prefix, newName, B, B, false, false, Some(e))
    ensures Tried(prefix, order, oldName, newName, B, Outcome(B, Some(e)))
  {
    hide MkdirError, Parts, KeyOf, Made;
    TriedNow(prefix, order, oldName, newName, B, Outcome(B, Some(e)));
  }

  lemma TriedStarts(prefix: string, order: Order, oldName: string, newName: string, B: Objects)
    ensures TriedSome(prefix, order, oldName, newName, B, 0, Outcome(B[Holder(KeyOf(prefix, newName)) := []], None))
  {
    hide Read, KeyOf, Holder;
    assert AttemptSome(prefix, order, oldName, newName, B, 0, 1)
        == Some(Outcome(B[Holder(KeyOf(prefix, newName)) := []], None));
  }

  /** One turn of the loop. */
  lemma TriedEntry(prefix: string, order: Order, oldName: string, newName: string, B: Objects, i: nat, B1: Objects,
                   o: Outcome)
    requires i < |Read(order, B, KeyOf(prefix, oldName))|
    requires TriedSome(prefix, order, oldName, newName, B, i, Outcome(B1, None))
    requires var x := Read(order, B, KeyOf(prefix, oldName))[i].name;
      Tried(prefix, order, PathJoin(oldName, x), PathJoin(newName, x), B1, o)
    ensures TriedSome(prefix, order, oldName, newName, B, i + 1, o)
  {
    hide Attempt, Read, KeyOf, Holder;
    var x := Read(order, B, KeyOf(prefix, oldName))[i].name;
    var n: nat :| n > 0 && AttemptSome(prefix, order, oldName, newName, B, i, n) == Some(Outcome(B1, None));
    var m: nat :| Attempt(prefix, order, PathJoin(oldName, x), PathJoin(newName, x), B1, m) == Some(o);
    var l := if n < m + 1 then m + 1 else n;
    DeeperSome(prefix, order, oldName, newName, B, i, n, l);
    Deeper(prefix, order, PathJoin(oldName, x), PathJoin(newName, x), B1, m, l - 1);
    assert AttemptSome(prefix, order, oldName, newName, B, i + 1, l) == Some(o);
  }

  lemma TriedSomeIs(prefix: string, order: Order, oldName: string, newName: string, B: Objects, i: nat, n: nat)
    requires i <= |Read(order, B, KeyOf(prefix, oldName))| && n > 0
    requires AttemptSome(prefix, order, oldName, newName, B, i, n).Some?
    ensures TriedSome(prefix, order, oldName, newName, B, i,
      AttemptSome(prefix, order, oldName, newName, B, i, n).value)
  {
  }

  /** What is reached later in the loop has been reached before; an error that is met stays. */
  lemma {:induction false} Reached(prefix: string, order: Order, oldName: string, newName: string, B: Objects, i: nat,
                                   j: nat, n: nat)
    requires i <= j <= |Read(order, B, KeyOf(prefix, oldName))| && n > 0
    requires AttemptSome(prefix, order, oldName, newName, B, j, n).Some?
    ensures AttemptSome(prefix, order, oldName, newName, B, i, n).Some?
    ensures AttemptSome(prefix, order, oldName, newName, B, i, n).value.err.Some? ==>
      AttemptSome(prefix, order, oldName, newName, B, j, n) == AttemptSome(prefix, order, oldName, newName, B, i, n)
    decreases j
  {
    hide Attempt, Read, KeyOf, Holder;
    if i < j {
      Reached(prefix, order, oldName, newName, B, i, j - 1, n);
    }
  }

  lemma SomeStep(prefix: string, order: Order, oldName: string, newName: string, B: Objects, i: nat, n: nat)
    requires i < |Read(order, B, KeyOf(prefix, oldName))| && n > 0
    requires AttemptSome(prefix, order, oldName, newName, B, i, n).Some?
    requires AttemptSome(prefix, order, oldName, newName, B, i, n).value.err.None?
    ensures var x := Read(order, B, KeyOf(prefix, oldName))[i].name;
      AttemptSome(prefix, order, oldName, newName, B, i + 1, n) ==
        Attempt(prefix, order, PathJoin(oldName, x), PathJoin(newName, x),
                AttemptSome(prefix, order, oldName, newName, B, i, n).value.objects, n - 1)
  {
    hide Attempt, Read, KeyOf, Holder;
  }

  /** A call that makes a directory has come through its loop when it ends, with the same answer. */
  lemma Loops(prefix: string, order: Order, oldName: string, newName: string, B: Objects, n: nat)
    requires Makes(prefix, oldName, newName, B)
    ensures Attempt(prefix, order, oldName, newName, B, n).Some? ==>
      && n > 0
      && AttemptSome(prefix, order, oldName, newName, B, |Read(order, B, KeyOf(prefix, oldName))|, n).Some?
      && AttemptSome(prefix, order, oldName, newName, B, |Read(order, B, KeyOf(prefix, oldName))|, n).value.err ==
         Attempt(prefix, order, oldName, newName, B, n).value.err
  {
    hide AttemptSome, Read, KeyOf, Holder, MkdirError, Parts;
    MakesIs(prefix, oldName, newName, B);
  }

  /** An error ends the loop. */
  lemma {:induction false} TriedBroken(prefix: string, order: Order, oldName: string, newName: string, B: Objects,
                                       i: nat, j: nat, o: Outcome)
    requires i <= j <= |Read(order, B, KeyOf(prefix, oldName))| && o.err.Some?
    requires TriedSome(prefix, order, oldName, newName, B, i, o)
    ensures TriedSome(prefix, order, oldName, newName, B, j, o)
    decreases j
  {
    hide Attempt, Read, KeyOf, Holder;
    if i < j {
      TriedBroken(prefix, order, oldName, newName, B, i, j - 1, o);
      var n: nat :| n > 0 && AttemptSome(prefix, order, oldName, newName, B, j - 1, n) == Some(o);
      assert AttemptSome(prefix, order, oldName, newName, B, j, n) == Some(o);
    }
  }

  /** The loop and the removal of the old holder. */
  lemma TriedEnds(prefix: string, order: Order, oldName: string, newName: string, B: Objects, o: Outcome)
    requires Makes(prefix, oldName, newName, B)
    requires TriedSome(prefix, order, oldName, newName, B, |Read(order, B, KeyOf(prefix, oldName))|, o)
    ensures var K := KeyOf(prefix, oldName);
      Tried(prefix, order, oldName, newName, B,
            if o.err.Some? then o else Outcome(o.objects - {Holder(K)} - {K}, None))
  {
    hide AttemptSome, Read, KeyOf, Holder, Refused, MkdirError, Parts;
    MakesIs(prefix, oldName, newName, B);
    var K := KeyOf(prefix, oldName);
    var n: nat :| n > 0 && AttemptSome(prefix, order, oldName, newName, B, |Read(order, B, K)|, n) == Some(o);
    assert Attempt(prefix, order, oldName, newName, B, n) ==
           Some(if o.err.Some? then o else Outcome(o.objects - {Holder(K)} - {K}, None));
  }

  // ---------------------------------------------------------------- Rename ends

  /** What is promised of a call that ends at once. */
  lemma DoneAtOnce(prefix: string, order: Order, oldName: string, newName: string, B: Objects) returns (o: Outcome)
    requires Renameable(prefix, oldName, newName, B) && !Makes(prefix, oldName, newName, B)
    ensures Tried(prefix, order, oldName, newName, B, o)
    ensures RenameDone(prefix, order, oldName, newName, B, o.objects, false, false, o.err)
  {
    hide RenameDone, Renameable, Read, MkdirError, Parts, KeyOf, Holder, Refused, Seen, RootName, MadeDir;
    var K := KeyOf(prefix, oldName);
    TriedAtOnce(prefix, order, oldName, newName, B);
    o := Attempt(prefix, order, oldName, newName, B, 0).value;
    RefusedIs(oldName, newName);
    SourceIs(oldName, B, K);
    if Refused(oldName, newName) {
      DoneRefused(prefix, order, oldName, newName, B, false, false, o.err);
      return;
    }
    NamesReady(prefix, oldName, newName, B);
    InSeen(B, K);
    if K in B && oldName != "." {
      DoneFile(prefix, order, oldName, newName, B, o.objects, false, false, o.err);
    } else if oldName != "." && !Seen(B, K) {
      DoneNothing(prefix, order, oldName, newName, B, false, false, o.err.value);
    } else {
      MkdirStops(prefix, newName, B, o);
      DoneNoDir(prefix, order, oldName, newName, B, B, false, false, o.err.value);
    }
  }

  lemma MkdirStops(prefix: string, newName: string, B: Objects, o: Outcome)
    requires if Parts(newName) == [] then o.err == Some(Exist) else
      MkdirError(prefix, newName, B).Some? && o.err == MkdirError(prefix, newName, B)
    ensures Made(prefix, newName, B, B, false, false, o.err)
  {
    hide Parts, KeyOf, Seen;
  }

  lemma MkdirMakes(prefix: string, newName: string, B: Objects)
    requires Parts(newName) != [] && MkdirError(prefix, newName, B).None?
    ensures Made(prefix, newName, B, B[Holder(KeyOf(prefix, newName)) := []], false, false, None)
  {
    hide Parts, KeyOf;
  }

  /** Rename ends, and as promised. */
  lemma {:induction false} Ending(prefix: string, order: Order, oldName: string, newName: string,
                                  B: Objects) returns (o: Outcome)
    requires Renameable(prefix, oldName, newName, B)
    ensures Tried(prefix, order, oldName, newName, B, o)
    ensures RenameDone(prefix, order, oldName, newName, B, o.objects, false, false, o.err)
    decreases Turns(oldName, newName, B, KeyOf(prefix, oldName), KeyOf(prefix, newName)),
      Levels(oldName, newName, B, KeyOf(prefix, oldName)), 1, 0
  {
    hide *;
    if !Makes(prefix, oldName, newName, B) {
      o := DoneAtOnce(prefix, order, oldName, newName, B);
    } else {
      MakesIs(prefix, oldName, newName, B);
      var K := KeyOf(prefix, oldName);
      var o1 := EndingSome(prefix, order, oldName, newName, B, |Read(order, B, K)|);
      TriedEnds(prefix, order, oldName, newName, B, o1);
      if o1.err.Some? {
        o := o1;
      } else {
        o := Outcome(o1.objects - {Holder(K)} - {K}, None);
        GoingEnds(prefix, order, oldName, newName, B, o1.objects, o.objects, false, false, false, false, None);
      }
    }
  }

  lemma MakesWhen(prefix: string, oldName: string, newName: string, B: Objects)
    requires !Refused(oldName, newName)
    ensures
      (DirSource(oldName, B, KeyOf(prefix, oldName)) && Parts(newName) != [] && MkdirError(prefix, newName, B).None? ==>
        && Makes(prefix, oldName, newName, B) && newName != oldName && !Seen(B, KeyOf(prefix, newName)))
  {
    RefusedIs(oldName, newName);
  }

  lemma MakesIs(prefix: string, oldName: string, newName: string, B: Objects)
    requires Makes(prefix, oldName, newName, B)
    ensures !Refused(oldName, newName) && newName != oldName && Parts(newName) != []
    ensures MkdirError(prefix, newName, B).None? && DirSource(oldName, B, KeyOf(prefix, oldName))
    ensures KeyOf(prefix, oldName) !in B || oldName == "."
  {
    RefusedIs(oldName, newName);
  }

  lemma {:induction false} EndingSome(prefix: string, order: Order, oldName: string, newName: string, B: Objects,
                                      i: nat) returns (o: Outcome)
    requires Renameable(prefix, oldName, newName, B) && Makes(prefix, oldName, newName, B)
    requires i <= |Read(order, B, KeyOf(prefix, oldName))|
    ensures TriedSome(prefix, order, oldName, newName, B, i, o)
    ensures o.err.None? ==> Going(prefix, order, oldName, newName, B, o.objects, i, false, false)
    ensures o.err.Some? ==> RenameDone(prefix, order, oldName, newName, B, o.objects, false, false, o.err)
    decreases Turns(oldName, newName, B, KeyOf(prefix, oldName), KeyOf(prefix, newName)),
      Levels(oldName, newName, B, KeyOf(prefix, oldName)), 0, i
  {
    hide *;
    MakesIs(prefix, oldName, newName, B);
    if i == 0 {
      o := Outcome(B[Holder(KeyOf(prefix, newName)) := []], None);
      TriedStarts(prefix, order, oldName, newName, B);
      MkdirMakes(prefix, newName, B);
      GoingStarts(prefix, order, oldName, newName, B, o.objects, false, false);
    } else {
      var o1 := EndingSome(prefix, order, oldName, newName, B, i - 1);
      if o1.err.Some? {
        o := o1;
        TriedBroken(prefix, order, oldName, newName, B, i - 1, i, o);
      } else {
        var x := Read(order, B, KeyOf(prefix, oldName))[i - 1].name;
        GoingNames(prefix, order, oldName, newName, B, o1.objects, i - 1, false, false);
        o := Ending(prefix, order, PathJoin(oldName, x), PathJoin(newName, x), o1.objects);
        TriedEntry(prefix, order, oldName, newName, B, i - 1, o1.objects, o) by {
          assert o1 == Outcome(o1.objects, None);
        }
        GoingEntry(prefix, order, oldName, newName, B, o1.objects, o.objects, i - 1, false, false, false, false, o.err);
      }
    }
  }
}
