/**
 The operations of the S3 file system, called one after another, against the tree of the reference.
 */
module S3Runs {
  import opened Data
  import opened GoPath
  import opened Tree
  import opened S3Keys
  import opened S3Client
  import opened S3Invariant
  import opened S3Status
  import opened S3Removal
  import opened S3Renaming
  import opened S3Onto
  import opened S3Fs
  import opened S3Tree
  import opened S3Refinement
  import W = S3Writer

  lemma AbsPlainTail(p: Path)
    requires ValidPath(p) && p != []
    ensures NoDotDot(Abs(p)) && Parts(Abs(p)) == p && PlainTail(Abs(p)) && !HasSuffix(Abs(p), "/")
  {
    hide NoDotDot, Parts, Clean, Last, Join, Split;
    PartsJoin(p);
    CleanNoDotDot(Abs(p));
    var s := CleanEnds(Abs(p));
    var c := p[|p| - 1];
    assert c[|c| - 1] in c;
    assert Abs(p) == s + c;
    LastIs(s, c);
  }

  /** The bytes of several writes, one after the other. */
  function Concat(slices: seq<Bytes>): Bytes {
    if slices == [] then [] else Concat(slices[..|slices| - 1]) + slices[|slices| - 1]
  }

  /** An open with O_CREATE, any number of writes and a Close: the placeholder, then everything written.
      Without a write there is no upload. */
  method WriteWhole(fs: Fs, name: string, slices: seq<Bytes>) returns (err: Option<Error>)
    requires PrefixOk(fs.prefix) && ValidKeys(BaseKey(fs.prefix), fs.client.objects)
    requires NoDotDot(name) && PlainTail(name) && !HasSuffix(name, "/") && (RootPrefix(fs.prefix) ==> Rooted(name))
    modifies fs.client
    ensures old(fs.client.faulted) ==> fs.client.faulted
    ensures old(fs.client.blind) ==> fs.client.blind
    ensures Parts(name) != []
    ensures !fs.client.faulted ==>
      fs.client.objects == if slices != [] && ParentSeen(fs.prefix, name, old(fs.client.objects))
                           then old(fs.client.objects)[KeyOf(fs.prefix, name) := Concat(slices)]
                             else old(fs.client.objects)
    ensures !fs.client.faulted ==> (err.None? <==> ParentSeen(fs.prefix, name, old(fs.client.objects)))
  {
    hide PlainTail, NoDotDot, KeyOf, Parts, ParentSeen, ValidKeys, PrefixOk, NameOk, GoPath.Dir, TrimRightSlashes;
    ParentName(fs.prefix, name);
    PlainDots();
    var r := fs.OpenFile(name, Flags(false, true, true));
    if r.Err? {
      return Some(r.error);
    }
    if slices == [] {
      return None;
    }
    var put := fs.client.PutObject(fs.Path(name), W.PLACEHOLDER);
    if put.Err? {
      return Some(put.error);
    }
    var data: Bytes := [];
    label Gathering:
    for i := 0 to |slices|
      invariant data == Concat(slices[..i])
      invariant unchanged@Gathering(fs.client)
    {
      data := data + slices[i];
      assert slices[..i + 1][..i] == slices[..i];
    }
    assert slices[..|slices|] == slices;
    put := fs.client.PutObject(fs.Path(name), data);
    err := if put.Err? then Some(put.error) else None;
  }

  /** Performing one operation, on the cleaned names of its paths. If no call of the client fails, it is
      right, keeping the bucket well kept and doing to its tree what the reference does, exactly if it is
      admissible; and it answers nil exactly when the reference does, if and only if it is truthful. */
  method Perform(fs: Fs, op: Op) returns (err: Option<Error>)
    requires PrefixOk(fs.prefix) && WellKept(BaseKey(fs.prefix), fs.client.objects) && Usable(op)
    modifies fs.client
    ensures old(fs.client.faulted) ==> fs.client.faulted
    ensures old(fs.client.blind) ==> fs.client.blind
    ensures !fs.client.faulted && !fs.client.blind ==>
      && Step(fs.prefix, fs.client.order, old(fs.client.objects), op, fs.client.objects)
      && (Right(fs.prefix, old(fs.client.objects), op, fs.client.objects) <==>
            Admissible(fs.prefix, fs.client.order, old(fs.client.objects), op))
      && ((err.None? <==> FaultOf(TreeOf(fs.prefix, old(fs.client.objects)), op) == None) <==>
            Truthful(fs.prefix, fs.client.order, old(fs.client.objects), op))
  {
    hide PlainTail, NoDotDot, KeyOf, Key, Parts, ParentSeen, ValidKeys, PrefixOk, Abs, WellKept, UserPath, NameOk,
      Removed, Refused, Seen, MkdirError, Right, Admissible, Truthful, TreeOf, FaultOf, RenameDone, Above, AtOrBelow,
      Rooted;
    ghost var prefix, order, B := fs.prefix, fs.client.order, fs.client.objects;
    KeptKeys(BaseKey(prefix), B);
    match op {
      case MkdirOp(p) =>
        UserValid(p);
        AbsName(prefix, p);
        err := fs.Mkdir(Abs(p));
        MkdirErrorIs(prefix, Abs(p), B);
      case WriteOp(p, data) =>
        UserValid(p);
        AbsName(prefix, p);
        AbsPlainTail(p);
        RootedAbs(p);
        err := WriteWhole(fs, Abs(p), [data]);
        assert [data][..0] == [] && Concat([data]) == data;
      case RenameOp(p, q) =>
        UserValid(p);
        UserValid(q);
        AbsName(prefix, p);
        AbsName(prefix, q);
        RootedAbs(p);
        RootedAbs(q);
        err := fs.Rename(Abs(p), Abs(q));
        assert RenameDone(prefix, order, Abs(p), Abs(q), B, fs.client.objects, fs.client.faulted, fs.client.blind, err);
      case RemoveOp(p) =>
        if p != [] { UserValid(p); }
        AbsName(prefix, p);
        RootedAbs(p);
        AbsIsRoot(p);
        err := fs.RemoveAll(Abs(p));
        if p != [] { NotHolderFile(prefix, B, p); }
    }
    if !fs.client.faulted && !fs.client.blind {
      StepRightIff(prefix, order, B, op, fs.client.objects);
      AnswerRightIff(prefix, order, B, op, fs.client.objects, err.None?);
    }
  }

  lemma AbsIsRoot(p: Path)
    requires ValidPath(p)
    ensures Abs(p) == "/" <==> p == []
  {
    if p != [] {
      JoinHead(p);
    }
  }

  lemma RootedAbs(p: Path)
    ensures Rooted(Abs(p)) && Abs([]) == "/"
  {
  }

  lemma MkdirErrorIs(prefix: string, name: string, B: Objects)
    requires Parts(name) != []
    ensures MkdirError(prefix, name, B).None? ==> !Seen(B, KeyOf(prefix, name))
  {
  }

  lemma NotHolderFile(prefix: string, B: Objects, p: Path)
    requires PrefixOk(prefix) && UserPath(p)
    ensures NoHolderFile(B, Key(prefix, p))
  {
    UserKey(prefix, p);
  }

  // ---------------------------------------------------------------- writers that do not finish

  function Put(B: Objects, K: string, v: Option<Bytes>): Objects {
    if v.Some? then B[K := v.value] else B
  }

  /** A file opened below a directory, where no directory is, keeps the bucket well kept at every moment
      of every run of its writer. */
  lemma WriterKeeps(prefix: string, B: Objects, p: Path, states: seq<W.State>, events: seq<W.Event>, i: nat)
    requires PrefixOk(prefix) && UserPath(p) && WellKept(BaseKey(prefix), B)
    requires HasDir(TreeOf(prefix, B), Parent(p)) && !HasDir(TreeOf(prefix, B), p)
    requires W.Run(states, events) && i < |states|
    requires states[0].before == if Key(prefix, p) in B then Some(B[Key(prefix, p)]) else None
    ensures var B' := Put(B, Key(prefix, p), states[i].visible);
      && WellKept(BaseKey(prefix), B')
      && (TreeOf(prefix, B') == TreeOf(prefix, B) ||
          (states[i].create && TreeOf(prefix, B') == TreeOf(prefix, B)[p := File(W.PLACEHOLDER)]) ||
          (states[i].writerClosed && TreeOf(prefix, B') == TreeOf(prefix, B)[p := File(states[i].written)]))
  {
    hide WellKept, TreeOf, Key, W.Run, UserPath;
    W.NeverPartial(states, events, i);
    var v := states[i].visible;
    var K := Key(prefix, p);
    if v == states[0].before {
      assert Put(B, K, v) == B;
    } else {
      WriteKeepsIff(prefix, B, p, v.value);
      WriteRefines(prefix, B, p, v.value);
    }
  }
}
