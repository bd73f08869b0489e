/**
 The S3 file system: a directory tree kept in a flat bucket.
 */
module S3Fs {
  import opened Data
  import opened GoPath
  import opened S3Keys
  import opened S3Client
  import opened S3Invariant
  import opened S3Moves
  import opened S3Status
  import opened S3Removal
  import opened S3Renaming
  import opened S3Ways
  import opened S3Onto
  import opened S3Attempt

  class Fs {
    const prefix: string
    const client: Client

    constructor (prefix: string, client: Client)
      ensures this.prefix == prefix && this.client == client
    {
      this.prefix := prefix;
      this.client := client;
    }

    function Path(name: string): (k: string)
      ensures k == KeyOf(prefix, name)
    {
      KeyOf(prefix, name)
    }

    method Stat(name: string) returns (r: Result<Info>)
      modifies client`faulted, client`blind
      ensures old(client.faulted) ==> client.faulted
      ensures old(client.blind) ==> client.blind
      ensures name == "/" || name == "." ==> r == Ok(DirInfo("/"))
      ensures name != "/" && name != "." ==>
        || r == Status(prefix, name, client.objects)
        || (client.faulted && r == Err(Failed))
        || (client.blind && client.faulted && Path(name) !in client.objects && r == Ok(DirInfo(Base(name))))
    {
      if name == "/" || name == "." {
        return Ok(DirInfo("/"));
      }
      var info := client.StatObject(Path(name));
      if info.Err? {
        if info.error == NotExist {
          r := StatDirectory(name);
          return;
        }
        return Err(info.error);
      }
      r := Ok(FileInfo(Base(name), info.value));
    }

    /** Any item of the listing, even its failure, is taken to mean that there is a directory. */
    method StatDirectory(name: string) returns (r: Result<Info>)
      modifies client`faulted, client`blind
      ensures old(client.faulted) ==> client.faulted
      ensures old(client.blind) ==> client.blind
      ensures || r == (if Seen(client.objects, Path(Clean(name))) then Ok(DirInfo(Base(name))) else Err(NotExist))
              || (client.blind && client.faulted && r == Ok(DirInfo(Base(name))))
    {
      var nameClean := Clean(name);
      var objects := client.ListObjects(Path(nameClean));
      ListingSeen(client.objects, Path(nameClean));
      if |objects| > 0 {
        assert objects[0] in objects;
        return Ok(DirInfo(Base(name)));
      }
      r := Err(NotExist);
    }

    /** file.Readdir. */
    method Readdir(name: string, n: int) returns (r: Result<seq<Info>>)
      requires PrefixOk(prefix) && NameOk(prefix, name)
      requires ValidKeys(BaseKey(prefix), client.objects)
      modifies client`faulted, client`blind
      ensures old(client.faulted) ==> client.faulted
      ensures old(client.blind) ==> client.blind
      ensures r.Err? ==> client.faulted && client.blind && r.error == Failed
      ensures r.Ok? ==> r.value == Cut(n, Read(client.order, client.objects, Path(name)))
      ensures r.Ok? ==> var all := Read(client.order, client.objects, Path(name));
        r.value <= all && (n <= 0 || |all| <= n + 1 ==> r.value == all) && (n > 0 && |all| > n ==> |r.value| == n + 1)
      ensures Lists(Read(client.order, client.objects, Path(name)), Children(client.objects, Path(name)))
    {
      hide *;
      CutIs(n, Read(client.order, client.objects, Path(name)));
      var key := TrimRoot(Path(name));
      DirectoryKey(prefix, name);
      ReadLists(BaseKey(prefix), client.order, client.objects, KeyOf(prefix, name));
      if key != "" && !HasSuffix(key, "/") {
        key := key + "/";
      }
      var objects := client.ListObjects(key);
      ghost var all := client.order(Listing(client.objects, key));
      BreaksIs(all, objects);
      ReadIs(client.order, client.objects, KeyOf(prefix, name));
      OrderLists(client.order, Listing(client.objects, key));
      AllEntries(client.objects, key, all);
      var infos: seq<Info> := [];
      var idx := 0;
      ghost var cut := false;
      assert objects[..0] == [];
      ShownNone();
      for i := 0 to |objects|
        invariant old(client.faulted) || objects != all ==> client.faulted
        invariant old(client.blind) || objects != all ==> client.blind
        invariant objects[..i] <= all && (n > 0 ==> idx <= n)
        invariant infos == Shown(objects[..i]) && idx == |infos| && !cut
      {
        var obj := objects[i];
        BrokenAt(all, objects, i);
        if obj.Broken? {
          return Err(Failed);
        }
        ShownNext(objects, i);
        if !HasSuffix(obj.key, DIR_HOLDER) {
          var fi := ToInfo(obj.key, obj.size);
          infos := infos + [fi];
          idx := idx + 1;
          if n > 0 && idx > n {
            cut := true;
            ReadCut(all, objects, i + 1, n);
            break;
          }
        }
      }
      if !cut {
        assert objects[..|objects|] == objects;
        ReadWhole(all, objects, n);
      }
      r := Ok(infos);
    }

    // -------------------------------------------------------------- opening

    method OpenDir(name: string) returns (r: Result<Handle>)
      requires PrefixOk(prefix) && (DirNameOk(prefix, name) || name == "/")
      requires ValidKeys(BaseKey(prefix), client.objects)
      modifies client
      ensures old(client.faulted) ==> client.faulted
      ensures old(client.blind) ==> client.blind
      ensures name == "/" ==> r == Ok(DirHandle(name)) && client.objects == old(client.objects)
      ensures name != "/" ==> var K := Key(prefix, Parts(name)); var B := old(client.objects); var B' := client.objects;
        && (B' == B || (!Seen(B, K) && B' == B[Holder(K) := []]))
        && (B' != B && !client.blind ==> ParentSeen(prefix, name, B))
        && (r.Ok? && !Seen(B, K) && !client.blind ==> B' == B[Holder(K) := []])
      ensures !client.faulted && name != "/" ==> r == OpenedDir(prefix, name, old(client.objects))
      ensures r.Ok? ==> r.value == DirHandle(name)
      ensures !client.faulted && name != "/" ==> var K := Key(prefix, Parts(name)); var B := old(client.objects);
        && (r.Ok? <==> (K in B ==> RootPrefix(prefix)) && (Seen(B, K) || ParentSeen(prefix, name, B)))
        && (r.Err? ==> r.error == if K in B && !RootPrefix(prefix) then Exist else NotExist)
      ensures !client.faulted && r.Err? ==> client.objects == old(client.objects)
    {
      hide KeyOf, Clean, Parts, NoDotDot, Key, Seen, Dir, TrimRightSlashes, PathJoin, Base, ValidKeys, PlainTail,
        NameOk, Status;
      if name != "/" {
        DirNameStatus(prefix, name, client.objects);
        ParentStatus(prefix, name, client.objects);
      }
      var dir := DirHandle(name);
      var info := Stat(name);
      if info.Err? {
        if info.error == NotExist {
          var parent := Dir(TrimRightSlashes(name));
          if parent != "/" {
            var p := Stat(parent);
            if p.Err? {
              return Err(p.error);
            }
          }
          var put := client.PutObject(Path(PathJoin(name, DIR_HOLDER)), []);
          if put.Err? {
            return Err(put.error);
          }
          return Ok(dir);
        }
        return Err(info.error);
      }
      if !info.value.DirInfo? {
        return Err(Exist);
      }
      r := Ok(dir);
    }

    method Mkdir(name: string) returns (err: Option<Error>)
      requires PrefixOk(prefix) && NameOk(prefix, name)
      requires ValidKeys(BaseKey(prefix), client.objects)
      requires Parts(name) != [] || name == "/" || name == "."
      modifies client
      ensures old(client.faulted) ==> client.faulted
      ensures old(client.blind) ==> client.blind
      ensures Parts(name) == [] ==> err == Some(Exist) && client.objects == old(client.objects)
      ensures Parts(name) != [] ==>
        var K := Path(name); var B := old(client.objects); var B' := client.objects;
        && (B' == B || (!Seen(B, K) && B' == B[Holder(K) := []]))
        && (B' != B && !client.blind ==> ParentSeen(prefix, name, B))
        && (err.None? && !Seen(B, K) && !client.blind ==> B' == B[Holder(K) := []])
      ensures !client.faulted && Parts(name) != [] ==> err == MkdirError(prefix, name, old(client.objects))
      ensures !client.faulted && err.Some? ==> client.objects == old(client.objects)
    {
      hide KeyOf, Clean, Parts, NoDotDot, Key, Seen, Base, ValidKeys, PlainTail, Status, NameOk;
      if Parts(name) != [] {
        NameStatus(prefix, name, client.objects);
        MkdirName(prefix, name);
        PlainDots();
      }
      var s := Stat(name);
      if s.Ok? {
        return Some(Exist);
      }
      var f := OpenDir(Clean(name) + "/");
      if f.Err? {
        return Some(f.error);
      }
      err := None;
    }

    method OpenFile(name: string, flags: Flags) returns (r: Result<Handle>)
      requires PrefixOk(prefix) && ValidKeys(BaseKey(prefix), client.objects)
      requires RootName(name) || (NoDotDot(name) && PlainTail(name) && (RootPrefix(prefix) ==> Rooted(name)))
      requires HasSuffix(name, "/") ==> DirNameOk(prefix, name) || name == "/"
      modifies client
      ensures old(client.faulted) ==> client.faulted
      ensures old(client.blind) ==> client.blind
      ensures !HasSuffix(name, "/") || flags.append || name == "/" ==> client.objects == old(client.objects)
      ensures Parts(name) != [] || RootName(name)
      ensures !client.faulted ==> r == Opened(prefix, name, flags, old(client.objects))
      ensures flags.append ==> r == Err(Permission)
      ensures name == "/" && !flags.append ==> r == Ok(DirHandle(name))
      ensures r.Ok? ==> r.value == if HasSuffix(name, "/") then DirHandle(name)
                                   else if flags.create || flags.wronly then WriteHandle(name, flags.create)
                                   else ReadHandle(name)
      ensures r.Err? && !flags.append && !client.faulted ==>
        r.error == if HasSuffix(name, "/") && Key(prefix, Parts(name)) in old(client.objects) && !RootPrefix(prefix)
                   then Exist else NotExist
      ensures HasSuffix(name, "/") && name != "/" && !flags.append && !client.faulted ==>
        var K := Key(prefix, Parts(name)); var B := old(client.objects);
        r.Ok? <==> (K in B ==> RootPrefix(prefix)) && (Seen(B, K) || ParentSeen(prefix, name, B))
      ensures !HasSuffix(name, "/") && (flags.create || flags.wronly) && !flags.append && !client.faulted ==>
        (r.Ok? <==> name == "." || ParentSeen(prefix, name, client.objects))
      ensures !HasSuffix(name, "/") && flags == Flags(false, false, false) && !client.faulted ==>
        (r.Ok? <==> name == "." || Path(name) in client.objects || Seen(client.objects, Path(Clean(name))))
    {
      hide KeyOf, Clean, Parts, NoDotDot, Key, Seen, ParentSeen, BaseKey, ValidKeys, PlainTail, Status, OpenedDir,
        DirNameOk;
      OpensAs(prefix, name, client.objects);
      if flags.append {
        return Err(Permission);
      }
      if HasSuffix(name, "/") {
        r := OpenDir(name);
        return;
      }
      if flags.create || flags.wronly {
        r := OpenFileForWrite(name, flags.create);
        return;
      }
      r := OpenFileForRead(name);
    }

    method OpenFileForWrite(name: string, create: bool) returns (r: Result<Handle>)
      requires PrefixOk(prefix)
      requires name == "." || (NoDotDot(name) && PlainTail(name) && (RootPrefix(prefix) ==> Rooted(name)))
      modifies client`faulted, client`blind
      ensures old(client.faulted) ==> client.faulted
      ensures old(client.blind) ==> client.blind
      ensures name == "." ==> r == Ok(WriteHandle(name, create))
      ensures Parts(name) != [] || name == "."
      ensures r.Ok? ==> r == Ok(WriteHandle(name, create))
      ensures r.Ok? && !client.blind && name != "." ==> ParentSeen(prefix, name, client.objects)
      ensures !client.faulted && name != "." ==>
        r == if ParentSeen(prefix, name, client.objects) then Ok(WriteHandle(name, create)) else Err(NotExist)
    {
      hide PlainTail, Status, Seen, Dir, NoDotDot, KeyOf, Base, Clean;
      if name != "." {
        ParentStatus(prefix, name, client.objects);
      } else {
        DotParent();
      }
      var parent := Dir(TrimRightSlashes(name));
      if parent != "/" {
        var p := Stat(parent);
        if p.Err? {
          return Err(p.error);
        }
      }
      r := Ok(WriteHandle(name, create));
    }

    method OpenFileForRead(name: string) returns (r: Result<Handle>)
      requires (Parts(name) != [] || name == ".") && !HasSuffix(name, "/")
      modifies client`faulted, client`blind
      ensures old(client.faulted) ==> client.faulted
      ensures old(client.blind) ==> client.blind
      ensures r.Ok? ==> r.value == ReadHandle(name)
      ensures r.Err? ==> r.error == NotExist || (client.faulted && r.error == Failed)
      ensures r.Ok? && !client.blind ==>
        name == "." || Path(name) in client.objects || Seen(client.objects, Path(Clean(name)))
      ensures !client.faulted ==>
        (r.Ok? <==> name == "." || Path(name) in client.objects || Seen(client.objects, Path(Clean(name))))
    {
      var s := Stat(name);
      if s.Err? {
        return Err(s.error);
      }
      var o := client.GetObject(Path(name));
      if o.Err? {
        return Err(o.error);
      }
      r := Ok(ReadHandle(name));
    }

    // -------------------------------------------------------------- removing

    method ForceRemove(name: string, isDir: bool) returns (err: Option<Error>)
      modifies client`objects, client`faulted
      ensures old(client.faulted) ==> client.faulted
      ensures err.Some? ==> client.faulted && err == Some(Failed)
      ensures var B := old(client.objects); var H := {Path(PathJoin(name, DIR_HOLDER))};
        if isDir then
          && (client.objects == B || client.objects == B - H || client.objects == B - H - {Path(name)})
          && (err.None? ==> client.objects == B - H - {Path(name)})
        else
          && (client.objects == B || client.objects == B - {Path(name)})
          && (err.None? ==> client.objects == B - {Path(name)})
    {
      if isDir {
        var r := client.RemoveObject(Path(PathJoin(name, DIR_HOLDER)));
        if r.Err? {
          return Some(r.error);
        }
      }
      var r := client.RemoveObject(Path(name));
      err := if r.Err? then Some(r.error) else None;
    }

    method RemoveAll(name: string) returns (err: Option<Error>)
      requires PrefixOk(prefix) && NameOk(prefix, name)
      requires ValidKeys(BaseKey(prefix), client.objects)
      modifies client
      decreases Below(client.objects, Path(name))
      ensures old(client.faulted) ==> client.faulted
      ensures old(client.blind) ==> client.blind
      ensures name == "/" ==> err == Some(Permission) && client.objects == old(client.objects)
      ensures name != "/" ==> (err.Some? ==> client.faulted)
      ensures name != "/" ==> Removed(prefix, old(client.objects), client.objects, Path(name), err.None?)
      ensures WellKept(BaseKey(prefix), old(client.objects)) && NoHolderFile(old(client.objects), Path(name))
        ==> WellKept(BaseKey(prefix), client.objects)
    {
      hide *;
      if name == "/" {
        return Some(Permission);
      }
      ghost var B, K, base := client.objects, KeyOf(prefix, name), BaseKey(prefix);
      NotRoot(prefix, name);
      ProperName(prefix, name);
      var r := Readdir(name, 0);
      NoLimit(Read(client.order, B, K));
      RemovingStarts(prefix, B, K);
      if r.Err? {
        RemovingStops(prefix, base, B, B, K, []);
        return Some(r.error);
      }
      var infos := r.value;
      for idx := 0 to |infos|
        invariant old(client.faulted) ==> client.faulted
        invariant old(client.blind) ==> client.blind
        invariant Removing(prefix, B, client.objects, K, infos[..idx])
        invariant WellKept(base, B) ==> WellKept(base, client.objects)
      {
        var fi := infos[idx];
        ghost var B1, gone := client.objects, infos[..idx];
        assert infos[..idx + 1] == gone + [fi];
        ListsMember(infos, Children(B, K), fi);
        RemovingFacts(prefix, base, B, B1, K, gone);
        EntryName(prefix, name, B, B1, fi);
        var fullPath := PathJoin(name, fi.name);
        NotSlash(fullPath);
        var e: Option<Error>;
        if fi.DirInfo? {
          if WellKept(base, B) {
            DirEntryNotFile(prefix, base, B, B1, K, gone, fi);
          }
          e := RemoveAll(fullPath);
          RemovingDir(prefix, base, B, B1, client.objects, K, gone, fi, e.None?);
        } else {
          e := ForceRemove(fullPath, false);
          RemovingFile(prefix, base, B, B1, client.objects, K, gone, fi);
        }
        if e.Some? {
          RemovingStops(prefix, base, B, client.objects, K, gone);
          return e;
        }
      }
      ghost var B1 := client.objects;
      assert infos[..|infos|] == infos;
      DirName(prefix, name);
      assert K + "" == K;
      err := ForceRemove(Clean(name) + "/", true);
      if RootPrefix(prefix) {
        SlashKeyAbsent(prefix, name, B);
      }
      RemovingEnds(prefix, base, B, B1, client.objects, K, infos, err.None?);
      if WellKept(base, B) && NoHolderFile(B, K) {
        RemovingEndsKept(prefix, base, B, B1, client.objects, K, infos);
      }
    }

    // -------------------------------------------------------------- moving

    method Rename(oldName: string, newName: string) returns (err: Option<Error>)
      requires Renameable(prefix, oldName, newName, client.objects)
      modifies client
      decreases Turns(oldName, newName, client.objects, Path(oldName), Path(newName)),
        Levels(oldName, newName, client.objects, Path(oldName)), 1
      ensures old(client.faulted) ==> client.faulted
      ensures old(client.blind) ==> client.blind
      ensures RenameDone(prefix, client.order, oldName, newName, old(client.objects), client.objects, client.faulted,
        client.blind, err)
      ensures !client.faulted && !client.blind ==>
        Tried(prefix, client.order, oldName, newName, old(client.objects), Outcome(client.objects, err))
    {
      hide *;
      ghost var B, K, order := client.objects, KeyOf(prefix, oldName), client.order;
      RefusedIs(oldName, newName);
      NamesOf(prefix, oldName, newName, B);
      if newName == oldName {
        DoneRefused(prefix, order, oldName, newName, B, client.faulted, client.blind, None);
        TriedNow(prefix, order, oldName, newName, B, Outcome(B, None));
        return None;
      }
      NameStatus(prefix, oldName, B);
      StatusOf(prefix, oldName, B);
      SourceIs(oldName, B, K);
      var info := Stat(oldName);
      if info.Err? {
        if !client.faulted {
          TriedNow(prefix, order, oldName, newName, B, Outcome(B, Some(info.error)));
        }
        if Refused(oldName, newName) {
          DoneRefused(prefix, order, oldName, newName, B, client.faulted, client.blind, Some(info.error));
        } else {
          DoneNothing(prefix, order, oldName, newName, B, client.faulted, client.blind, info.error);
        }
        return Some(info.error);
      }
      if oldName == "/" || oldName + "/" <= newName {
        if !client.faulted {
          TriedNow(prefix, order, oldName, newName, B, Outcome(B, Some(Permission)));
        }
        DoneRefused(prefix, order, oldName, newName, B, client.faulted, client.blind, Some(Permission));
        return Some(Permission);
      }
      NamesReady(prefix, oldName, newName, B);
      if info.value.DirInfo? {
        err := RenameDir(oldName, newName);
        return;
      }
      var c := client.CopyObject(Path(newName), Path(oldName));
      if c.Err? {
        err := Some(c.error);
        if !client.faulted {
          TriedNow(prefix, order, oldName, newName, B, Outcome(B, err));
        }
        DoneFile(prefix, order, oldName, newName, B, client.objects, client.faulted, client.blind, err);
        return;
      }
      err := ForceRemove(oldName, false);
      if !client.faulted {
        TriedNow(prefix, order, oldName, newName, B, Outcome(client.objects, None));
      }
      DoneFile(prefix, order, oldName, newName, B, client.objects, client.faulted, client.blind, err);
    }

    /** The branch of Rename for directories. */
    method RenameDir(oldName: string, newName: string) returns (err: Option<Error>)
      requires Renameable(prefix, oldName, newName, client.objects) && !Refused(oldName, newName)
      requires Path(oldName) !in client.objects || oldName == "."
      requires !client.faulted ==> DirSource(oldName, client.objects, Path(oldName))
      modifies client
      decreases Turns(oldName, newName, client.objects, Path(oldName), Path(newName)),
        Levels(oldName, newName, client.objects, Path(oldName)), 0
      ensures old(client.faulted) ==> client.faulted
      ensures old(client.blind) ==> client.blind
      ensures RenameDone(prefix, client.order, oldName, newName, old(client.objects), client.objects, client.faulted,
        client.blind, err)
      ensures !client.faulted && !client.blind ==>
        Tried(prefix, client.order, oldName, newName, old(client.objects), Outcome(client.objects, err))
    {
      hide *;
      ghost var B, K, order := client.objects, KeyOf(prefix, oldName), client.order;
      NamesReady(prefix, oldName, newName, B);
      var f := Readdir(oldName, 0);
      if f.Err? {
        DoneNothing(prefix, order, oldName, newName, B, client.faulted, client.blind, f.error);
        return Some(f.error);
      }
      NoLimit(Read(order, B, K));
      var infos := f.value;
      var e := Mkdir(newName);
      MadeIs(prefix, newName, B, client.objects, client.faulted, client.blind, e);
      if e.Some? {
        if !client.faulted && !client.blind {
          TriedNoDir(prefix, order, oldName, newName, B, e.value);
        }
        DoneNoDir(prefix, order, oldName, newName, B, client.objects, client.faulted, client.blind, e.value);
        return e;
      }
      GoingStarts(prefix, order, oldName, newName, B, client.objects, client.faulted, client.blind);
      MakesWhen(prefix, oldName, newName, B);
      TriedStarts(prefix, order, oldName, newName, B);
      for idx := 0 to |infos|
        invariant old(client.faulted) ==> client.faulted
        invariant old(client.blind) ==> client.blind
        invariant Going(prefix, order, oldName, newName, B, client.objects, idx, client.faulted, client.blind)
        invariant !client.faulted && !client.blind ==>
          && Makes(prefix, oldName, newName, B)
          && TriedSome(prefix, order, oldName, newName, B, idx, Outcome(client.objects, None))
      {
        ghost var B1, f1, b1 := client.objects, client.faulted, client.blind;
        var fi := infos[idx];
        GoingNames(prefix, order, oldName, newName, B, B1, idx, f1, b1);
        var fullPath := PathJoin(oldName, fi.name);
        var destFullPath := PathJoin(newName, fi.name);
        e := Rename(fullPath, destFullPath);
        GoingEntry(prefix, order, oldName, newName, B, B1, client.objects, idx, f1, b1, client.faulted,
                   client.blind, e);
        if !client.faulted && !client.blind {
          TriedEntry(prefix, order, oldName, newName, B, idx, B1, Outcome(client.objects, e));
          if e.Some? {
            TriedBroken(prefix, order, oldName, newName, B, idx + 1, |infos|, Outcome(client.objects, e));
            TriedEnds(prefix, order, oldName, newName, B, Outcome(client.objects, e));
          }
        }
        if e.Some? {
          return e;
        }
      }
      ghost var B1, f1, b1 := client.objects, client.faulted, client.blind;
      HolderName(prefix, oldName);
      err := ForceRemove(oldName, true);
      GoingEnds(prefix, order, oldName, newName, B, B1, client.objects, f1, b1, client.faulted, client.blind, err);
      if !client.faulted && !client.blind {
        TriedEnds(prefix, order, oldName, newName, B, Outcome(B1, None));
      }
    }
  }
}
