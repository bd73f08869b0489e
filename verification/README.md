# A verified model of UniFS

UniFS puts one hierarchical file-system interface over several back ends. This project models four parts
of it in Dafny and proves what they promise. Paths and line numbers below refer to the UniFS repository.

**The S3 file system** (`s3_*.dfy`). A directory tree is kept in a flat bucket: a directory is a `.fs_dir`
holder object, and everything else is listing by prefix. `S3Client.Client` is the bucket, a map from keys to
bytes, listed in some fixed but arbitrary order (`S3Client.Order`); each of its calls may fail, with or without
its effect, and leaves a mark (`faulted`, and `blind` when it was a listing). `S3Fs.Fs` has the operations, loop
by loop, with contracts on keys that hold for every bucket and every failure. `S3Tree.TreeOf` reads a bucket as a
tree, `S3Invariant.WellKept` is the data invariant (every directory above a key has its holder and is not an
object too), and `S3Refinement` proves when the answers and effects of the code are those of the reference tree
`Tree.Apply`: for each operation the exact condition under which a call is right (`Admissible`), and over every
run that the bucket follows the reference if and only if each call meets it. `S3Runs.Perform` puts the methods and
the tree together. Rename has its own chain: what moves of entries add up to (`S3Moves`, `S3Rename`), when the
move of a directory goes through (`S3Passes`), that no file is lost whatever fails (`S3Keeping`), the loop
(`S3Renaming`), targets above the source (`S3Onto`), targets below it that the guard does not see (`S3Ways`), how
deep it calls itself (`S3Attempt`), when it never ends (`S3Calm`, `S3Endless`) and the root as its source (`S3Root`).
`S3Examples` has the buckets on which the code fails. `S3Writer` is the concurrent writer as a step relation. The configured prefix may
be any: it may also be empty or "/", where keys are formed differently (`S3Keys.RootPrefix`).

**Tree algorithms** (`tree_fs.dfy`, `mkdir_all.dfy`, `walk*.dfy`, `sub_fs.dfy`, `tar*.dfy`). They run over
`TreeFs.Fs`, a file system that does exactly what `Tree` says, in which some nodes cannot be opened
(`denied`). `MkdirAll` scans its path backwards and recurses; `WalkDir` is proved against a flat reading (`WalkScan.Scan`): take
the sorted listing of everything below the root and leave out what earlier answers cut off. `Sub` simulates
the file system rooted at its directory. Tar export and import compose to a round trip.

**Raw XML values** (`raw_xml.dfy`). The lazy token reader with its chain of nested child readers gives the
depth-first flattening of its tree; the builder inverts it and stops at the matching end tag (well-nesting as
in section 3.1 of XML 1.0).

**Small state machines** (`webdav_file.dfy`, `multi_status.dfy`, `csi_volume.dfy`). The WebDAV ranged reader
(sections 14.1.2 and 15.5.17 of RFC 9110), the properties of a response grouped by status (section 14.22 of
RFC 4918), the CSI volume id.

`gopath.dfy` has `path.Clean`, `path.Join`, `path.Dir`, `path.Base` and the `strings` functions the code
uses, over plain strings.

## Where the code and its promise part

Each of these is a theorem here, where possible with the exact condition under which the code does what is
expected of it.

- `Stat` lists by a prefix without a trailing slash, so an absent name is found when an entry next to it has a
  longer name that starts with it, or when it is itself a beginning of `.fs_dir` in a directory other than
  the root (`S3Tree.Shadowed`). Stat is right if and only if there is no such neighbour (`StatAgrees`), and
  likewise `Mkdir` (`MkdirAgrees`). `ShadowExample` has a bucket.
- `Rename` of a file asks nothing about the target. It answers nil for every other target that is not refused, a place
  below the file itself included (`FileMoved`, `FileIntoItself`), and keeps the bucket well kept if and only if the target's parent is a directory and the target
  is not one (`RenameKeepsIff`); moved onto a directory, or below a missing or file parent, it spoils the bucket
  (`RenameFileExample`). Over another file it is right.
- `Rename` of a directory makes the new one by `Mkdir`, so below a parent that is a file or a shadow it spoils the
  bucket (`RenameDirKeepsIff`). Each subdirectory is made in the same way, and `Mkdir` refuses a name that something
  already at the new place starts with: the holder or an entry moved before (`S3Passes.EntrySeen`). So the answer
  depends on the order of the listing: it is nil if and only if no directory below the source comes after a
  neighbour with a longer name that starts with its own, and none has a name that is a beginning of `.fs_dir`
  (`S3Passes.Goes`). Otherwise Rename stops half-way, with both directories there (`HalfWayExample`: never to be
  moved; `OrderExample`: only if `d` is listed before `d.zip`). With no such neighbours the move goes through in
  every order (`TreeClearGoes`).
- Whatever call fails, a listing included, a move to a place where nothing is loses no file: each is at its old or
  at its new key (`S3Keeping.FilesKept`). While no listing fails and no name is shadowed, no holder is lost either
  (`S3Moves.Conserved`).
- The guard of `Rename` against moving a directory into itself compares strings. For cleaned names it refuses the
  targets at or below the source exactly if both names start at the root or both do not (`RefusedExactly`). In another
  spelling a directory is moved into itself, with the answer nil, and its holder is gone (`GuardExample`,
  `IntoItself`).
- If one name starts at the root and the other does not, the guard never sees a target below the source. Rename ends
  all the same, whatever calls fail, if the source is a file, if the target is one of its own entries, or if no
  directory leads to the target (`S3Renaming.Bounded`). Otherwise, with no failing call, it never answers nil
  (`NeverNil`): a call that makes its directory ends exactly if an entry listed before the way to the target fails or
  the call for the way ends, and that call is in the same situation (`ChaseStep`). For a target below a directory,
  and with no names below the source that start with one another, Rename ends if and only if Stat finds the target or
  the target is an entry of the source (`EndsIff`); else it calls itself for ever (`NeverEnds`, `EndlessExample`).
- `Rename` refuses the root as "/" for every target, as "" for targets that start at the root, and by its other names
  not at all (`RootRefused`). As "." or "//", with a prefix, the root moves into its own new entry: everything is then
  below that entry, and the answer is nil (`RootMoved`, `RootExample`). To a place further down it may never end
  (`EndsIff`, `RootEndless`).
- A name with ".." can lead out of the prefix: with the prefix `p`, the name `../x` has the key `x` (`KeyOutside`). The
  key stays at or below the prefix if and only if the name leads to it or below it (`KeyStaysIff`).
- Calls can answer nil where they should not, and the other way round; `S3Refinement.Truthful` is the exact condition
  for an answer to be nil when it should (`AnswerRightIff`).
- With an empty or "/" prefix, `RemoveAll` of a file removes the key `a/` instead of `a` and answers nil; the file
  stays (`RemoveRefines`, `RemoveAllMissesFile`, `RemoveAllExample`). Files in directories below the one
  removed are removed.
- `RemoveAll` refuses the root only when it is called "/": with a prefix, as "." or "//", it is emptied
  (`RemoveRootEmpties`).
- `MkdirAll` looks at the beginnings of its path from the longest down, and makes those after the first that is there:
  for `x/../a` with an `a` there, `x` is not made (`MkdirAll`).
- For a directory that is not clean, or ".", `Sub` does not shorten the paths in errors (`ShortenUndoes`).
- `OpenFile` to read finds shadowed names as Stat does, and to write asks only whether something is seen of the parent:
  below a file it gives a handle (`OpenAgrees`). Under an empty or "/" prefix a file opened with a trailing slash is
  taken for a directory.
- `Readdir` with a limit n gives up to n + 1 entries (`S3Status.Cut`).
- `Mkdir` and writing do not ask whether the parent is a directory: under a file they succeed and break the
  invariant. They keep it if and only if the parent is a directory (`MkdirKeepsIff`, `WriteKeepsIff`).
- A listing that fails is taken by `statDirectory` for a directory that exists. The theorems about `Rename`
  and `Mkdir` say what follows when that has not happened (`blind` is false).
- Export passes over a base that is not there, and over directories that cannot be read, without an error; a file
  that cannot be opened ends it (`ExportAsTar`).
- `DecodeProp` of several properties looks up the first and returns.
- After seeking to position 0 the WebDAV reader asks for the bytes 0 to 0: of a longer file it then gives at
  most one byte and never the end (`OneByteAfterSeekToZero`). A seek after the first read moves the position
  and not the body (`BodyInOrder`). `AsksForRest` is the exact condition for a first request to be right.

## Model

| member | source | states |
|---|---|---|
| Tree.MoveIsExact | pkg/filesystem/testutil/test_full_fs.go:92-131 | The reference: a move takes the subtree as it is to its new place, leaves nothing at the old one and touches nothing else. |
| Tree.ApplyKeeps | pkg/filesystem/testutil/test_full_fs.go:41-170 | The reference: every operation on valid paths keeps everything above a node a directory. |
| Tree.FaultKeeps | pkg/filesystem/testutil/test_full_fs.go:41-170 | The reference: an operation that answers an error changes nothing. |
| GoPath.CleanNoDotDot | pkg/filesystem/s3/fs.go:36 | Cleaning a name without ".." keeps the path it denotes and gives the one spelling of that path. |
| GoPath.DirSplits | pkg/filesystem/s3/file.go:30 | path.Dir of a name drops exactly its last component. |
| S3Keys.KeyOfName | pkg/filesystem/s3/fs.go:189-194 | The key of a name depends on the path it denotes alone: the components of the prefix, then those of the path, joined. |
| S3Keys.NameChild | pkg/filesystem/s3/fs.go:155 | Joining an entry's name to its directory's gives the name whose key is the directory's, a slash, and the entry. |
| S3Keys.ParentName | pkg/filesystem/s3/file.go:30 | The parent that openDir and openFileForWrite look for is the parent of the path, and it is the root exactly for one component. |
| S3Moves.KeyStaysIff | pkg/filesystem/s3/fs.go:189-194 | With ".." in the name: the key is at or below the prefix if and only if the name leads to the prefix or below it. |
| S3Moves.KeyOutside | pkg/filesystem/s3/fs.go:189-194 | With the prefix p the name ../x has the key x. |
| S3Keys.SegIsChild | pkg/filesystem/s3/file.go:157-209 | The common prefix a key is listed under names the entry of the directory the key is at or below. |
| S3Client.Client.PutObject | pkg/filesystem/s3/file.go:36 | The put of the object store: on success exactly this key has exactly these bytes; a failure is marked, and the put happened or not. |
| S3Client.Client.ListObjects | pkg/filesystem/s3/file.go:167-169 | Listing with delimiter "/": each direct key and each common prefix once, in the order of the client, whatever that is, unless the listing breaks off. |
| S3Client.ListingSeen | pkg/filesystem/s3/fs.go:228-235 | A listing by prefix has an item exactly when some key starts with the prefix. |
| S3Invariant.PutHolderKeeps | pkg/filesystem/s3/file.go:36 | Putting a holder below a directory, where no key starts like the new one, keeps the bucket well kept. |
| S3Invariant.PutFileKeeps | pkg/filesystem/s3/file.go:270 | Putting an object below a directory where no directory is keeps the bucket well kept. |
| S3Invariant.RemoveFileKeeps | pkg/filesystem/s3/fs.go:184-186 | Removing an object that is no holder keeps the bucket well kept. |
| S3Invariant.RemoveHolderKeeps | pkg/filesystem/s3/fs.go:175-182 | Removing a holder with nothing else left below its directory keeps the bucket well kept. |
| S3Moves.MoveEntry | pkg/filesystem/s3/fs.go:109-115 | In the middle of a directory move, moving one more entry exactly gives the state with that entry moved too. |
| S3Moves.MoveEnds | pkg/filesystem/s3/fs.go:109-117 | With every listed entry moved and the old holder removed, the move is exact: each key old/s is at new/s, none is left, no other key changed. |
| S3Moves.BrokenEntryConserves | pkg/filesystem/s3/fs.go:109-115 | When the move of one entry breaks off, no object of the whole subtree is lost. |
| S3Removal.RemovingDir | pkg/filesystem/s3/fs.go:154-166 | Removing a directory among the entries removes everything below it and nothing outside. |
| S3Removal.RemovingEnds | pkg/filesystem/s3/fs.go:154-170 | With all entries and the holder removed nothing at or below the name is left (but files that look like holders), and nothing else changed. |
| S3Removal.RemovingEndsKept | pkg/filesystem/s3/fs.go:138-173 | RemoveAll keeps the bucket well kept. |
| S3Rename.EntryMovable | pkg/filesystem/s3/fs.go:109-115 | The recursive move of an entry meets every condition that the whole move met, although the bucket has changed since it was listed. |
| S3Passes.EntrySeen | pkg/filesystem/s3/fs.go:105-115 | In the middle of a move, Mkdir of an entry at the new place finds something there if and only if its name is a beginning of the holder's or of the name of an entry moved before. |
| S3Passes.GoesIs | pkg/filesystem/s3/fs.go:109-115 | All entries of a directory can be moved if and only if none leads to the target and no directory below is blocked, in the order in which directories are listed. |
| S3Passes.ClearPasses | pkg/filesystem/s3/fs.go:105-115 | With no directory below the source next to a longer name that starts with its own, nothing is blocked in any order. |
| S3Keeping.UnderwayEntry | pkg/filesystem/s3/fs.go:109-115 | Whatever call has failed before, an entry not yet tried is as it was, and there is room for it at the new place. |
| S3Keeping.UnderwayNext | pkg/filesystem/s3/fs.go:109-115 | One more entry tried, whatever call fails: no file is lost, and the entries after it are as they were. |
| S3Renaming.RefusedExactly | pkg/filesystem/s3/fs.go:74-91 | Of cleaned names exactly those are refused whose target is at or below the source and that both start at the root, or both do not. |
| S3Renaming.MovingEntry | pkg/filesystem/s3/fs.go:109-115 | One turn of the loop of Rename, with or without failing calls, keeps what the loop has established; an error ends it with what Rename promises. |
| S3Renaming.MovingEnds | pkg/filesystem/s3/fs.go:109-117 | The loop and the final removal of the holder give all that Rename promises. |
| S3Onto.OntoEntry | pkg/filesystem/s3/fs.go:109-115 | The same for a target that is the source in another spelling or above it, which a directory only gets to when a call has failed: nothing outside the target changes. |
| S3Ways.AtWay | pkg/filesystem/s3/fs.go:109-115 | What the loop finds when it comes to an entry that leads to the target: a file, or the target itself, and then nothing new where the next call would lead. |
| S3Ways.WayCall | pkg/filesystem/s3/fs.go:109-115 | The call for such an entry is again sure to end and has less to do. |
| S3Ways.MovingWay | pkg/filesystem/s3/fs.go:109-115 | One turn of the loop for such an entry, with or without failing calls, keeps what the loop has established. |
| S3Attempt.TriedOnce | pkg/filesystem/s3/fs.go:73-136 | With no failing call a call of Rename has at most one outcome, however deep it is let call itself. |
| S3Attempt.Ending | pkg/filesystem/s3/fs.go:73-136 | With no failing call every call that is sure to end has an outcome, and it is what Rename promises. |
| S3Calm.CalmGoes | pkg/filesystem/s3/fs.go:105-115 | Of a directory moved below itself, in which names start with one another on the way at most, every entry before the way is moved. |
| S3Calm.CalmNext | pkg/filesystem/s3/fs.go:105-115 | In the changed bucket the same holds for the call for the way. |
| S3Fs.Fs.Stat | pkg/filesystem/s3/fs.go:196-223 | The size of the object, else a directory if some key starts with the key, else not-exist; or an error or a made-up directory if a call failed. |
| S3Fs.Fs.StatDirectory | pkg/filesystem/s3/fs.go:225-242 | A directory exactly if some key starts with the key, unless the listing failed, which also reads as a directory. |
| S3Fs.Fs.Readdir | pkg/filesystem/s3/file.go:157-209 | The children of the directory exactly once each, with kind and size, in the order of the listing, holders never, for every bucket with clean keys; with a limit n > 0 the first n + 1 of them; an error only if the listing failed. |
| S3Fs.Fs.OpenDir | pkg/filesystem/s3/file.go:24-53 | The bucket changes only by the holder of a directory that nothing was seen of and whose parent is seen. When no call fails: Exist for a file (but under an empty or "/" prefix, where its key does not end in "/"), else the handle if and only if something is seen of the directory or its parent, else not-exist. |
| S3Fs.Fs.Mkdir | pkg/filesystem/s3/fs.go:28-42 | Exist, not-exist for the parent, or the bucket with exactly one holder more; an error leaves the bucket as it was when no call fails. |
| S3Fs.Fs.OpenFile | pkg/filesystem/s3/fs.go:44-71 | When no call fails: appending is refused; to read, the handle if and only if there is an object or some key starts with the key; to write, if and only if the parent is seen; with a trailing slash as OpenDir; "/" and "." always; all else is not-exist. Opening files does not change the bucket. |
| S3Fs.Fs.OpenFileForWrite | pkg/filesystem/s3/file.go:57-89 | A write handle if and only if the parent is the root or Stat finds it, when no call fails. |
| S3Fs.Fs.OpenFileForRead | pkg/filesystem/s3/file.go:91-121 | A read handle if and only if there is an object with the key or some key starts with it, and not-exist otherwise, when no call fails; when one fails no other handle, and none for an absent name but after a failed listing. |
| S3Fs.Fs.ForceRemove | pkg/filesystem/s3/fs.go:175-187 | Only the key, and for directories its holder, can go; both are gone when it answers nil. |
| S3Fs.Fs.RemoveAll | pkg/filesystem/s3/fs.go:138-173 | It terminates; nothing outside the name changes; on nil nothing at or below it is left but look-alike holders; the root is refused as "/" only; a well-kept bucket stays so even when calls fail. |
| S3Fs.Fs.Rename | pkg/filesystem/s3/fs.go:73-136 | For every target, the root as source included: if the guard sees the target, or the source is a file, or the target is one of its entries, or no directory leads there (`Bounded`), it terminates whatever calls fail, although it changes the bucket it walks. With no failing call its outcome is the one of `S3Attempt.Attempt`, and the answer and when it is nil are exact (`Answered`); on nil the move is exact, holders included; of a move to a free place no failing call loses a file, and of an unshadowed one no failing call but a listing loses any object; refused names change nothing; below a directory parent a well-kept bucket stays so. |
| S3Tree.TreeAt | pkg/filesystem/s3/file.go:184-198 | A path is in the tree of a well-kept bucket exactly if it has an object or a holder, and with those bytes. |
| S3Tree.TreeWellFormed | pkg/filesystem/s3/fs.go:28-187 | The tree of a well-kept bucket is well formed: everything above a node is a directory. |
| S3Tree.SeenIff | pkg/filesystem/s3/fs.go:225-242 | Some key starts with the key of a path if and only if the path is in the tree or shadowed by a longer neighbour. |
| S3Refinement.StatAgrees | pkg/filesystem/s3/fs.go:196-242 | Stat answers file, directory or not-exist as the tree does if and only if the name is not shadowed. |
| S3Refinement.BaseIsLast | pkg/filesystem/s3/fs.go:218-222 | The name that Stat reports is the last component of the path, if the name asked for does not end in "." or "..". |
| S3Refinement.OpenAgrees | pkg/filesystem/s3/fs.go:44-71 | OpenFile answers as the tree does if and only if, to read, the name is not shadowed; to write, the parent is neither a file nor a shadow; with a trailing slash, the same where the name is absent, and it is no file under an empty or "/" prefix. |
| S3Refinement.ParentAgrees | pkg/filesystem/s3/file.go:57-62 | The test for the parent succeeds if and only if the parent is a directory, a file, or shadowed. |
| S3Refinement.MkdirAgrees | pkg/filesystem/s3/fs.go:28-42 | Mkdir answers as the tree does if and only if the name is not shadowed and, where it matters, the parent is neither a file nor shadowed. |
| S3Refinement.ReaddirAgrees | pkg/filesystem/s3/file.go:157-209 | What Readdir shows of a directory are its children in the tree, with the right kind and size, and nothing else. |
| S3Refinement.MkdirRefines | pkg/filesystem/s3/fs.go:28-42 | A new holder is a new directory in the tree and nothing else. |
| S3Refinement.MkdirKeepsIff | pkg/filesystem/s3/file.go:24-53 | A new holder keeps the bucket well kept if and only if the parent is a directory. |
| S3Refinement.WriteRefines | pkg/filesystem/s3/file.go:227-276 | A stored object is a file in the tree and nothing else. |
| S3Refinement.WriteKeepsIff | pkg/filesystem/s3/file.go:57-89 | Writing keeps the bucket well kept if and only if the parent is a directory and the name is not. |
| S3Refinement.RemoveRefines | pkg/filesystem/s3/fs.go:138-173 | RemoveAll takes exactly the subtree away if and only if it is not asked for a file under an empty or "/" prefix; then nothing changes. |
| S3Refinement.RenameRefines | pkg/filesystem/s3/fs.go:73-136 | An exact move of keys is a move of the subtree. |
| S3Refinement.RenameKeepsIff | pkg/filesystem/s3/fs.go:120-135 | Moving a file to any other place, below itself too, keeps the bucket well kept if and only if the target's parent is a directory and the target is not one, and then it is the move of the reference, over another file too. |
| S3Refinement.RenameDirKeepsIff | pkg/filesystem/s3/fs.go:93-118 | Rename of what is no file keeps the bucket well kept if and only if it does nothing or the target's parent is not a file or a shadow. |
| S3Refinement.TreeClearGoes | pkg/filesystem/s3/fs.go:93-118 | A directory with no longer-named neighbours in it can be moved whatever the order of listing. |
| S3Refinement.StepRightIff | pkg/filesystem/s3/fs.go:28-187 | A call with no failing call of the client does to the tree what the reference does, and keeps the bucket well kept, if and only if it is admissible. |
| S3Refinement.AnswerRightIff | pkg/filesystem/s3/fs.go:28-187 | A call with no failing call of the client answers nil exactly when the reference does, if and only if it is truthful. |
| S3Refinement.RunFollowsIff | pkg/filesystem/s3/fs.go:28-187 | Over every run from a well-kept bucket: the bucket stays well kept and its tree is that of the reference at every moment, if and only if each call is admissible where it is made. |
| S3Refinement.EmptyBucket | pkg/filesystem/s3/fs.go:20-26 | Runs can start: an empty bucket is well kept and its tree is empty. |
| S3Refinement.RemoveAllMissesFile | pkg/filesystem/s3/fs.go:168 | The key RemoveAll asks to remove is the key of the name if and only if the prefix is neither empty nor "/". |
| S3Refinement.RemoveRootEmpties | pkg/filesystem/s3/fs.go:139-147 | RemoveAll of the root by another name than "/" leaves the empty tree. |
| S3Endless.NeverNil | pkg/filesystem/s3/fs.go:83-118 | Rename of a directory to a place at least two names below it that the guard does not see, through a directory and past no file, never answers nil. |
| S3Endless.ChaseStep | pkg/filesystem/s3/fs.go:93-118 | Such a call ends if and only if an entry before the way fails or the call for the way ends; that call is of the same kind. |
| S3Endless.NeverEnds | pkg/filesystem/s3/fs.go:93-118 | In a well-kept bucket, the target absent and below a directory and no name in the way, it has not ended however deep it has called itself, in every order of listing. |
| S3Endless.EndsIff | pkg/filesystem/s3/fs.go:83-118 | A directory, or the root, moved below itself by names of which only one starts at the root, to a place below a directory, with no names in it that start with one another: Rename ends if and only if Stat finds the target or it is a direct entry of the source. |
| S3Root.RootRefused | pkg/filesystem/s3/fs.go:83-84 | Of the names of the root "/" is refused for every cleaned target, "" for those that start at the root, and no other, but for the same name. |
| S3Root.RootKept | pkg/filesystem/s3/fs.go:93-118 | The bucket is well kept after everything below the prefix has been moved into one new directory. |
| S3Root.RootGrafts | pkg/filesystem/s3/fs.go:93-118 | Its tree is then the old tree below the new directory, and nothing else. |
| S3Root.RootMoved | pkg/filesystem/s3/fs.go:83-118 | Rename of the root, by a name that is not refused, to a new place in it: nil if and only if no entry is blocked, always so if no name starts with another, and then the tree is the old one below the new directory. |
| S3Examples.ShadowExample | pkg/filesystem/s3/fs.go:225-242 | A bucket with the one directory /dx, in which Stat finds /d. |
| S3Examples.FileMoved | pkg/filesystem/s3/fs.go:120-135 | Rename of a file answers nil for every other place that is not refused, below the file too; the bucket stays well kept if and only if the place is below a directory and is none. |
| S3Examples.FileIntoItself | pkg/filesystem/s3/fs.go:83-135 | Rename of the file a to /a/b answers nil and spoils the bucket. |
| S3Examples.RenameFileExample | pkg/filesystem/s3/fs.go:120-135 | A bucket with a file and a directory: moving the file onto the directory, or below a missing one, answers nil and spoils it. |
| S3Examples.HolderBlocks | pkg/filesystem/s3/fs.go:105-115 | A directory with a subdirectory whose name is a beginning of ".fs_dir" cannot be moved anywhere. |
| S3Examples.Stuck | pkg/filesystem/s3/fs.go:93-118 | A directory moved to a free place below a directory: the answer is nil if and only if nothing is blocked, and otherwise both directories are there. |
| S3Examples.HalfWayExample | pkg/filesystem/s3/fs.go:93-118 | A bucket with /s and /s/.f, in which Rename of /s stops half-way in every order of listing. |
| S3Examples.OrderExample | pkg/filesystem/s3/fs.go:93-118 | In every bucket for /s with the directory d and the file d.zip, Rename of /s goes through if and only if d is listed first. |
| S3Examples.OrderBucket | pkg/filesystem/s3/fs.go:28-71 | Such a bucket is made by Mkdir of /s and /s/d and by writing /s/d.zip. |
| S3Examples.GuardExample | pkg/filesystem/s3/fs.go:83-91 | The names /a/ and /a/b, which the guard lets pass although the second is below the first. |
| S3Examples.IntoItself | pkg/filesystem/s3/fs.go:83-118 | A directory moved below itself by names that are not refused, past no file: nil exactly as for any move, and then its holder is gone from above the new place. |
| S3Examples.IntoItselfExample | pkg/filesystem/s3/fs.go:83-118 | Rename of /a/ to /a/b answers nil and spoils the bucket. |
| S3Examples.EndlessExample | pkg/filesystem/s3/fs.go:83-115 | With /a, /a/b and the file /a/f, Rename of a to /a/b/c never ends; to /a/c it does. |
| S3Examples.EndlessBucket | pkg/filesystem/s3/fs.go:28-71 | Such a bucket is made by Mkdir of /a and /a/b and by writing /a/f. |
| S3Examples.RootExample | pkg/filesystem/s3/fs.go:83-118 | With the file /f, Rename of "." to /x answers nil and leaves /x and /x/f. |
| S3Examples.RootBucket | pkg/filesystem/s3/fs.go:44-71 | Such a bucket is made by writing /f. |
| S3Examples.RootEndless | pkg/filesystem/s3/fs.go:83-118 | With the directory /a, Rename of "." to /a/b never ends. |
| S3Examples.RemoveAllExample | pkg/filesystem/s3/fs.go:168 | A bucket with the one file /a, which RemoveAll leaves where it is. |
| S3Runs.WriteWhole | pkg/filesystem/s3/file.go:227-276 | Open with O_CREATE, any number of writes, Close, no put failing: the object has all that was written if something was and the parent was seen, else nothing changed; the answer is nil if and only if the parent was seen. |
| S3Runs.Perform | pkg/filesystem/s3/fs.go:28-187 | The methods themselves, on every usable operation with no failing call, do to the tree what the reference does and keep the bucket well kept if and only if the operation is admissible, and answer nil exactly when the reference does if and only if it is truthful. |
| S3Examples.RunExample | pkg/filesystem/testutil/test_full_fs.go:51-98 | Every run that makes, fills, moves and removes a directory from an empty bucket is admissible throughout, under every prefix and in every order of listing, and ends in the empty tree. |
| S3Writer.InvKept | pkg/filesystem/s3/file.go:227-291 | Every step of owner, goroutine, pipe or channel keeps the invariant of the protocol. |
| S3Writer.RunInv | pkg/filesystem/s3/file.go:227-291 | The invariant holds in every state of every interleaving. |
| S3Writer.NeverPartial | pkg/filesystem/s3/file.go:248-272 | The object is as before, the placeholder byte (only with O_CREATE), or the whole of what was written, at every moment. |
| S3Writer.CloseTells | pkg/filesystem/s3/file.go:278-284 | Close answers nil only after everything written is stored, or if nothing was written; it answers an error if and only if some put failed or broke off, and then the error of the upload. |
| S3Writer.OneError | pkg/filesystem/s3/file.go:252-254 | The channel gets at most one value, sending never waits, and when Close has returned it got exactly one. |
| S3Writer.NoDeadlock | pkg/filesystem/s3/file.go:227-291 | While a Write or Close has not returned, some step other than a new call is enabled, also after failures. |
| S3Writer.CallsReturn | pkg/filesystem/s3/file.go:227-291 | Between calls of the owner the number of steps is bounded, so every call returns. |
| S3Writer.NoFailure | pkg/filesystem/s3/file.go:258-271 | While no put fails, no Write is refused and Close does not answer an error. |
| S3Writer.FailureTold | pkg/filesystem/s3/file.go:258-284 | Once a put has failed, stored or not, the upload is over with its error in every later state, and no Close gives nil. |
| S3Writer.Completes | pkg/filesystem/s3/file.go:227-291 | From every start there is a run that stores any given bytes and whose Close answers nil. |
| S3Runs.WriterKeeps | pkg/filesystem/s3/file.go:227-291 | At every moment of a writer's run the bucket around it is well kept, and its tree is the old one, or has the placeholder or the whole file. |
| TreeFs.ResolveClean | pkg/filesystem/fs_sub.go:62 | Cleaning a name, ".." included, does not change what it stands for. |
| TreeFs.ResolvePathJoin | pkg/filesystem/util.go:142 | Joining an entry's name stands for the path of the directory with the entry added. |
| MkdirAllUtil.MkdirAll | pkg/filesystem/util.go:36-75 | For every path string: it fails, with not-a-directory and without a change, if and only if the last beginning of the path that is there is a file, and the error names that beginning; else exactly the beginnings after that one are added, as directories; without ".." that is: no file is on the path, and the missing ones of the chain are added. |
| MkdirAllUtil.TrailStep | pkg/filesystem/util.go:45-64 | With one element more in the path, one more beginning is added, and it is blocked by the same file. |
| MkdirAllUtil.WithDirsAt | pkg/filesystem/util.go:36-75 | What is where after the missing directories are added: the chain as directories, everything else as before. |
| MkdirAllUtil.WithDirsThere | pkg/filesystem/util.go:36-44 | Adding a chain that is there changes nothing, so a second MkdirAll changes nothing. |
| MkdirAllUtil.MadeLast | pkg/filesystem/util.go:63-74 | Whatever the last Mkdir answers, the directory is there afterwards, also for arguments like "foo/.". |
| TarFiles.ImportOneIs | pkg/tar/importer.go:74-89 | A file can be written if and only if nothing above it is a file and it is no directory; then it is there, directories are above it, and everything else is as it was. |
| WalkOrder.SortedUnique | pkg/filesystem/util.go:94-118 | There is only one sorted listing of a set of nodes. |
| WalkOrder.DirListing | pkg/filesystem/util.go:141-149 | The listings of the entries in name order, one after the other behind the directory itself, are the listing of the directory in component-wise order. |
| WalkOrder.DeniedListing | pkg/filesystem/util.go:129-139 | A directory that cannot be read is come across twice, and nothing below it. |
| WalkOrder.MakeListing | pkg/filesystem/util.go:77-88 | Every node has a listing. |
| Walk.SortByName | pkg/filesystem/util.go:111-116 | The same entries in strictly increasing name order. |
| Walk.ReadDir | pkg/filesystem/util.go:94-118 | Exactly the entries of the directory, sorted by name, or an error. |
| Walk.WalkDirRec | pkg/filesystem/util.go:120-151 | One node: the visits are the flat reading of its listing, and the error tells of the last of them. |
| Walk.WalkDir | pkg/filesystem/util.go:77-88 | For every callback, also one that keeps a state: the visits are the flat reading of the sorted listing, in order; no visit follows SkipAll or an error; the error is that of the answer to the last visit, nil for SkipAll and SkipDir; an absent root is reported once. |
| WalkScan.ScanMember | pkg/filesystem/util.go:77-151 | A listed node is visited if and only if no earlier visit was answered with SkipAll or an error, or with SkipDir at a directory at or above it or at a file in such a directory. |
| WalkScan.ScanAnswers | pkg/filesystem/util.go:120-151 | The answers that decide are those of the callback after exactly the visits made by then. |
| WalkScan.ScanAll | pkg/filesystem/util.go:120-151 | A callback that goes on at every listed node sees them all, once each, in increasing order. |
| WalkScan.ScanEnds | pkg/filesystem/util.go:84-87 | Nothing is visited after SkipAll or an error. |
| SubFs.JoinIsConcat | pkg/filesystem/fs_sub.go:62 | For a clean directory and a valid name, path.Join puts a slash between them and changes nothing. |
| SubFs.ShortenUndoes | pkg/filesystem/fs_sub.go:31-63 | For every directory string: shorten(fullName(n)) is n without its leading slash, the root as ".", if and only if the directory is clean, and neither "." nor "/" unless n is the root. |
| SubFs.FullNameInjective | pkg/filesystem/fs_sub.go:52-63 | Different names lead to different places, but for a leading slash. |
| SubFs.FullNameBelow | pkg/filesystem/fs_sub.go:52-63 | A name leads to the directory itself or strictly below it, by exactly its own components. |
| SubFs.FullNameRoot | pkg/filesystem/fs_sub.go:52-63 | "", "/", "." and "/." all lead to the directory itself. |
| SubFs.FullNamePath | pkg/filesystem/fs_sub.go:52-63 | A path, written with or without a leading slash, leads to the directory, a slash, and the path. |
| SubFs.FullNameOkIff | pkg/filesystem/fs_sub.go:52-63 | Exactly the spellings of the root and of paths are accepted; the error gives the name without its leading slash. |
| SubFs.DotDoesNotShorten | pkg/filesystem/fs_sub.go:31-39 | For the directory "." shortening never gives the name back. |
| SubFs.SubOfSub | pkg/filesystem/fs_sub.go:15-63 | Sub by a then by b maps names as one Sub by path.Join(a, b) does. |
| SubFs.FaultShifts | pkg/filesystem/fs_sub.go:65-100 | An operation below the directory answers as it would in the file system rooted there. |
| SubFs.ApplyShifts | pkg/filesystem/fs_sub.go:65-100 | An operation below the directory does there what it would do in the file system rooted there, and nothing outside. |
| SubFs.Sub.Mkdir | pkg/filesystem/fs_sub.go:65-71 | Answer, error path and effect are those of the file system rooted at the directory, and nothing outside changes; the root, by any of its names, is already there; invalid names change nothing. |
| SubFs.Sub.WriteFile | pkg/filesystem/fs_sub.go:73-80 | The same for opening with create and truncate and writing; the root, by any of its names, is a directory. |
| SubFs.Sub.ReadFile | pkg/filesystem/fs_sub.go:73-80 | The same for opening to read and reading, the root included. |
| SubFs.Sub.RemoveAll | pkg/filesystem/fs_sub.go:82-88 | The same for RemoveAll; the root, by any of its names, takes the whole directory away. |
| SubFs.Sub.Rename | pkg/filesystem/fs_sub.go:90-100 | The same for Rename, with both names. |
| SubFs.Sub.Stat | pkg/filesystem/fs_sub.go:102-109 | The same for Stat: a directory for "", "/", "." and "/.", and for a path, with or without a leading slash, what is there below the directory, or not-found under the path asked for. |
| TarFiles.GrownNext | pkg/tar/importer.go:74-89 | Importing one more file of a compatible set succeeds, whether it is there already or not, and adds exactly it and the directories above it. |
| TarFiles.GrownAll | pkg/tar/importer.go:55-69 | Importing all of them succeeds and adds exactly them. |
| TarFiles.GrownUnique | pkg/tar/importer.go:38-72 | The tree with a set of files grown into it is determined. |
| TarFiles.ImportKeeps | pkg/tar/importer.go:55-69 | Importing files takes nothing away, and only the places of these files can change. |
| Tar.RelOfName | pkg/tar/exporter.go:64 | The name put in the header of a visited file is its path below the base, spelled out, for every base string. |
| Tar.NameAtResolves | pkg/filesystem/util.go:142 | The name a walk gives to a node stands for that node. |
| Tar.ExportAsTar | pkg/tar/exporter.go:46-87 | The archive gets exactly the files below the base, in walk order, up to the first that cannot be opened; the answer is nil if and only if there is none, and the failure to open otherwise. A base that is a file is called "."; an absent base gives no entry and no error. |
| Tar.ArchiveInOrder | pkg/tar/exporter.go:46-98 | An archive has the files of the listing each once, in the order of the listing, under their paths from the top and with their bytes, also one cut short. |
| Tar.ArchiveIsFiles | pkg/tar/exporter.go:46-98 | The entries of an archive are the map from relative paths to bytes of the files below the base, under names the importer takes. |
| Tar.EntryTarget | pkg/tar/importer.go:46-51 | An entry goes to the path of its name below the destination, and its directory to the parent of that path. |
| Tar.WriteFile | pkg/tar/importer.go:74-89 | One entry: the file and the directories above it, and everything else as it was; or an error, exactly when something above is a file or the place is a directory, and then nothing changes. |
| Tar.ImportFrom | pkg/tar/importer.go:38-72 | The destination and all entries in order; it fails exactly when one of them does. Then either a file is in the way of the destination and nothing has changed, or exactly the entries before the first that cannot be written are in place. Nothing that was there is gone in any case. |
| Tar.RoundTrip | pkg/tar/exporter.go:46-98 | Exporting a directory and importing where nothing is recreates exactly its files with their bytes and the directories that lead to them; nothing else changes; importing again changes nothing. |
| Tar.ExportAndImport | pkg/tar/doc_test.go:13-45 | The same of the code: export, import and import again all answer nil and leave exactly that. |
| RawXml.Reader.constructor | pkg/filesystem/webdav/client/xml.go:102-107 | A new reader has the whole flattening still to come. |
| RawXml.Reader.ChildToken | pkg/filesystem/webdav/client/xml.go:137-143 | A child's reader gives the next token, or its end moves on to the next child with nothing lost. |
| RawXml.Reader.Token | pkg/filesystem/webdav/client/xml.go:116-148 | Each call ends and gives the next token of the flattening, through any chain of child readers; after the last, EOF forever. |
| RawXml.ReadAll | pkg/filesystem/webdav/client/xml.go:90-92 | Reading to the end gives exactly the flattening. |
| RawXml.UnmarshalXML | pkg/filesystem/webdav/client/xml.go:34-58 | The children built and the input left are those of the reference parser; at the end of the input it fails. |
| RawXml.ParseFlatten | pkg/filesystem/webdav/client/xml.go:34-58 | The builder inverts the flattening and leaves whatever follows. |
| RawXml.ParseTakes | pkg/filesystem/webdav/client/xml.go:40-57 | It consumes the input up to the point where, for the first time, end tags outnumber start tags. |
| RawXml.ParseFailsIff | pkg/filesystem/webdav/client/xml.go:41-44 | It fails if and only if there is no such point. |
| RawXml.ParseExact | pkg/filesystem/webdav/client/xml.go:34-58 | On well-nested input the tokens consumed are exactly those of the tree and its end tag. |
| RawXml.MarshalXML | pkg/filesystem/webdav/client/xml.go:60-83 | Without a failure of the encoder it emits what the value spells, a marshal-only one exactly its encoding; when the encoder fails it stops, having emitted a beginning of that. |
| RawXml.WrittenSpells | pkg/filesystem/webdav/client/xml.go:60-83 | What is written for a value: for a marshal-only one exactly its encoding, for an element its start tag, what each child stands for in order, and its end tag, else the token. |
| RawXml.WrittenIsRead | pkg/filesystem/webdav/client/xml.go:60-148 | Without marshal-only values, what is written is what the reader gives. |
| RawXml.RoundTrip | pkg/filesystem/webdav/client/xml.go:34-83 | A tree written and built again is the same tree, whatever follows it in the input. |
| RawXml.EncodedWritesSame | pkg/filesystem/webdav/client/xml.go:28-83 | Encoding any parts of a tree beforehand, into marshal-only values, does not change what is written. |
| RawXml.EncodedRoundTrip | pkg/filesystem/webdav/client/xml.go:28-83 | A tree with any of its parts encoded beforehand is built again as the whole tree, whatever follows it. |
| WebDavFile.File.Seek | pkg/filesystem/webdav/client/file.go:28-52 | From the start the position is the offset, from the current position and the end the sum, if it fits 64 bits; a negative one and an unknown origin are refused and change nothing; the body stays. |
| WebDavFile.File.Read | pkg/filesystem/webdav/client/file.go:54-77 | The body is requested at the first read only: without a seek, or from a server without ranges, the whole file; after a seek the bytes from the position on, but one byte only at 0, and the end at or past the size. The bytes are taken off its front and counted. |
| WebDavFile.FirstBodyIsRest | pkg/filesystem/webdav/client/client.go:89-105 | The first answer is the rest of the file from the position, or 416 at the end, if and only if the request asks for it (not after seeking to 0 in a longer file). |
| WebDavFile.SeeksOnly | pkg/filesystem/webdav/client/file.go:28-52 | Seeks before the first read request nothing and leave a position that is not negative. |
| WebDavFile.BodyInOrder | pkg/filesystem/webdav/client/file.go:54-77 | Over every run of calls what is handed out is the body, in order, nothing lost or repeated. |
| WebDavFile.SeekThenRead | pkg/filesystem/webdav/client/file.go:28-77 | For any seeks, then reads in any chunks: the bytes are content[s..] from the start, the position is s plus their number, and EOF is reported exactly when it reaches the size. |
| WebDavFile.SoughtThenRead | pkg/filesystem/webdav/client/file.go:28-77 | Whatever was sought before: after seeking to a place by any origin reads give the bytes from there on, all of them if there are enough eager ones, where the request asks for the rest. |
| WebDavFile.ReadsToTheEnd | pkg/filesystem/webdav/client/file.go:54-77 | Reads that get something, one for each byte left, hand out all of the rest and report EOF. |
| WebDavFile.OneByteAfterSeekToZero | pkg/filesystem/webdav/client/client.go:98-101 | After seeking to 0 in a longer file at most one byte is handed out and EOF is never reported. |
| MultiStatus.Response.EncodeProp | pkg/filesystem/webdav/client/multi_status.go:167-187 | The value goes behind those of its code if that has a group, else into a new group behind the others; over every sequence of calls the groups are those of the calls made. |
| MultiStatus.NoneLost | pkg/filesystem/webdav/client/multi_status.go:167-187 | At most one group for each code, and together they hold exactly the values given, each under its code, none lost or doubled. |
| MultiStatus.SelectGrows | pkg/filesystem/webdav/client/multi_status.go:173-179 | Later calls only add behind the values of a code. |
| MultiStatus.Response.DecodeProp | pkg/filesystem/webdav/client/multi_status.go:131-161 | Of the properties asked for only the first is looked up; a response with a status of its own outside 200 to 299 refuses it with that, else the first value with the name, in the first group that has one, decides: the value under 200, or the status of its group; 404 if there is none. |
| MultiStatus.ReportedAsEncoded | pkg/filesystem/webdav/client/multi_status.go:131-187 | A property given under one code only is reported with that code and the first value given, or as missing if it never was. |
| CsiVolume.MakeVolume | pkg/csidriver/driver.go:138-166 | In whatever order the secrets are visited: scheme and host are those of the endpoint, the base is its path without the slashes at its ends, the id is the four fields joined in order, all empty without a backend; no volume if and only if the endpoint is refused. |
| CsiVolume.IdRoundTrip | pkg/csidriver/driver.go:158-191 | An id decodes, and to the same fields, if and only if no field has a "#"; otherwise it is refused. |
| CsiVolume.IdOfRead | pkg/csidriver/driver.go:177-191 | Every id that decodes is the id of the fields it decodes to, and these have no "#". |
| CsiVolume.IdsDiffer | pkg/csidriver/driver.go:158-191 | Volumes with the same decodable id have the same fields. |
| CsiVolume.NewVolumeReadBack | pkg/csidriver/driver.go:138-191 | A new volume is read back from its id, but for its size, or refused. |

## Left out

- GoPath.CleanNoDotDot: names with "..", here and in the theorems about S3; path.Clean itself is modelled for all names (`GoPath.Reduce`) and used with ".." in the tree algorithms.
- GoPath.DirSplits: names with "..", or whose last component is "." or empty.
- S3Keys.KeyOfName: names with ".."; under an empty or "/" prefix only cleaned rooted names, since the code uses them as keys as they are.
- S3Keys.NameChild: the same names as KeyOfName.
- S3Keys.ParentName: names with "..", or that end in a "." component.
- S3Fs.Fs.Readdir: the names of KeyOfName; it is a method of the file system here and not of an open file.
- S3Fs.Fs.OpenDir: names with "..", or that end in "/./"; under an empty or "/" prefix all but a cleaned rooted name and one slash.
- S3Refinement.OpenAgrees: the names of KeyOfName, with a trailing slash those of OpenDir.
- S3Fs.Fs.Mkdir: the names of KeyOfName, and of those that denote the root "/" and "." only.
- S3Fs.Fs.OpenFile: names with "..", or whose last component is "." and that are not ".".
- S3Fs.Fs.OpenFileForWrite: the same names as OpenFile.
- S3Fs.Fs.OpenFileForRead: the object is not read; the code gets it lazily.
- S3Fs.Fs.RemoveAll: the names of KeyOfName. A file whose name ends in `.fs_dir` is never listed and stays behind.
- S3Fs.Fs.Rename: the names of KeyOfName, and the root as a target "/" or "." only. The calls that `Bounded` excludes, which need not end: what they leave is not stated, only when they end, and with failing calls not even that. Past a file on the way to a target that the guard does not see it promises nothing about the files.
- S3Renaming.RefusedExactly: names that are not cleaned.
- S3Endless.EndsIff: targets whose parent is a file or a shadow, and sources in which names start with one another; for these only ChaseStep and NeverNil, which need a way without a file.
- S3Root.RootMoved: targets further down in the root; for these EndsIff.
- S3Examples.IntoItself: names of which only one starts at the root, with a file or a holder on the way.
- S3Refinement.StatAgrees: paths whose last name ends in `.fs_dir` are not users' names and are excluded from the theorems about trees, as are parents of such a name.
- S3Refinement.StepRightIff: writes are whole, and the names are the cleaned rooted names of paths.
- S3Runs.WriteWhole: names with "..", or whose last component is ".".
- S3Runs.Perform: the upload goroutine's two puts are made one after the other; their interleaving with the owner is S3Writer.
- S3Writer.CloseTells: one Close for each open file; a second Close would wait for ever on the drained channel. Presigned files, content metadata, cancellation and multi-part uploads are not modelled: a put is atomic.
- S3Client.Client.ListObjects: a listing is taken at one moment; the code lists fully before it changes anything. MaxKeys is not modelled.
- S3Client.Client.CopyObject: the store refuses to copy an object onto itself or to the empty key, as S3 does without changed metadata; the copy itself is atomic.
- Walk.ReadDir: the entries that a directory may give together with an error.
- Walk.WalkDir: the callback is a function of all visits so far, and what is visited is returned as a log; callbacks that change the file system while it is walked are not modelled. Paging, symbolic links and file information in the entries are left out.
- Walk.SortByName: an insertion sort in place of sort.Slice, over sequences; names in a directory are distinct.
- Tar.ExportAsTar: the archive is filled from the log after the walk and not from inside the callback. Headers have a name and bytes; modes, times and the tar format are left out, and so are errors of the archive writer.
- Tar.EntryTarget: destinations and entry names without "..", and cleaned names when there is no destination.
- Tar.WriteFile: the same names as EntryTarget, and only names that denote something below the destination.
- Tar.ImportFrom: the same names as WriteFile. Entries are files.
- TreeFs.ResolveClean: the file systems the tree algorithms run over are stood in for by one that follows the reference tree and resolves names lexically; it never fails but for what is denied.
- SubFs.Sub.Mkdir: for Mkdir, ReadFile, RemoveAll, Rename and Stat directories that are clean, there in the source, and neither "." nor "/".
- SubFs.Sub.ReadFile: the same directories.
- SubFs.Sub.RemoveAll: the same directories.
- SubFs.Sub.Rename: the same directories.
- SubFs.Sub.Stat: the same directories.
- SubFs.Sub.WriteFile: the same directories, and opening with create and truncate only. Sub by "/" or "" is the source. The UTF-8 test of fs.ValidPath, and the rewriting of separators on other systems, are left out, and so is the operation's name in errors.
- RawXml.Reader.Token: reading on in a child is a method of its own (ChildToken), where the code has it in the loop.
- RawXml.UnmarshalXML: the decoder and encoder of encoding/xml are sequences of tokens; their own checks, name spaces and escaping are left out, and errors other than the end of the input and a failing encoder.
- RawXml.MarshalXML: a tree with an end tag where an element is expected panics in the code and is excluded; a token the encoder fails on counts as not emitted.
- WebDavFile.SeekThenRead: the server has the file as it was when it was opened, and answers 200, 206 or 416; the code does not look at any other status and would hand out the body of an error page. Locks and Close are left out.
- MultiStatus.Response.DecodeProp: decoding a value into a Go value, and its errors, are left out; a description of the failure is not kept.
- MultiStatus.ReportedAsEncoded: properties are looked up by element name as they are after the response was sent and read again; a freshly encoded value has no name yet.
- CsiVolume.MakeVolume: parsing of the endpoint is a parameter.
- FTP and WebDAV back-end operations, the FUSE, afero and gRPC layers, endpoints and sizes, the FTP client counter: thin layers over foreign code, with no property of their own to prove.
