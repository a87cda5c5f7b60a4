/**
 The backup store of ipalib/sysrestore.py: `FileStore` keeps copies of system files, an index of where they came from
 and the index file on disk. A SHA-256 digest is represented by the content it was taken of, so it never collides.
 */
module BackupStore {
  import opened Common

  type Bytes = seq<int>

  datatype File = File(content: Bytes, mode: int, uid: int, gid: int)

  /** The name of a copy in the store directory: digest, dash, base name. */
  datatype CopyName = CopyName(digest: Bytes, base: string)

  /** One item of the index. */
  datatype Entry = Entry(name: CopyName, mode: int, uid: int, gid: int, path: string)

  type FileSystem = map<string, File>

  predicate IsAbs(path: string) { path != "" && path[0] == '/' }

  /** What follows the last slash. */
  function Base(path: string): string {
    if path == "" || path[|path| - 1] == '/' then "" else Base(path[..|path| - 1]) + [path[|path| - 1]]
  }

  // ---------- the store as a list of snapshots ----------

  datatype Snapshot = Snapshot(path: string, file: File)

  datatype Store = Store(snaps: seq<Snapshot>, fs: FileSystem)

  datatype Op =
    | Backup(path: string)
    | Restore(path: string, newPath: Option<string>)
    | RestoreAll
    | Untrack(path: string)
    | Outside(path: string, file: Option<File>)

  datatype Answer = Nothing | Restored(ok: bool) | ValueError

  /** The position of the oldest snapshot of `path`, or the length of the list. */
  function Oldest(snaps: seq<Snapshot>, path: string): (i: nat)
    ensures i <= |snaps|
  {
    if snaps == [] || snaps[0].path == path then 0 else 1 + Oldest(snaps[1..], path)
  }

  predicate Tracked(snaps: seq<Snapshot>, path: string) { Oldest(snaps, path) < |snaps| }

  /** A copy with this base name and content is in the store. */
  predicate Stored(snaps: seq<Snapshot>, path: string, content: Bytes) {
    exists i :: 0 <= i < |snaps| && Base(snaps[i].path) == Base(path) && snaps[i].file.content == content
  }

  function Without(snaps: seq<Snapshot>, i: nat): seq<Snapshot>
    requires i < |snaps|
  {
    snaps[..i] + snaps[i + 1..]
  }

  /** Write the snapshots back, oldest first. */
  function WriteAll(fs: FileSystem, snaps: seq<Snapshot>): FileSystem {
    if snaps == [] then fs
    else
      var last := snaps[|snaps| - 1];
      WriteAll(fs, snaps[..|snaps| - 1])[last.path := last.file]
  }

  lemma {:induction false} WriteOneMore(fs: FileSystem, snaps: seq<Snapshot>, snap: Snapshot)
    ensures WriteAll(fs, snaps + [snap]) == WriteAll(fs, snaps)[snap.path := snap.file]
  {
    assert (snaps + [snap])[..|snaps|] == snaps;
  }

  function Change(fs: FileSystem, path: string, file: Option<File>): FileSystem {
    match file
    case Some(f) => fs[path := f]
    case None => fs - {path}
  }

  function Step(s: Store, op: Op): Store {
    match op
    case Backup(path) =>
      if !IsAbs(path) || path !in s.fs || Stored(s.snaps, path, s.fs[path].content) then s
      else s.(snaps := s.snaps + [Snapshot(path, s.fs[path])])
    case Restore(path, newPath) =>
      if !IsAbs(path) || (newPath.Some? && !IsAbs(newPath.value)) || !Tracked(s.snaps, path) then s
      else
        var i := Oldest(s.snaps, path);
        var target := if newPath.Some? then newPath.value else path;
        Store(Without(s.snaps, i), s.fs[target := s.snaps[i].file])
    case RestoreAll => Store([], WriteAll(s.fs, s.snaps))
    case Untrack(path) =>
      if !IsAbs(path) || !Tracked(s.snaps, path) then s
      else s.(snaps := Without(s.snaps, Oldest(s.snaps, path)))
    case Outside(path, file) => s.(fs := Change(s.fs, path, file))
  }

  function Reply(s: Store, op: Op): Answer {
    match op
    case Backup(path) => if IsAbs(path) then Nothing else ValueError
    case Restore(path, newPath) =>
      if !IsAbs(path) || (newPath.Some? && !IsAbs(newPath.value)) || !Tracked(s.snaps, path) then ValueError
      else Restored(true)
    case RestoreAll => Restored(s.snaps != [])
    case Untrack(path) => if !IsAbs(path) || !Tracked(s.snaps, path) then ValueError else Restored(true)
    case Outside(_, _) => Nothing
  }

  function Run(s: Store, ops: seq<Op>): Store
    decreases |ops|
  {
    if ops == [] then s else Run(Step(s, ops[0]), ops[1..])
  }

  // ---------- the store as the class keeps it ----------

  function SnapshotOf(e: Entry): Snapshot { Snapshot(e.path, File(e.name.digest, e.mode, e.uid, e.gid)) }

  function Snapshots(files: seq<Entry>): seq<Snapshot> {
    if files == [] then [] else Snapshots(files[..|files| - 1]) + [SnapshotOf(files[|files| - 1])]
  }

  function Names(files: seq<Entry>): set<CopyName> {
    if files == [] then {} else Names(files[..|files| - 1]) + {files[|files| - 1].name}
  }

  /** No name occurs twice, and each carries the base name of its path. */
  predicate Distinct(files: seq<Entry>) {
    files == []
    || (var last, rest := files[|files| - 1], files[..|files| - 1];
        last.name !in Names(rest) && last.name.base == Base(last.path) && Distinct(rest))
  }

  ghost predicate Truthful(copies: map<CopyName, Bytes>) {
    forall name :: name in copies ==> copies[name] == name.digest
  }

  /** Index entries and stored copies correspond one to one, and every name says what its copy holds. */
  ghost predicate Matched(files: seq<Entry>, copies: map<CopyName, Bytes>) {
    Distinct(files) && copies.Keys == Names(files) && Truthful(copies)
  }

  lemma {:induction false} SnapshotAt(files: seq<Entry>, i: nat)
    requires i < |files|
    ensures |Snapshots(files)| == |files| && Snapshots(files)[i] == SnapshotOf(files[i])
    ensures files[i].name in Names(files)
  {
    var n := |files| - 1;
    if i < n {
      SnapshotAt(files[..n], i);
    } else if n > 0 {
      SnapshotAt(files[..n], 0);
    }
  }

  lemma {:induction false} SnapshotCount(files: seq<Entry>)
    ensures |Snapshots(files)| == |files|
  {
    if files != [] {
      SnapshotAt(files, 0);
    }
  }

  lemma {:induction false} NameAt(files: seq<Entry>, name: CopyName) returns (i: nat)
    requires name in Names(files)
    ensures i < |files| && files[i].name == name
  {
    var n := |files| - 1;
    if files[n].name == name {
      i := n;
    } else {
      i := NameAt(files[..n], name);
    }
  }

  lemma {:induction false} DistinctAt(files: seq<Entry>, i: nat)
    requires Distinct(files) && i < |files|
    ensures files[i].name !in Names(files[..i]) && files[i].name.base == Base(files[i].path)
  {
    var n := |files| - 1;
    if i < n {
      DistinctAt(files[..n], i);
      assert files[..n][..i] == files[..i];
    }
  }

  lemma {:induction false} OldestIsFirst(snaps: seq<Snapshot>, path: string, i: nat)
    requires i <= |snaps| && (i < |snaps| ==> snaps[i].path == path)
    requires forall j :: 0 <= j < i ==> snaps[j].path != path
    ensures Oldest(snaps, path) == i
  {
    if i > 0 {
      OldestIsFirst(snaps[1..], path, i - 1);
    }
  }

  lemma {:induction false} OldestHolds(snaps: seq<Snapshot>, path: string)
    ensures Tracked(snaps, path) ==> snaps[Oldest(snaps, path)].path == path
    ensures forall j :: 0 <= j < Oldest(snaps, path) ==> snaps[j].path != path
  {
    if snaps != [] && snaps[0].path != path {
      OldestHolds(snaps[1..], path);
      forall j | 0 <= j < Oldest(snaps, path)
        ensures snaps[j].path != path
      {
        if j > 0 {
          assert snaps[1..][j - 1].path != path;
        }
      }
    }
  }

  /** Every entry has its own copy, holding what its name says, and every copy has an entry. */
  lemma {:induction false} OneCopyPerEntry(files: seq<Entry>, copies: map<CopyName, Bytes>)
    requires Matched(files, copies)
    ensures forall i, j :: 0 <= i < j < |files| ==> files[i].name != files[j].name
    ensures forall i :: 0 <= i < |files| ==> files[i].name in copies
    ensures forall name :: name in copies ==> copies[name] == name.digest
    ensures forall name :: name in copies ==> exists i :: 0 <= i < |files| && files[i].name == name
  {
    forall i, j | 0 <= i < j < |files|
      ensures files[i].name != files[j].name
    {
      DistinctAt(files, j);
      SnapshotAt(files[..j], i);
    }
    forall i | 0 <= i < |files|
      ensures files[i].name in copies
    {
      SnapshotAt(files, i);
    }
    forall name | name in copies
      ensures exists i :: 0 <= i < |files| && files[i].name == name
    {
      var i := NameAt(files, name);
    }
  }

  lemma {:induction false} StoredIff(files: seq<Entry>, path: string, content: Bytes)
    requires Distinct(files)
    ensures CopyName(content, Base(path)) in Names(files) <==> Stored(Snapshots(files), path, content)
  {
    var name, snaps := CopyName(content, Base(path)), Snapshots(files);
    SnapshotCount(files);
    if name in Names(files) {
      var i := NameAt(files, name);
      SnapshotAt(files, i);
      DistinctAt(files, i);
      assert Base(snaps[i].path) == Base(path);
    }
    if i :| 0 <= i < |snaps| && Base(snaps[i].path) == Base(path) && snaps[i].file.content == content {
      SnapshotAt(files, i);
      DistinctAt(files, i);
      assert files[i].name == name;
    }
  }

  lemma {:induction false} Added(files: seq<Entry>, e: Entry)
    requires Distinct(files) && e.name !in Names(files) && e.name.base == Base(e.path)
    ensures Distinct(files + [e]) && Names(files + [e]) == Names(files) + {e.name}
    ensures Snapshots(files + [e]) == Snapshots(files) + [SnapshotOf(e)]
  {
    assert (files + [e])[..|files|] == files;
  }

  function Fewer(files: seq<Entry>, k: nat): seq<Entry>
    requires k < |files|
  {
    files[..k] + files[k + 1..]
  }

  lemma {:induction false} FewerSplits(files: seq<Entry>, k: nat)
    requires k < |files| - 1
    ensures var n := |files| - 1;
      Fewer(files, k)[n - 1] == files[n] && Fewer(files, k)[..n - 1] == Fewer(files[..n], k)
  {
  }

  lemma {:induction false} RemovedNames(files: seq<Entry>, k: nat)
    requires Distinct(files) && k < |files|
    ensures Distinct(Fewer(files, k)) && Names(Fewer(files, k)) == Names(files) - {files[k].name}
  {
    var n := |files| - 1;
    if k < n {
      FewerSplits(files, k);
      RemovedNames(files[..n], k);
      SnapshotAt(files[..n], k);
    } else {
      assert Fewer(files, k) == files[..n];
    }
  }

  lemma {:induction false} RemovedSnapshots(files: seq<Entry>, k: nat)
    requires k < |files|
    ensures |Snapshots(files)| == |files| && Snapshots(Fewer(files, k)) == Without(Snapshots(files), k)
  {
    var n := |files| - 1;
    SnapshotCount(files);
    SnapshotCount(files[..n]);
    if k < n {
      FewerSplits(files, k);
      RemovedSnapshots(files[..n], k);
      assert Without(Snapshots(files[..n]), k) + [SnapshotOf(files[n])] == Without(Snapshots(files), k);
    } else {
      assert Fewer(files, k) == files[..n];
    }
  }

  lemma {:induction false} OneMore(files: seq<Entry>, i: nat)
    requires Distinct(files) && i < |files|
    ensures Names(files[..i + 1]) == Names(files[..i]) + {files[i].name}
    ensures Snapshots(files[..i + 1]) == Snapshots(files[..i]) + [SnapshotOf(files[i])]
    ensures files[i].name in Names(files) && files[i].name !in Names(files[..i])
  {
    assert files[..i + 1][..i] == files[..i];
    DistinctAt(files, i);
    SnapshotAt(files, i);
  }

  lemma {:induction false} RestoreAllMeans(files: seq<Entry>, fs: FileSystem)
    ensures Step(Store(Snapshots(files), fs), RestoreAll) == Store([], WriteAll(fs, Snapshots(files)))
    ensures Reply(Store(Snapshots(files), fs), RestoreAll) == Restored(files != [])
    ensures files == [] ==> Snapshots(files) == [] && WriteAll(fs, Snapshots(files)) == fs
  {
    SnapshotCount(files);
  }

  class FileStore {
    var files: seq<Entry>
    /** The store directory, the index file aside. */
    var copies: map<CopyName, Bytes>
    /** The index file; a removed file and an empty list read alike. */
    var index: seq<Entry>
    var fs: FileSystem

    ghost predicate Valid()
      reads this
    {
      Matched(files, copies) && index == files
    }

    ghost function Abs(): Store
      reads this
    {
      Store(Snapshots(files), fs)
    }

    constructor (fs: FileSystem)
      ensures Valid() && Abs() == Store([], fs)
    {
      this.fs := fs;
      files, copies, index := [], map[], [];
    }

    method Load()
      modifies this`files
      ensures files == index
    {
      files := index;
    }

    method Save()
      modifies this`index
      ensures index == files
    {
      index := files;
    }

    method Find(path: string) returns (k: nat)
      ensures |Snapshots(files)| == |files| && k == Oldest(Snapshots(files), path)
      ensures k < |files| ==> Snapshots(files)[k] == SnapshotOf(files[k]) && files[k].name in Names(files)
    {
      k := 0;
      while k < |files| && files[k].path != path
        invariant k <= |files|
        invariant forall j :: 0 <= j < k ==> files[j].path != path
      {
        k := k + 1;
      }
      ghost var snaps := Snapshots(files);
      SnapshotCount(files);
      forall j | 0 <= j < |files|
        ensures snaps[j].path == files[j].path
      {
        SnapshotAt(files, j);
      }
      OldestIsFirst(snaps, path, k);
      if k < |files| {
        SnapshotAt(files, k);
      }
    }

    method HasFile(path: string) returns (found: bool)
      ensures found == Tracked(Snapshots(files), path)
    {
      var k := Find(path);
      found := k < |files|;
    }

    /** Copy one file back, with its mode and owner, and remove the copy. */
    method CopyOne(e: Entry, path: string)
      requires e.name in copies && Truthful(copies)
      modifies this`fs, this`copies
      ensures fs == old(fs)[path := SnapshotOf(e).file]
      ensures copies.Keys == old(copies.Keys) - {e.name} && Truthful(copies)
    {
      fs := fs[path := File(copies[e.name], e.mode, e.uid, e.gid)];
      copies := copies - {e.name};
    }

    /** Drop an entry whose copy is gone. */
    method Forget(k: nat)
      requires k < |files| && |Snapshots(files)| == |files| && Distinct(files) && Truthful(copies)
      requires copies.Keys == Names(files) - {files[k].name}
      modifies this`files, this`index
      ensures Valid() && Snapshots(files) == Without(old(Snapshots(files)), k)
    {
      RemovedNames(files, k);
      RemovedSnapshots(files, k);
      files := Fewer(files, k);
      Save();
    }

    method BackupFile(path: string) returns (r: Answer)
      requires Valid()
      modifies this
      ensures Valid() && Abs() == Step(old(Abs()), Backup(path)) && r == Reply(old(Abs()), Backup(path))
    {
      if !IsAbs(path) {
        return ValueError;
      }
      if path !in fs {
        return Nothing;
      }
      var name := CopyName(fs[path].content, Base(path));
      StoredIff(files, path, fs[path].content);
      if name in copies {
        return Nothing;
      }
      var e := Entry(name, fs[path].mode, fs[path].uid, fs[path].gid, path);
      Added(files, e);
      copies := copies[name := fs[path].content];
      files := files + [e];
      Save();
      return Nothing;
    }

    method RestoreFile(path: string, newPath: Option<string>) returns (r: Answer)
      requires Valid()
      modifies this
      ensures Valid() && Abs() == Step(old(Abs()), Restore(path, newPath))
      ensures r == Reply(old(Abs()), Restore(path, newPath))
    {
      if !IsAbs(path) || (newPath.Some? && !IsAbs(newPath.value)) {
        return ValueError;
      }
      var k := Find(path);
      if k == |files| {
        return ValueError;
      }
      var e := files[k];
      if e.name !in copies {
        assert false;
        return Restored(false);
      }
      CopyOne(e, if newPath.Some? then newPath.value else path);
      Forget(k);
      return Restored(true);
    }

    method UntrackFile(path: string) returns (r: Answer)
      requires Valid()
      modifies this
      ensures Valid() && Abs() == Step(old(Abs()), Untrack(path)) && r == Reply(old(Abs()), Untrack(path))
    {
      if !IsAbs(path) {
        return ValueError;
      }
      var k := Find(path);
      if k == |files| {
        return ValueError;
      }
      var e := files[k];
      if e.name !in copies {
        assert false;
        return Restored(false);
      }
      copies := copies - {e.name};
      Forget(k);
      return Restored(true);
    }

    /** The loop of `restore_all_files`. */
    method CopyBack()
      requires Matched(files, copies)
      modifies this`fs, this`copies
      ensures fs == WriteAll(old(fs), Snapshots(files)) && copies == map[]
    {
      var i := 0;
      ghost var snaps: seq<Snapshot>, taken: set<CopyName> := [], {};
      while i < |files|
        invariant 0 <= i <= |files| && snaps == Snapshots(files[..i]) && taken == Names(files[..i])
        invariant fs == WriteAll(old(fs), snaps)
        invariant copies.Keys == Names(files) - taken && Truthful(copies)
      {
        var e := files[i];
        OneMore(files, i);
        WriteOneMore(old(fs), snaps, SnapshotOf(e));
        if e.name in copies {
          CopyOne(e, e.path);
        }
        snaps, taken := snaps + [SnapshotOf(e)], taken + {e.name};
        i := i + 1;
      }
      assert files[..i] == files;
    }

    method Clear()
      requires copies == map[]
      modifies this`files, this`index
      ensures Valid() && Abs() == Store([], fs)
    {
      files := [];
      Save();
    }

    method RestoreAllFiles() returns (r: Answer)
      requires Valid()
      modifies this
      ensures Valid() && Abs() == Step(old(Abs()), RestoreAll) && r == Reply(old(Abs()), RestoreAll)
    {
      RestoreAllMeans(files, fs);
      if files == [] {
        return Restored(false);
      }
      CopyBack();
      Clear();
      return Restored(true);
    }

    method Write(path: string, file: Option<File>)
      requires Valid()
      modifies this`fs
      ensures Valid() && Abs() == Step(old(Abs()), Outside(path, file))
    {
      fs := Change(fs, path, file);
    }

    method Do(op: Op) returns (r: Answer)
      requires Valid()
      modifies this
      ensures Valid() && Abs() == Step(old(Abs()), op) && r == Reply(old(Abs()), op)
    {
      match op {
        case Backup(path) => r := BackupFile(path);
        case Restore(path, newPath) => r := RestoreFile(path, newPath);
        case RestoreAll => r := RestoreAllFiles();
        case Untrack(path) => r := UntrackFile(path);
        case Outside(path, file) => Write(path, file); r := Nothing;
      }
    }

    /** Any run, with the store opened anew before every call, is the run of the snapshot list. */
    method Session(ops: seq<Op>)
      requires Valid()
      modifies this
      ensures Valid() && Abs() == Run(old(Abs()), ops)
    {
      var i := 0;
      while i < |ops|
        invariant 0 <= i <= |ops| && Valid()
        invariant Run(Abs(), ops[i..]) == Run(old(Abs()), ops)
      {
        assert ops[i..][0] == ops[i] && ops[i..][1..] == ops[i + 1..];
        Load();
        var _ := Do(ops[i]);
        i := i + 1;
      }
    }
  }

  // ---------- what the snapshot list does over whole runs ----------

  /** No two snapshots share base name and content. */
  ghost predicate AllDifferent(snaps: seq<Snapshot>) {
    forall i, j :: 0 <= i < j < |snaps| ==>
      Base(snaps[i].path) != Base(snaps[j].path) || snaps[i].file.content != snaps[j].file.content
  }

  lemma {:induction false} NeverStoredTwice(s: Store, ops: seq<Op>)
    requires AllDifferent(s.snaps)
    ensures AllDifferent(Run(s, ops).snaps)
    decreases |ops|
  {
    if ops != [] {
      NeverStoredTwice(Step(s, ops[0]), ops[1..]);
    }
  }

  lemma {:induction false} OldestOfMore(snaps: seq<Snapshot>, more: seq<Snapshot>, path: string)
    ensures Oldest(snaps + more, path)
      == if Tracked(snaps, path) then Oldest(snaps, path) else |snaps| + Oldest(more, path)
  {
    if snaps == [] {
      assert snaps + more == more;
    } else if snaps[0].path != path {
      assert (snaps + more)[1..] == snaps[1..] + more;
      OldestOfMore(snaps[1..], more, path);
    }
  }

  /** A backup tracks its path exactly when it already was tracked, or the file exists and no equal copy is stored. */
  lemma {:induction false} TrackedIff(s: Store, path: string)
    requires IsAbs(path)
    ensures Tracked(Step(s, Backup(path)).snaps, path) <==>
      Tracked(s.snaps, path) || (path in s.fs && !Stored(s.snaps, path, s.fs[path].content))
  {
    if path in s.fs {
      OldestOfMore(s.snaps, [Snapshot(path, s.fs[path])], path);
    }
  }

  /** Equal files of one base name in two directories: the second backup is dropped, so its restore fails. */
  lemma {:induction false} SecondDirectoryIsDropped(s: Store, path: string, other: string)
    requires IsAbs(path) && path != other && Base(path) == Base(other) && !Tracked(s.snaps, other)
    requires path in s.fs && other in s.fs && s.fs[path].content == s.fs[other].content
    ensures var t := Step(Step(s, Backup(path)), Backup(other));
      Reply(t, Restore(other, None)) == ValueError
  {
    var snap, t := Snapshot(path, s.fs[path]), Step(s, Backup(path));
    OldestOfMore(s.snaps, [snap], other);
    if t != s {
      assert t.snaps[|s.snaps|] == snap;
    }
    assert Stored(t.snaps, other, s.fs[other].content);
  }

  /** The oldest snapshot of a path stays the oldest through anything that does not take it. */
  ghost predicate Leaves(op: Op, path: string) {
    match op
    case Restore(p, _) => p != path
    case Untrack(p) => p != path
    case RestoreAll => false
    case _ => true
  }

  ghost predicate OldestIs(snaps: seq<Snapshot>, path: string, file: File) {
    Tracked(snaps, path) && snaps[Oldest(snaps, path)] == Snapshot(path, file)
  }

  lemma {:induction false} RemovalLeaves(snaps: seq<Snapshot>, k: nat, path: string, file: File)
    requires OldestIs(snaps, path, file) && k < |snaps| && snaps[k].path != path
    ensures OldestIs(Without(snaps, k), path, file)
  {
    OldestHolds(snaps, path);
    var i := Oldest(snaps, path);
    OldestIsFirst(Without(snaps, k), path, if k < i then i - 1 else i);
  }

  lemma {:induction false} StepLeaves(s: Store, op: Op, path: string, file: File)
    requires OldestIs(s.snaps, path, file) && Leaves(op, path)
    ensures OldestIs(Step(s, op).snaps, path, file)
  {
    match op {
      case Backup(p) =>
        if p in s.fs {
          OldestOfMore(s.snaps, [Snapshot(p, s.fs[p])], path);
        }
      case Restore(p, _) =>
        if Tracked(s.snaps, p) {
          OldestHolds(s.snaps, p);
          RemovalLeaves(s.snaps, Oldest(s.snaps, p), path, file);
        }
      case Untrack(p) =>
        if Tracked(s.snaps, p) {
          OldestHolds(s.snaps, p);
          RemovalLeaves(s.snaps, Oldest(s.snaps, p), path, file);
        }
      case _ =>
    }
  }

  lemma {:induction false} RunLeaves(s: Store, ops: seq<Op>, path: string, file: File)
    requires OldestIs(s.snaps, path, file) && forall i :: 0 <= i < |ops| ==> Leaves(ops[i], path)
    ensures OldestIs(Run(s, ops).snaps, path, file)
    decreases |ops|
  {
    if ops != [] {
      StepLeaves(s, ops[0], path, file);
      RunLeaves(Step(s, ops[0]), ops[1..], path, file);
    }
  }

  /** A first backup comes back, with its bytes, mode and owner, after any run that leaves its path alone. */
  lemma {:induction false} BackupComesBack(s: Store, path: string, ops: seq<Op>)
    requires IsAbs(path) && path in s.fs && !Tracked(s.snaps, path) && !Stored(s.snaps, path, s.fs[path].content)
    requires forall i :: 0 <= i < |ops| ==> Leaves(ops[i], path)
    ensures var t := Run(Step(s, Backup(path)), ops);
      && Reply(t, Restore(path, None)) == Restored(true)
      && Step(t, Restore(path, None)).fs == t.fs[path := s.fs[path]]
  {
    OldestOfMore(s.snaps, [Snapshot(path, s.fs[path])], path);
    RunLeaves(Step(s, Backup(path)), ops, path, s.fs[path]);
  }

  /** The newest snapshot of `path`. */
  function Newest(snaps: seq<Snapshot>, path: string): Option<File> {
    if snaps == [] then None
    else if snaps[|snaps| - 1].path == path then Some(snaps[|snaps| - 1].file)
    else Newest(snaps[..|snaps| - 1], path)
  }

  /** Restoring everything leaves the newest snapshot at each path and touches no other path. */
  lemma {:induction false} RestoreAllIsNewest(fs: FileSystem, snaps: seq<Snapshot>, path: string)
    ensures match Newest(snaps, path)
      case Some(f) => path in WriteAll(fs, snaps) && WriteAll(fs, snaps)[path] == f
      case None =>
        && (path in WriteAll(fs, snaps) <==> path in fs)
        && (path in fs ==> WriteAll(fs, snaps)[path] == fs[path])
    decreases |snaps|
  {
    if snaps != [] && snaps[|snaps| - 1].path != path {
      RestoreAllIsNewest(fs, snaps[..|snaps| - 1], path);
    }
  }

  /** Restore one path until nothing of it is tracked. */
  function Drain(s: Store, path: string): Store
    decreases |s.snaps|
  {
    if IsAbs(path) && Tracked(s.snaps, path) then Drain(Step(s, Restore(path, None)), path) else s
  }

  lemma {:induction false} NewestAbsent(snaps: seq<Snapshot>, path: string)
    requires forall j :: 0 <= j < |snaps| ==> snaps[j].path != path
    ensures Newest(snaps, path) == None
    decreases |snaps|
  {
    if snaps != [] {
      NewestAbsent(snaps[..|snaps| - 1], path);
    }
  }

  /** Taking the oldest of several leaves the newest. */
  lemma {:induction false} NewestWithout(snaps: seq<Snapshot>, k: nat, path: string)
    requires k < |snaps| && snaps[k].path == path && forall j :: 0 <= j < k ==> snaps[j].path != path
    ensures Newest(snaps, path) == match Newest(Without(snaps, k), path)
      case Some(f) => Some(f)
      case None => Some(snaps[k].file)
    decreases |snaps|
  {
    var n, fewer := |snaps| - 1, Without(snaps, k);
    if k == n {
      assert fewer == snaps[..n];
      NewestAbsent(fewer, path);
    } else {
      assert fewer[n - 1] == snaps[n] && fewer[..n - 1] == Without(snaps[..n], k);
      if snaps[n].path != path {
        NewestWithout(snaps[..n], k, path);
      }
    }
  }

  /** Restoring one path again and again ends where restoring everything ends, and moves no other file. */
  lemma {:induction false} DrainEndsAtNewest(s: Store, path: string)
    requires IsAbs(path)
    ensures !Tracked(Drain(s, path).snaps, path)
    ensures Drain(s, path).fs == match Newest(s.snaps, path)
      case Some(f) => s.fs[path := f]
      case None => s.fs
    decreases |s.snaps|
  {
    OldestHolds(s.snaps, path);
    if Tracked(s.snaps, path) {
      NewestWithout(s.snaps, Oldest(s.snaps, path), path);
      DrainEndsAtNewest(Step(s, Restore(path, None)), path);
    } else {
      NewestAbsent(s.snaps, path);
    }
  }

  /** Untracking forgets the oldest snapshot of the path, leaves the others in order and writes no file. */
  lemma {:induction false} UntrackForgets(before: seq<Snapshot>, snap: Snapshot, after: seq<Snapshot>, fs: FileSystem)
    requires IsAbs(snap.path) && forall i :: 0 <= i < |before| ==> before[i].path != snap.path
    ensures Step(Store(before + [snap] + after, fs), Untrack(snap.path)) == Store(before + after, fs)
  {
    var snaps := before + [snap] + after;
    OldestIsFirst(snaps, snap.path, |before|);
    assert snaps[..|before|] == before && snaps[|before| + 1..] == after;
  }

  /** What follows the last slash, or the whole path without one. */
  lemma {:induction false} BaseIs(dir: string, name: string)
    requires forall i :: 0 <= i < |name| ==> name[i] != '/'
    ensures Base(dir + "/" + name) == name && Base(name) == name
    decreases |name|
  {
    var path := dir + "/" + name;
    if name == "" {
      assert path[|path| - 1] == '/';
    } else {
      var n := |name| - 1;
      BaseIs(dir, name[..n]);
      assert path[..|path| - 1] == dir + "/" + name[..n] && path[|path| - 1] == name[n];
      assert name == name[..n] + [name[n]];
    }
  }

  /** A path that has no snapshot is neither restored nor untracked, nor is one without a leading slash backed up. */
  lemma {:induction false} Refused(s: Store, path: string, op: Op)
    requires op == Backup(path) || op == Untrack(path) || (op.Restore? && op.path == path)
    requires !("/" <= path) || (!op.Backup? && forall i :: 0 <= i < |s.snaps| ==> s.snaps[i].path != path)
    ensures Step(s, op) == s && Reply(s, op) == ValueError
  {
    if "/" <= path {
      OldestIsFirst(s.snaps, path, |s.snaps|);
    }
  }

  /** A path that has one is. */
  lemma {:induction false} Granted(s: Store, path: string, i: nat)
    requires "/" <= path && i < |s.snaps| && s.snaps[i].path == path
    ensures Reply(s, Untrack(path)) == Restored(true) == Reply(s, Restore(path, None))
    ensures |Step(s, Untrack(path)).snaps| == |s.snaps| - 1 == |Step(s, Restore(path, None)).snaps|
  {
    OldestAtMost(s.snaps, path, i);
  }

  lemma {:induction false} OldestAtMost(snaps: seq<Snapshot>, path: string, i: nat)
    requires i < |snaps| && snaps[i].path == path
    ensures Oldest(snaps, path) <= i
  {
    if i > 0 && snaps[0].path != path {
      OldestAtMost(snaps[1..], path, i - 1);
    }
  }

  /** Restoring writes the oldest snapshot of the path to the path or to the new path given, and forgets it. */
  lemma {:induction false} RestoreWrites(before: seq<Snapshot>, snap: Snapshot, after: seq<Snapshot>, fs: FileSystem,
                                         newPath: Option<string>)
    requires "/" <= snap.path && (newPath.Some? ==> "/" <= newPath.value)
    requires forall i :: 0 <= i < |before| ==> before[i].path != snap.path
    ensures Step(Store(before + [snap] + after, fs), Restore(snap.path, newPath))
      == Store(before + after, fs[(if newPath.Some? then newPath.value else snap.path) := snap.file])
  {
    var snaps := before + [snap] + after;
    OldestIsFirst(snaps, snap.path, |before|);
    assert snaps[..|before|] == before && snaps[|before| + 1..] == after;
  }
}
