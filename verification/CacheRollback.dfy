/** The rollback of a rename, metadata_write.go: when it can be made, and what it restores. */
module CacheRollback {
  import opened CacheRename
  import opened ObjectInfo
  import opened Overlay
  import opened VirtualPaths
  import opened Wrappers

  // ---------------------------------------------------------------- renaming forward and back

  ghost predicate NothingAt(c: Cache, dst: Path, isDir: bool) {
    && (forall k :: k in c.files ==> !Matches(k, dst, isDir))
    && (forall k :: k in c.entries ==> !Matches(k, dst, isDir))
    && (forall k :: k in c.deleted ==> !Matches(k, dst, isDir))
  }

  /** The same keys, infos and bytes; a staged file may have moved to its cache path. */
  ghost predicate Restored(c: Cache, b: Cache) {
    SameNames(c, b) && SameReads(c, b)
  }

  predicate SameNames(c: Cache, b: Cache) {
    && b.files.Keys == c.files.Keys && b.entries == c.entries && b.deleted == c.deleted
    && forall k :: k in c.files ==> b.files[k].info == c.files[k].info
  }

  predicate SameReads(c: Cache, b: Cache) {
    forall k :: k in c.files ==> k in b.files && Read(b, k) == Read(c, k)
  }

  /** What a rename moves carries the name of its key. */
  ghost predicate NamedBelow(c: Cache, src: Path, isDir: bool) {
    && (forall k :: k in FileKeys(c.files, src, isDir) ==> c.files[k].info.key == k && !c.files[k].info.slash)
    && forall k :: k in EntryKeys(c.entries, src, isDir) ==> c.entries[k] == Normalize(k, c.entries[k])
  }

  /** No staged file to be moved lies at the new cache path of another one. */
  ghost predicate SourcesClear(c: Cache, src: Path, dst: Path, isDir: bool) {
    forall j, k :: j in FileKeys(c.files, src, isDir) && k in FileKeys(c.files, src, isDir) && j != k ==>
      c.files[j].localPath != CachePath(Rebase(k, src, dst))
  }

  /** A renamed key whose staged file lies at `p`, or whose old or new cache path it is. */
  ghost predicate Leaves(c: Cache, src: Path, isDir: bool, p: DiskPath) {
    exists k :: k in FileKeys(c.files, src, isDir) && c.files[k].localPath == p
  }

  ghost predicate Homes(c: Cache, src: Path, isDir: bool, p: DiskPath) {
    exists k :: k in FileKeys(c.files, src, isDir) && CachePath(k) == p
  }

  ghost predicate Lands(c: Cache, src: Path, dst: Path, isDir: bool, p: DiskPath) {
    exists k :: k in FileKeys(c.files, src, isDir) && CachePath(Rebase(k, src, dst)) == p
  }

  /** A key that stays keeps its bytes when it shares its file with no renamed key, unless that file comes back to
      the same place, and when its file lies at the cache path of a renamed key only if both read the same. */
  ghost predicate StayerKept(c: Cache, src: Path, isDir: bool, j: Path)
    requires j in c.files
  {
    var p := c.files[j].localPath;
    && (Leaves(c, src, isDir, p) ==> Homes(c, src, isDir, p))
    && forall k :: k in FileKeys(c.files, src, isDir) && CachePath(k) == p ==> Read(c, j) == Read(c, k)
  }

  ghost predicate StayersKept(c: Cache, src: Path, isDir: bool) {
    forall j :: j in c.files && j !in FileKeys(c.files, src, isDir) ==> StayerKept(c, src, isDir, j)
  }

  /** The caches that a rename forward and back restores. */
  ghost predicate Restores(c: Cache, src: Path, dst: Path, isDir: bool) {
    && NamedBelow(c, src, isDir)
    && SourcesClear(c, src, dst, isDir)
    && StayersKept(c, src, isDir)
  }

  /** The caches from whose rename there is a way back: every renamed key has its bytes, and its own cache path is
      free but for a file that the rename moves away. */
  ghost predicate BackOpen(c: Cache, src: Path, dst: Path, isDir: bool) {
    && SourcesClear(c, src, dst, isDir)
    && forall k :: k in FileKeys(c.files, src, isDir) ==>
         Read(c, k).Some? && (CachePath(k) in c.disk ==> Leaves(c, src, isDir, CachePath(k)))
  }

  ghost predicate Forth(c: Cache, r: Cache, src: Path, dst: Path, isDir: bool, moves: seq<Move>) {
    Renames(c, r, src, dst, isDir, moves) && Apart(src, dst, isDir) && NothingAt(c, dst, isDir)
  }

  /** The keys that go back are the targets of the keys that went. */
  ghost predicate GoesBack<T>(r: map<Path, T>, moved: set<Path>, back: set<Path>, src: Path, dst: Path, isDir: bool) {
    forall t :: t in back <==> t in r && Matches(t, dst, isDir) && Rebase(t, dst, src) in moved
  }

  lemma RekeyWithBack<T>(m: map<Path, T>, moved: set<Path>, back: set<Path>, src: Path, dst: Path, isDir: bool,
                         f: (Path, T) -> T, k: Path)
    requires Apart(src, dst, isDir) && AllMatch(moved, src, isDir) && moved <= m.Keys
    requires forall j :: j in m ==> !Matches(j, dst, isDir)
    requires GoesBack(RekeyWith(m, moved, src, dst, f), moved, back, src, dst, isDir)
    ensures var b := RekeyWith(RekeyWith(m, moved, src, dst, f), back, dst, src, f);
            && (k in b <==> k in m)
            && (k in m ==> b[k] == if k in moved then f(k, f(RebaseIfBelow(k, src, dst), m[k])) else m[k])
  {
    hide RekeyWith;
    var r := RekeyWith(m, moved, src, dst, f);
    assert Apart(dst, src, isDir) && AllMatch(back, dst, isDir) && back <= r.Keys;
    RekeyWithAt(r, back, dst, src, isDir, f, k);
    RekeyWithAt(m, moved, src, dst, isDir, f, k);
    if Matches(k, src, isDir) {
      RebaseInverse(k, src, dst, isDir);
      RekeyWithAt(m, moved, src, dst, isDir, f, Rebase(k, src, dst));
    }
  }

  lemma FilesGoBack(m: map<Path, LocalFile>, src: Path, dst: Path, isDir: bool)
    requires Apart(src, dst, isDir) && forall j :: j in m ==> !Matches(j, dst, isDir)
    ensures var moved := FileKeys(m, src, isDir); var r := RekeyWith(m, moved, src, dst, Retarget);
            GoesBack(r, moved, FileKeys(r, dst, isDir), src, dst, isDir)
  {
    hide RekeyWith;
    var moved := FileKeys(m, src, isDir);
    var r := RekeyWith(m, moved, src, dst, Retarget);
    forall t | t in r && Matches(t, dst, isDir)
      ensures Rebase(t, dst, src) in moved && (isDir ==> dst < t)
    {
      RekeyWithAt(m, moved, src, dst, isDir, Retarget, t);
      assert Rebase(dst, dst, src) == src;
    }
  }

  lemma EntriesGoBack<T>(m: map<Path, T>, src: Path, dst: Path, isDir: bool, f: (Path, T) -> T)
    requires Apart(src, dst, isDir) && forall j :: j in m ==> !Matches(j, dst, isDir)
    ensures var moved := EntryKeys(m, src, isDir); var r := RekeyWith(m, moved, src, dst, f);
            GoesBack(r, moved, EntryKeys(r, dst, isDir), src, dst, isDir)
  {
    hide RekeyWith;
    var moved := EntryKeys(m, src, isDir);
    var r := RekeyWith(m, moved, src, dst, f);
    forall t | t in r && Matches(t, dst, isDir)
      ensures Rebase(t, dst, src) in moved
    {
      RekeyWithAt(m, moved, src, dst, isDir, f, t);
    }
  }

  /** The indexes after a rename forward and back: the moved infos and entries are named by their keys. */
  lemma IndexesBack(c: Cache, src: Path, dst: Path, isDir: bool)
    requires Apart(src, dst, isDir) && NothingAt(c, dst, isDir)
    ensures var entries := NewEntries(c, src, dst, isDir); var deleted := NewDeleted(c, src, dst, isDir);
            var b := RekeyWith(entries, EntryKeys(entries, dst, isDir), dst, src, Normalize);
            && (b == c.entries <==> forall k :: k in EntryKeys(c.entries, src, isDir) ==>
                                      c.entries[k] == Normalize(k, c.entries[k]))
            && RekeyWith(deleted, EntryKeys(deleted, dst, isDir), dst, src, Same) == c.deleted
  {
    var entries, deleted := NewEntries(c, src, dst, isDir), NewDeleted(c, src, dst, isDir);
    hide RekeyWith;
    EntriesGoBack(c.entries, src, dst, isDir, Normalize);
    EntriesGoBack(c.deleted, src, dst, isDir, Same);
    forall k
      ensures var b := RekeyWith(entries, EntryKeys(entries, dst, isDir), dst, src, Normalize);
              && (k in b <==> k in c.entries)
              && (k in b ==> b[k] == if k in EntryKeys(c.entries, src, isDir) then Normalize(k, c.entries[k])
                                     else c.entries[k])
      ensures var b := RekeyWith(deleted, EntryKeys(deleted, dst, isDir), dst, src, Same);
              (k in b <==> k in c.deleted) && (k in b ==> b[k] == c.deleted[k])
    {
      RekeyWithBack(c.entries, EntryKeys(c.entries, src, isDir), EntryKeys(entries, dst, isDir), src, dst, isDir,
                    Normalize, k);
      RekeyWithBack(c.deleted, EntryKeys(c.deleted, src, isDir), EntryKeys(deleted, dst, isDir), src, dst, isDir, Same,
                    k);
    }
  }

  lemma FilesBack(c: Cache, src: Path, dst: Path, isDir: bool, k: Path)
    requires Apart(src, dst, isDir) && NothingAt(c, dst, isDir)
    ensures var moved, files := FileKeys(c.files, src, isDir), NewFiles(c, src, dst, isDir);
            var b := RekeyWith(files, FileKeys(files, dst, isDir), dst, src, Retarget);
            && (k in b <==> k in c.files)
            && (k in c.files ==> b[k] == if k in moved then Retarget(k, c.files[k]) else c.files[k])
  {
    var files := NewFiles(c, src, dst, isDir);
    hide RekeyWith;
    FilesGoBack(c.files, src, dst, isDir);
    RekeyWithBack(c.files, FileKeys(c.files, src, isDir), FileKeys(files, dst, isDir), src, dst, isDir, Retarget, k);
  }

  lemma KeyOf(moves: seq<Move>, keys: set<Path>, c: Cache, src: Path, dst: Path, m: Move)
    requires ListsMoves(moves, keys, c, src, dst) && m in moves
    ensures IsMove(m, c, src, dst) && m.oldKey in keys
  {
    var i :| 0 <= i < |moves| && moves[i] == m;
    assert IsMove(moves[i], c, src, dst) && moves[i].oldKey in keys;
  }

  /** Once a rename is done, what matches its target sits at its own cache path. */
  lemma TargetsOwn(c: Cache, src: Path, dst: Path, isDir: bool, t: Path)
    requires Apart(src, dst, isDir) && NothingAt(c, dst, isDir)
    requires t in NewFiles(c, src, dst, isDir) && Matches(t, dst, isDir)
    ensures NewFiles(c, src, dst, isDir)[t].localPath == CachePath(t)
    ensures Rebase(t, dst, src) in FileKeys(c.files, src, isDir)
  {
    hide RekeyWith;
    RekeyWithAt(c.files, FileKeys(c.files, src, isDir), src, dst, isDir, Retarget, t);
  }

  /** The move of a given key. */
  lemma MoveFor(moves: seq<Move>, keys: set<Path>, c: Cache, src: Path, dst: Path, k: Path) returns (m: Move)
    requires ListsMoves(moves, keys, c, src, dst) && k in keys
    ensures m in moves && m.oldKey == k && IsMove(m, c, src, dst)
  {
    var i :| 0 <= i < |moves| && moves[i].oldKey == k;
    m := moves[i];
    assert IsMove(moves[i], c, src, dst);
  }

  // ---------------------------------------------------------------- the moves, said of keys

  ghost predicate ListsForward(c: Cache, src: Path, dst: Path, isDir: bool, there: seq<Move>) {
    && (forall m :: m in there ==> m.oldKey in FileKeys(c.files, src, isDir) && m.item == c.files[m.oldKey]
                                   && m.newKey == Rebase(m.oldKey, src, dst))
    && forall k :: k in FileKeys(c.files, src, isDir) ==> exists m :: m in there && m.oldKey == k
  }

  ghost predicate ListsBack(c: Cache, src: Path, dst: Path, isDir: bool, back: seq<Move>) {
    && (forall m :: m in back ==> m.newKey in FileKeys(c.files, src, isDir) && !m.Skips()
                                  && m.OldPath() == CachePath(Rebase(m.newKey, src, dst)))
    && forall k :: k in FileKeys(c.files, src, isDir) ==> exists m :: m in back && m.newKey == k
  }

  lemma ForwardKeys(c: Cache, src: Path, dst: Path, isDir: bool, there: seq<Move>)
    requires ListsMoves(there, FileKeys(c.files, src, isDir), c, src, dst) && Apart(src, dst, isDir)
    ensures ListsForward(c, src, dst, isDir, there) && DistinctTargets(there)
    ensures TargetsClear(there) <==> SourcesClear(c, src, dst, isDir)
  {
    var keys := FileKeys(c.files, src, isDir);
    ListsDistinct(there, keys, c, src, dst);
    forall m | m in there
      ensures m.oldKey in keys && IsMove(m, c, src, dst)
    {
      KeyOf(there, keys, c, src, dst, m);
    }
    forall k | k in keys
      ensures exists m :: m in there && m.oldKey == k
    {
      var m := MoveFor(there, keys, c, src, dst, k);
    }
    ClearOnKeys(c, src, dst, isDir, there);
  }

  lemma ClearOnKeys(c: Cache, src: Path, dst: Path, isDir: bool, there: seq<Move>)
    requires ListsForward(c, src, dst, isDir, there) && Apart(src, dst, isDir)
    ensures TargetsClear(there) <==> SourcesClear(c, src, dst, isDir)
  {
    var keys := FileKeys(c.files, src, isDir);
    if TargetsClear(there) {
      forall j, k | j in keys && k in keys && j != k
        ensures c.files[j].localPath != CachePath(Rebase(k, src, dst))
      {
        var m :| m in there && m.oldKey == j;
        var n :| n in there && n.oldKey == k;
        RebaseInverse(j, src, dst, isDir);
        RebaseInverse(k, src, dst, isDir);
      }
    }
    if SourcesClear(c, src, dst, isDir) {
      forall m, n | m in there && n in there && m.newKey != n.newKey
        ensures m.OldPath() != n.NewPath()
      {
      }
    }
  }

  lemma BackKeys(c: Cache, r: Cache, src: Path, dst: Path, isDir: bool, there: seq<Move>, back: seq<Move>)
    requires Forth(c, r, src, dst, isDir, there) && ListsMoves(back, FileKeys(r.files, dst, isDir), r, dst, src)
    ensures ListsBack(c, src, dst, isDir, back) && DistinctTargets(back) && TargetsClear(back)
  {
    hide ApplyAll, RekeyWith, ListsMoves;
    var keys, gone := FileKeys(c.files, src, isDir), FileKeys(r.files, dst, isDir);
    ListsDistinct(back, gone, r, dst, src);
    forall m | m in back
      ensures m.newKey in keys && m.OldPath() == CachePath(Rebase(m.newKey, src, dst)) && !m.Skips()
    {
      KeyOf(back, gone, r, dst, src, m);
      TargetsOwn(c, src, dst, isDir, m.oldKey);
      RebaseBack(m.oldKey, dst, src, isDir);
      RebaseInverse(m.newKey, src, dst, isDir);
    }
    forall k | k in keys
      ensures exists m :: m in back && m.newKey == k
    {
      RebaseInverse(k, src, dst, isDir);
      FilesGoBack(c.files, src, dst, isDir);
      RekeyWithAt(c.files, keys, src, dst, isDir, Retarget, Rebase(k, src, dst));
      var m := MoveFor(back, gone, r, dst, src, Rebase(k, src, dst));
    }
    BackClear(c, src, dst, isDir, back);
  }

  lemma BackClear(c: Cache, src: Path, dst: Path, isDir: bool, back: seq<Move>)
    requires ListsBack(c, src, dst, isDir, back) && Apart(src, dst, isDir)
    ensures TargetsClear(back)
  {
    forall m, n | m in back && n in back
      ensures m.OldPath() != n.NewPath()
    {
      RebaseInverse(m.newKey, src, dst, isDir);
    }
  }

  // ---------------------------------------------------------------- the disk after each way

  /** The disk after the way forward, path by path. */
  lemma ForthDisk(c: Cache, r: Cache, src: Path, dst: Path, isDir: bool, there: seq<Move>, p: DiskPath)
    requires Forth(c, r, src, dst, isDir, there) && SourcesClear(c, src, dst, isDir)
    ensures var leaves, lands := Leaves(c, src, isDir, p), Lands(c, src, dst, isDir, p);
            && (lands == leaves ==> (p in r.disk <==> p in c.disk) && (p in c.disk ==> r.disk[p] == c.disk[p]))
            && (lands && !leaves ==> p !in c.disk)
            && (leaves && !lands ==> p in c.disk && p !in r.disk)
  {
    hide ApplyAll, RekeyWith, FileKeys, NothingAt, ListsMoves;
    ForwardKeys(c, src, dst, isDir, there);
    RealMembers(there);
    hide ListsForward, SourcesClear;
    var moved := Real(there);
    AppliedAt(c.disk, moved, p);
    SourceOrNot(c.disk, moved, p);
    PathsOfMoves(c, src, dst, isDir, there, p);
  }

  lemma SourceOrNot(d: Disk, moved: seq<Move>, p: DiskPath)
    requires ApplyAll(d, moved).Some?
    ensures !IsTarget(moved, p) && IsSource(moved, p) ==> p in d && p !in ApplyAll(d, moved).value
  {
    if !IsTarget(moved, p) {
      SourceUsed(d, moved, p);
    }
  }

  /** Which paths the real moves take from and put to. */
  lemma PathsOfMoves(c: Cache, src: Path, dst: Path, isDir: bool, there: seq<Move>, p: DiskPath)
    requires ListsForward(c, src, dst, isDir, there) && TargetsClear(there) && DistinctTargets(there)
    requires forall m :: m in Real(there) <==> m in there && !m.Skips()
    ensures var leaves, lands := Leaves(c, src, isDir, p), Lands(c, src, dst, isDir, p);
            && (IsSource(Real(there), p) <==> leaves && !lands) && (IsTarget(Real(there), p) <==> lands && !leaves)
  {
    hide Real;
    assert Leaves(c, src, isDir, p) <==> IsSource(there, p) by {
      if IsSource(there, p) {
        var m :| m in there && m.OldPath() == p;
        assert m.oldKey in FileKeys(c.files, src, isDir);
      }
    }
    assert Lands(c, src, dst, isDir, p) <==> IsTarget(there, p) by {
      if IsTarget(there, p) {
        var m :| m in there && m.NewPath() == p;
        assert m.oldKey in FileKeys(c.files, src, isDir);
      }
    }
    RealPaths(there, p);
  }

  lemma RealPaths(there: seq<Move>, p: DiskPath)
    requires TargetsClear(there) && DistinctTargets(there) && forall m :: m in Real(there) <==> m in there && !m.Skips()
    ensures IsSource(Real(there), p) <==> IsSource(there, p) && !IsTarget(there, p)
    ensures IsTarget(Real(there), p) <==> IsTarget(there, p) && !IsSource(there, p)
  {
    hide Real;
    if m :| m in there && m.OldPath() == p {
      assert !m.Skips() ==> m in Real(there);
    }
    if m :| m in there && m.NewPath() == p {
      assert !m.Skips() ==> m in Real(there);
      SameTarget(there, m);
    }
  }

  /** The disk after the way back. */
  lemma BackDisk(c: Cache, r: Cache, b: Cache, src: Path, dst: Path, isDir: bool, there: seq<Move>, back: seq<Move>,
                 p: DiskPath)
    requires Forth(c, r, src, dst, isDir, there) && Renames(r, b, dst, src, isDir, back)
    requires !Homes(c, src, isDir, p)
    ensures Lands(c, src, dst, isDir, p) ==> p in r.disk && p !in b.disk
    ensures !Lands(c, src, dst, isDir, p) ==> (p in b.disk <==> p in r.disk) && (p in r.disk ==> b.disk[p] == r.disk[p])
  {
    hide ApplyAll, RekeyWith, FileKeys, NothingAt, ListsMoves;
    BackKeys(c, r, src, dst, isDir, there, back);
    hide Forth;
    AllReal(back);
    hide Real;
    BackPaths(c, src, dst, isDir, back, p);
    ClearOf(r.disk, back);
    AppliedAt(r.disk, back, p);
    SourceOrNot(r.disk, back, p);
  }

  lemma ClearOf(d: Disk, moves: seq<Move>)
    requires forall m :: m in moves ==> !m.Skips() && m.NewPath() !in d
    ensures Clear(d, moves)
  {
  }

  lemma BackPaths(c: Cache, src: Path, dst: Path, isDir: bool, back: seq<Move>, p: DiskPath)
    requires ListsBack(c, src, dst, isDir, back)
    ensures IsTarget(back, p) <==> Homes(c, src, isDir, p)
    ensures IsSource(back, p) <==> Lands(c, src, dst, isDir, p)
  {
    if IsTarget(back, p) {
      var m :| m in back && m.NewPath() == p;
      assert m.newKey in FileKeys(c.files, src, isDir);
    }
    if IsSource(back, p) {
      var m :| m in back && m.OldPath() == p;
      assert m.newKey in FileKeys(c.files, src, isDir);
    }
  }

  // ---------------------------------------------------------------- the bytes

  /** Renamed keys read their old bytes again exactly when the way forward kept them. */
  lemma MovedReadsBack(c: Cache, r: Cache, b: Cache, src: Path, dst: Path, isDir: bool, there: seq<Move>,
                       back: seq<Move>, k: Path)
    requires Forth(c, r, src, dst, isDir, there) && Renames(r, b, dst, src, isDir, back)
    requires k in FileKeys(c.files, src, isDir)
    ensures k in b.files && Rebase(k, src, dst) in r.files && Read(b, k) == Read(r, Rebase(k, src, dst))
  {
    hide ApplyAll, RekeyWith, ListsMoves;
    BackKeys(c, r, src, dst, isDir, there, back);
    ApartBack(src, dst, isDir);
    RenamedReadsIff(r, b, dst, src, isDir, back);
    var m :| m in back && m.newKey == k;
    RenamedKey(r, b, dst, src, isDir, back, m);
    KeyOf(back, FileKeys(r.files, dst, isDir), r, dst, src, m);
    RebaseBack(m.oldKey, dst, src, isDir);
  }

  lemma ReadsKeptOnKeys(c: Cache, r: Cache, src: Path, dst: Path, isDir: bool, there: seq<Move>)
    requires Forth(c, r, src, dst, isDir, there)
    ensures SourcesClear(c, src, dst, isDir) <==>
              forall k :: k in FileKeys(c.files, src, isDir) ==>
                Rebase(k, src, dst) in r.files && Read(r, Rebase(k, src, dst)) == Read(c, k)
  {
    hide ApplyAll, RekeyWith, ListsMoves, SourcesClear, NothingAt, TargetsClear, Read;
    ForwardKeys(c, src, dst, isDir, there);
    RenamedReadsIff(c, r, src, dst, isDir, there);
    forall m | m in there
      ensures m.newKey in r.files
    {
      RenamedKey(c, r, src, dst, isDir, there, m);
    }
  }

  lemma OtherReadsIff(c: Cache, r: Cache, b: Cache, src: Path, dst: Path, isDir: bool, there: seq<Move>,
                      back: seq<Move>, j: Path)
    requires Forth(c, r, src, dst, isDir, there) && Renames(r, b, dst, src, isDir, back)
    requires SourcesClear(c, src, dst, isDir) && j in c.files && j !in FileKeys(c.files, src, isDir)
    requires j in b.files && b.files[j].localPath == c.files[j].localPath
    requires forall k :: k in FileKeys(c.files, src, isDir) ==>
               k in c.files && k in b.files && b.files[k].localPath == CachePath(k) && Read(b, k) == Read(c, k)
    ensures Read(b, j) == Read(c, j) <==> StayerKept(c, src, isDir, j)
  {
    hide Forth, Renames, SourcesClear, FileKeys;
    var p := c.files[j].localPath;
    ForthDisk(c, r, src, dst, isDir, there, p);
    if Homes(c, src, isDir, p) {
      var k :| k in FileKeys(c.files, src, isDir) && CachePath(k) == p;
      assert Read(b, j) == Read(b, k) == Read(c, k);
    } else {
      BackDisk(c, r, b, src, dst, isDir, there, back, p);
    }
  }

  lemma StayersBack(c: Cache, r: Cache, b: Cache, src: Path, dst: Path, isDir: bool, there: seq<Move>,
                    back: seq<Move>)
    requires Forth(c, r, src, dst, isDir, there) && Renames(r, b, dst, src, isDir, back)
    requires SourcesClear(c, src, dst, isDir)
    ensures forall j :: j in c.files && j !in FileKeys(c.files, src, isDir) ==>
              j in b.files && (Read(b, j) == Read(c, j) <==> StayerKept(c, src, isDir, j))
  {
    hide Forth, Renames, NamedBelow, FileKeys, SourcesClear, StayerKept, Read, SameNames;
    NamesBack(c, r, b, src, dst, isDir, there, back);
    MovedKept(c, r, b, src, dst, isDir, there, back);
    KeysIn(c.files, src, isDir);
    forall j | j in c.files && j !in FileKeys(c.files, src, isDir)
      ensures Read(b, j) == Read(c, j) <==> StayerKept(c, src, isDir, j)
    {
      OtherReadsIff(c, r, b, src, dst, isDir, there, back, j);
    }
  }

  lemma ReadsCross(c: Cache, r: Cache, b: Cache, src: Path, dst: Path, isDir: bool, there: seq<Move>, back: seq<Move>)
    requires Forth(c, r, src, dst, isDir, there) && Renames(r, b, dst, src, isDir, back)
    requires !SourcesClear(c, src, dst, isDir)
    ensures !SameReads(c, b)
  {
    hide Forth, Renames, FileKeys, SourcesClear, Read;
    MovedKept(c, r, b, src, dst, isDir, there, back);
    KeysIn(c.files, src, isDir);
  }

  lemma ReadsStay(c: Cache, r: Cache, b: Cache, src: Path, dst: Path, isDir: bool, there: seq<Move>, back: seq<Move>)
    requires Forth(c, r, src, dst, isDir, there) && Renames(r, b, dst, src, isDir, back)
    requires SourcesClear(c, src, dst, isDir)
    ensures SameReads(c, b) <==> StayersKept(c, src, isDir)
  {
    hide Forth, Renames, FileKeys, SourcesClear, StayerKept, Read;
    MovedKept(c, r, b, src, dst, isDir, there, back);
    StayersBack(c, r, b, src, dst, isDir, there, back);
  }

  /** Every key reads its old bytes again exactly when moves stay clear and stayers are kept. */
  lemma AllReadsBackIff(c: Cache, r: Cache, b: Cache, src: Path, dst: Path, isDir: bool, there: seq<Move>,
                        back: seq<Move>)
    requires Forth(c, r, src, dst, isDir, there) && Renames(r, b, dst, src, isDir, back)
    ensures SameReads(c, b) <==> SourcesClear(c, src, dst, isDir) && StayersKept(c, src, isDir)
  {
    hide Forth, Renames, SameReads, SourcesClear, StayersKept;
    if SourcesClear(c, src, dst, isDir) {
      ReadsStay(c, r, b, src, dst, isDir, there, back);
    } else {
      ReadsCross(c, r, b, src, dst, isDir, there, back);
    }
  }

  /** With nothing cached at the destination, renaming forward and back restores the keys, infos and bytes of a cache
      exactly when it names what it moves by its keys, moves no file onto another one's way, and lets no key that
      stays depend on a file that is moved. */
  lemma ForwardAndBackIff(c: Cache, r: Cache, b: Cache, src: Path, dst: Path, isDir: bool, there: seq<Move>,
                          back: seq<Move>)
    requires Forth(c, r, src, dst, isDir, there) && Renames(r, b, dst, src, isDir, back)
    ensures Restored(c, b) <==> Restores(c, src, dst, isDir)
  {
    hide Forth, Renames, NamedBelow, SourcesClear, StayersKept, SameNames, SameReads;
    NamesBack(c, r, b, src, dst, isDir, there, back);
    AllReadsBackIff(c, r, b, src, dst, isDir, there, back);
  }

  /** What the indexes say after both ways. */
  lemma NamesBack(c: Cache, r: Cache, b: Cache, src: Path, dst: Path, isDir: bool, there: seq<Move>, back: seq<Move>)
    requires Forth(c, r, src, dst, isDir, there) && Renames(r, b, dst, src, isDir, back)
    ensures b.files.Keys == c.files.Keys && b.deleted == c.deleted
    ensures forall k :: k in c.files ==>
              b.files[k].localPath == if k in FileKeys(c.files, src, isDir) then CachePath(k) else c.files[k].localPath
    ensures SameNames(c, b) <==> NamedBelow(c, src, isDir)
  {
    hide RekeyWith, ListsMoves, ApplyAll;
    IndexesBack(c, src, dst, isDir);
    forall k
      ensures k in b.files <==> k in c.files
      ensures k in c.files ==> b.files[k] == if k in FileKeys(c.files, src, isDir) then Retarget(k, c.files[k])
                                             else c.files[k]
    {
      FilesBack(c, src, dst, isDir, k);
    }
    hide NothingAt, EntryKeys, NewFiles, NewEntries, NewDeleted, FileKeys;
    assert forall k :: k in FileKeys(c.files, src, isDir) ==> k in c.files by {
      KeysIn(c.files, src, isDir);
    }
  }

  lemma KeysIn<T>(m: map<Path, T>, src: Path, isDir: bool)
    ensures FileKeys(m, src, isDir) <= m.Keys
  {
  }

  lemma MovedKept(c: Cache, r: Cache, b: Cache, src: Path, dst: Path, isDir: bool, there: seq<Move>, back: seq<Move>)
    requires Forth(c, r, src, dst, isDir, there) && Renames(r, b, dst, src, isDir, back)
    ensures SourcesClear(c, src, dst, isDir) <==>
              forall k :: k in FileKeys(c.files, src, isDir) ==> k in b.files && Read(b, k) == Read(c, k)
  {
    hide Forth, Renames, SourcesClear, Read;
    ReadsKeptOnKeys(c, r, src, dst, isDir, there);
    forall k | k in FileKeys(c.files, src, isDir)
      ensures k in b.files && Rebase(k, src, dst) in r.files && Read(b, k) == Read(r, Rebase(k, src, dst))
    {
      MovedReadsBack(c, r, b, src, dst, isDir, there, back, k);
    }
  }

  // ---------------------------------------------------------------- when the way back is open

  lemma {:induction false} AllPresent(d: Disk, moved: seq<Move>)
    requires TargetsClear(moved) && forall m :: m in moved ==> m.OldPath() in d
    requires forall i, j :: 0 <= i < j < |moved| ==> moved[i].OldPath() != moved[j].OldPath()
    ensures ApplyAll(d, moved).Some?
    ensures forall p :: p in d && !IsSource(moved, p) ==> p in ApplyAll(d, moved).value
  {
    if moved == [] {
    } else {
      var front, last := moved[..|moved| - 1], moved[|moved| - 1];
      assert moved == front + [last];
      AllPresent(d, front);
      forall m | m in front
        ensures m.OldPath() != last.OldPath()
      {
        var i :| 0 <= i < |front| && front[i] == m;
        assert moved[i] == m;
      }
      assert !IsSource(front, last.OldPath());
    }
  }

  lemma Unhindered(d: Disk, moves: seq<Move>, faults: Faults)
    ensures (forall m :: NoFaults(faults, m)) ==> (AllMovable(d, moves, faults) <==> AllMovable(d, moves, NOFAULTS))
  {
    hide ApplyAll, Real;
    if forall m :: NoFaults(faults, m) {
      assert forall i :: 0 <= i < |moves| ==> NoFaults(faults, moves[i]) && NoFaults(NOFAULTS, moves[i]);
    }
  }

  const NOFAULTS := Faults(_ => false, _ => false, _ => false)

  lemma {:induction false} AllReal(moves: seq<Move>)
    requires forall m :: m in moves ==> !m.Skips()
    ensures Real(moves) == moves
  {
    if moves == [] {
    } else {
      var front, last := moves[..|moves| - 1], moves[|moves| - 1];
      assert moves == front + [last];
      AllReal(front);
    }
  }

  /** Moves that are all real, take from free places and put to others are made exactly when each finds its file, and
      no target is taken. */
  lemma MovableIff(d: Disk, moves: seq<Move>)
    requires TargetsClear(moves) && forall m :: m in moves ==> !m.Skips()
    requires forall i, j :: 0 <= i < j < |moves| ==> moves[i].OldPath() != moves[j].OldPath()
    ensures AllMovable(d, moves, NOFAULTS) <==> forall m :: m in moves ==> m.OldPath() in d && m.NewPath() !in d
  {
    hide ApplyAll, Real;
    AllReal(moves);
    if forall m :: m in moves ==> m.OldPath() in d {
      AllPresent(d, moves);
    }
    if AllMovable(d, moves, NOFAULTS) {
      forall m | m in moves
        ensures m.OldPath() in d && m.NewPath() !in d
      {
        assert IsSource(moves, m.OldPath()) && !IsTarget(moves, m.OldPath());
        SourceUsed(d, moves, m.OldPath());
      }
    }
  }

  lemma OldPathsDiffer(c: Cache, src: Path, dst: Path, isDir: bool, back: seq<Move>)
    requires ListsBack(c, src, dst, isDir, back) && DistinctTargets(back) && Apart(src, dst, isDir)
    ensures forall i, j :: 0 <= i < j < |back| ==> back[i].OldPath() != back[j].OldPath()
  {
    forall i, j | 0 <= i < j < |back|
      ensures back[i].OldPath() != back[j].OldPath()
    {
      assert back[i] in back && back[j] in back;
      RebaseInverse(back[i].newKey, src, dst, isDir);
      RebaseInverse(back[j].newKey, src, dst, isDir);
    }
  }

  /** When a source lies on another move's target, some target ends up without a file. */
  lemma {:induction false} TargetLost(d: Disk, moved: seq<Move>) returns (m: Move)
    requires ApplyAll(d, moved).Some? && Clear(d, moved) && DistinctTargets(moved) && !TargetsClear(moved)
    ensures m in moved && m.NewPath() !in ApplyAll(d, moved).value
  {
    hide TargetsClear;
    if moved == [] {
      ClearNone();
      assert false;
    }
    var front, last := moved[..|moved| - 1], moved[|moved| - 1];
    assert moved == front + [last];
    NotBoth(front, last);
    if n :| n in front && n.NewPath() == last.OldPath() {
      m := n;
    } else {
      ChainBefore(d, front, last);
      m := TargetLost(d, front);
    }
  }

  lemma ChainBefore(d: Disk, front: seq<Move>, last: Move)
    requires ApplyAll(d, front + [last]).Some? && DistinctTargets(front + [last]) && !TargetsClear(front + [last])
    requires (forall m :: m in front + [last] ==> m.NewPath() !in d)
    requires forall n :: n in front ==> n.NewPath() != last.OldPath()
    ensures !TargetsClear(front)
  {
    hide ApplyAll;
    var moved, p := front + [last], last.NewPath();
    ApplyAllPrefix(d, front, [last]);
    NotBoth(front, last);
    assert !IsTarget(front, p);
    SourceUsed(d, front, p);
    assert last in moved && !IsSource(front, p);
    var x, y :| x in moved && y in moved && x.newKey != y.newKey && x.OldPath() == y.NewPath();
    assert x in front ==> IsSource(front, x.OldPath());
  }

  lemma LostTarget(d: Disk, there: seq<Move>) returns (m: Move)
    requires ApplyAll(d, Real(there)).Some? && DistinctTargets(there) && !TargetsClear(there)
    requires forall n :: n in there && !n.Skips() ==> n.NewPath() !in d
    ensures m in there && m.NewPath() !in ApplyAll(d, Real(there)).value
  {
    hide ApplyAll;
    RealMembers(there);
    var moved := Real(there);
    if !TargetsClear(moved) {
      m := TargetLost(d, moved);
    } else {
      var x, y :| x in there && y in there && x.newKey != y.newKey && x.OldPath() == y.NewPath();
      SameTarget(there, y);
      assert x in moved && y !in moved;
      assert !IsTarget(moved, y.NewPath());
      SourceUsed(d, moved, y.NewPath());
      m := y;
    }
  }

  /** Every renamed key has its file at the new cache path exactly when no file got in another one's way and every
      renamed key had its bytes. */
  lemma AllArrivedIff(c: Cache, r: Cache, src: Path, dst: Path, isDir: bool, there: seq<Move>)
    requires Forth(c, r, src, dst, isDir, there)
    ensures (forall k :: k in FileKeys(c.files, src, isDir) ==> CachePath(Rebase(k, src, dst)) in r.disk)
       <==> SourcesClear(c, src, dst, isDir) && forall k :: k in FileKeys(c.files, src, isDir) ==> Read(c, k).Some?
  {
    ForwardKeys(c, src, dst, isDir, there);
    ReadsKeptOnKeys(c, r, src, dst, isDir, there);
    forall k | k in FileKeys(c.files, src, isDir)
      ensures Rebase(k, src, dst) in r.files && r.files[Rebase(k, src, dst)].localPath == CachePath(Rebase(k, src, dst))
    {
      var m :| m in there && m.oldKey == k;
      RenamedKey(c, r, src, dst, isDir, there, m);
    }
    hide ApplyAll, RekeyWith, ListsMoves, SourcesClear, NothingAt, FileKeys, TargetsClear;
    if !TargetsClear(there) {
      var m := LostTarget(c.disk, there);
      assert m.oldKey in FileKeys(c.files, src, isDir);
    }
  }

  lemma HomesFreeIff(c: Cache, r: Cache, src: Path, dst: Path, isDir: bool, there: seq<Move>, k: Path)
    requires Forth(c, r, src, dst, isDir, there) && SourcesClear(c, src, dst, isDir)
    requires k in FileKeys(c.files, src, isDir)
    ensures CachePath(k) !in r.disk <==> (CachePath(k) in c.disk ==> Leaves(c, src, isDir, CachePath(k)))
  {
    ForthDisk(c, r, src, dst, isDir, there, CachePath(k));
    if j :| j in FileKeys(c.files, src, isDir) && CachePath(Rebase(j, src, dst)) == CachePath(k) {
      RebaseInverse(j, src, dst, isDir);
    }
  }

  /** With nothing cached at the destination, the rollback of a rename succeeds exactly when every renamed key had its
      bytes, none lay on another one's way, and no other file lay at the cache path of a renamed key. */
  lemma BackPossibleIff(c: Cache, r: Cache, src: Path, dst: Path, isDir: bool, there: seq<Move>, back: seq<Move>)
    requires Forth(c, r, src, dst, isDir, there) && ListsMoves(back, FileKeys(r.files, dst, isDir), r, dst, src)
    ensures AllMovable(r.disk, back, NOFAULTS) <==> BackOpen(c, src, dst, isDir)
  {
    BackKeys(c, r, src, dst, isDir, there, back);
    OldPathsDiffer(c, src, dst, isDir, back);
    MovableIff(r.disk, back);
    AllArrivedIff(c, r, src, dst, isDir, there);
    hide AllMovable, Forth, FileKeys, SourcesClear, TargetsClear, Leaves, ListsMoves, Read, DistinctTargets;
    OnKeys(c, r, src, dst, isDir, back);
    if SourcesClear(c, src, dst, isDir) {
      forall k | k in FileKeys(c.files, src, isDir)
        ensures CachePath(k) !in r.disk <==> (CachePath(k) in c.disk ==> Leaves(c, src, isDir, CachePath(k)))
      {
        HomesFreeIff(c, r, src, dst, isDir, there, k);
      }
    }
  }

  lemma OnKeys(c: Cache, r: Cache, src: Path, dst: Path, isDir: bool, back: seq<Move>)
    requires ListsBack(c, src, dst, isDir, back)
    ensures (forall m :: m in back ==> m.OldPath() in r.disk && m.NewPath() !in r.disk)
       <==> forall k :: k in FileKeys(c.files, src, isDir) ==>
              CachePath(Rebase(k, src, dst)) in r.disk && CachePath(k) !in r.disk
  {
    if forall m :: m in back ==> m.OldPath() in r.disk && m.NewPath() !in r.disk {
      forall k | k in FileKeys(c.files, src, isDir)
        ensures CachePath(Rebase(k, src, dst)) in r.disk && CachePath(k) !in r.disk
      {
        var m :| m in back && m.newKey == k;
      }
    }
  }

  // ---------------------------------------------------------------- the rename with its journal call

  datatype MetadataRename = Accepted | CacheFailed | RolledBack | RollbackFailed

  predicate NoFaults(faults: Faults, m: Move) {
    !faults.check(m) && !faults.move(m) && !faults.undo(m)
  }

  /** The rename of a metadata-backed mount: the cache first, then the journal, and back when the journal rejects. */
  method RenameMetadataPath(cache: BucketCache, src: Path, dst: Path, isDir: bool, accepts: bool, faults: Faults)
    returns (result: MetadataRename, ghost there: seq<Move>, ghost between: Cache)
    requires src != dst ==> Apart(src, dst, isDir)
    modifies cache, cache.fs
    ensures result.Accepted? ==> accepts
    ensures result.RolledBack? || result.RollbackFailed? ==> !accepts
    ensures src == dst ==> cache.Now() == old(cache.Now()) && result == if accepts then Accepted else RolledBack
    ensures src != dst ==>
              var c, r := old(cache.Now()), cache.Now();
              match result
              case Accepted => Renames(c, r, src, dst, isDir, there)
              case CacheFailed => (forall m :: !faults.undo(m)) ==> r == c
              case RolledBack =>
                NothingAt(c, dst, isDir) ==>
                  && (Restored(c, r) <==> Restores(c, src, dst, isDir))
                  && ((forall m :: NoFaults(faults, m)) ==> BackOpen(c, src, dst, isDir))
              case RollbackFailed =>
                && Renames(c, between, src, dst, isDir, there)
                && (NothingAt(c, dst, isDir) && (forall m :: NoFaults(faults, m)) ==> !BackOpen(c, src, dst, isDir))
  {
    hide Renames, ListsMoves, NothingAt, Restored, Restores, BackOpen, Apart;
    ghost var c := cache.Now();
    var ok;
    ok, there := RenameLocalFile(cache, src, dst, isDir, faults);
    between := cache.Now();
    if !ok {
      return CacheFailed, there, between;
    }
    if accepts {
      return Accepted, there, between;
    }
    ApartBack(src, dst, isDir);
    ghost var back;
    ok, back := RenameLocalFile(cache, dst, src, isDir, faults);
    result := if ok then RolledBack else RollbackFailed;
    if src != dst && NothingAt(c, dst, isDir) {
      BackPossibleIff(c, between, src, dst, isDir, there, back);
      Unhindered(between.disk, back, faults);
      if ok {
        ForwardAndBackIff(c, between, cache.Now(), src, dst, isDir, there, back);
      }
    }
  }

  lemma ApartBack(src: Path, dst: Path, isDir: bool)
    ensures Apart(src, dst, isDir) ==> Apart(dst, src, isDir)
  {
  }
}
