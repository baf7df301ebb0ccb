/** The cache side of a rename, bucket_cache_rename.go: staged bytes move before the indexes that point at them. */
module CacheRename {
  import opened ObjectInfo
  import opened Overlay
  import opened VirtualPaths
  import opened Wrappers

  datatype Move = Move(oldKey: Path, newKey: Path, item: LocalFile)
  {
    function OldPath(): DiskPath { item.localPath }
    function NewPath(): DiskPath { CachePath(newKey) }
    predicate Skips() { OldPath() == NewPath() }
  }

  /** The file operations that the operating system refuses. */
  datatype Faults = Faults(check: Move -> bool, move: Move -> bool, undo: Move -> bool)

  // ---------------------------------------------------------------- moving files, all or none

  function Apply(d: Disk, m: Move): Option<Disk> {
    if m.OldPath() in d then Some((d - {m.OldPath()})[m.NewPath() := d[m.OldPath()]]) else None
  }

  function ApplyAll(d: Disk, moves: seq<Move>): Option<Disk> {
    if moves == [] then Some(d)
    else match ApplyAll(d, moves[..|moves| - 1])
      case None => None
      case Some(e) => Apply(e, moves[|moves| - 1])
  }

  function Real(moves: seq<Move>): seq<Move> {
    if moves == [] then []
    else Real(moves[..|moves| - 1]) + (if moves[|moves| - 1].Skips() then [] else [moves[|moves| - 1]])
  }

  /** Rolling back, last move first; a refused step is passed over. */
  function Undo(d: Disk, moved: seq<Move>, undo: Move -> bool): Disk
    decreases |moved|
  {
    if moved == [] then d
    else Undo(UndoOne(d, moved[|moved| - 1], undo), moved[..|moved| - 1], undo)
  }

  function UndoOne(d: Disk, m: Move, undo: Move -> bool): Disk {
    if undo(m) || m.NewPath() !in d then d else (d - {m.NewPath()})[m.OldPath() := d[m.NewPath()]]
  }

  predicate DistinctTargets(moves: seq<Move>) {
    forall i, j :: 0 <= i < j < |moves| ==> moves[i].newKey != moves[j].newKey
  }

  predicate Clear(d: Disk, moved: seq<Move>) {
    forall i :: 0 <= i < |moved| ==> !moved[i].Skips() && moved[i].NewPath() !in d
  }

  /** The condition under which the whole list of moves is made. */
  ghost predicate AllMovable(d: Disk, moves: seq<Move>, faults: Faults) {
    && (forall i :: 0 <= i < |moves| && !moves[i].Skips() ==>
          !faults.check(moves[i]) && moves[i].NewPath() !in d && !faults.move(moves[i]))
    && ApplyAll(d, Real(moves)).Some?
  }

  lemma {:induction false} RealMembers(moves: seq<Move>)
    ensures forall m :: m in Real(moves) <==> m in moves && !m.Skips()
    ensures DistinctTargets(moves) ==> DistinctTargets(Real(moves))
  {
    if moves == [] {
    } else {
      var front, last := moves[..|moves| - 1], moves[|moves| - 1];
      RealMembers(front);
      assert moves == front + [last];
      if DistinctTargets(moves) {
        assert forall m :: m in front ==> m.newKey != last.newKey;
      }
    }
  }

  lemma {:induction false} ApplyAllPrefix(d: Disk, a: seq<Move>, b: seq<Move>)
    requires ApplyAll(d, a + b).Some?
    ensures ApplyAll(d, a).Some?
    decreases |b|
  {
    if b == [] {
      assert a + b == a;
    } else {
      assert (a + b)[..|a + b| - 1] == a + b[..|b| - 1];
      ApplyAllPrefix(d, a, b[..|b| - 1]);
    }
  }

  lemma {:induction false} RealPrefix(moves: seq<Move>, i: nat)
    requires i <= |moves|
    ensures Real(moves[..i]) <= Real(moves)
    decreases |moves|
  {
    if i == |moves| {
      assert moves[..i] == moves;
    } else {
      assert moves[..|moves| - 1][..i] == moves[..i];
      RealPrefix(moves[..|moves| - 1], i);
    }
  }

  /** Each target is still free when its turn comes. */
  lemma {:induction false} TargetFree(d: Disk, moved: seq<Move>, p: DiskPath)
    requires ApplyAll(d, moved).Some? && p !in d && forall m :: m in moved ==> m.NewPath() != p
    ensures p !in ApplyAll(d, moved).value
  {
    if moved == [] {
    } else {
      TargetFree(d, moved[..|moved| - 1], p);
    }
  }

  /** Undoing a list of moves that were made restores the disk. */
  lemma {:induction false} UndoRestores(d: Disk, moved: seq<Move>, undo: Move -> bool)
    requires ApplyAll(d, moved).Some? && Clear(d, moved) && DistinctTargets(moved)
    requires forall m :: m in moved ==> !undo(m)
    ensures Undo(ApplyAll(d, moved).value, moved, undo) == d
  {
    if moved == [] {
    } else {
      var front, m := moved[..|moved| - 1], moved[|moved| - 1];
      var before, after := ApplyAll(d, front).value, ApplyAll(d, moved).value;
      TargetFree(d, front, m.NewPath());
      assert UndoOne(after, m, undo) == before;
      UndoRestores(d, front, undo);
    }
  }

  /** A refused rollback step leaves its file at the target. */
  lemma {:induction false} UndoKeeps(d: Disk, moved: seq<Move>, undo: Move -> bool, p: DiskPath)
    requires p in d && forall m :: m in moved ==> m.NewPath() != p
    ensures p in Undo(d, moved, undo)
    decreases |moved|
  {
    if moved == [] {
    } else {
      UndoKeeps(UndoOne(d, moved[|moved| - 1], undo), moved[..|moved| - 1], undo, p);
    }
  }

  /** A rollback restores the disk exactly when none of its steps is refused. */
  lemma {:induction false} UndoRestoresIff(d: Disk, moved: seq<Move>, undo: Move -> bool)
    requires ApplyAll(d, moved).Some? && Clear(d, moved) && DistinctTargets(moved)
    ensures Undo(ApplyAll(d, moved).value, moved, undo) == d <==> forall m :: m in moved ==> !undo(m)
  {
    if moved == [] {
    } else {
      var front, m := moved[..|moved| - 1], moved[|moved| - 1];
      var before, after := ApplyAll(d, front).value, ApplyAll(d, moved).value;
      assert moved == front + [m];
      if undo(m) {
        UndoKeeps(after, front, undo, m.NewPath());
      } else {
        TargetFree(d, front, m.NewPath());
        assert UndoOne(after, m, undo) == before;
        UndoRestoresIff(d, front, undo);
      }
    }
  }

  method RollbackCacheLocalMoves(fs: FileSystem, moves: seq<Move>, undo: Move -> bool)
    modifies fs
    ensures fs.disk == Undo(old(fs.disk), moves, undo)
  {
    var i := |moves|;
    assert moves[..i] == moves;
    while i > 0
      invariant 0 <= i <= |moves|
      invariant Undo(fs.disk, moves[..i], undo) == Undo(old(fs.disk), moves, undo)
    {
      i := i - 1;
      var move := moves[i];
      assert moves[..i + 1][..i] == moves[..i];
      if !undo(move) && move.NewPath() in fs.disk {
        fs.disk := (fs.disk - {move.NewPath()})[move.OldPath() := fs.disk[move.NewPath()]];
      }
    }
  }

  /** Either every file is moved, or the disk is put back as far as the rollback is allowed to. */
  method MoveCacheLocalFiles(fs: FileSystem, moves: seq<Move>, faults: Faults) returns (ok: bool)
    requires DistinctTargets(moves)
    modifies fs
    ensures ok <==> AllMovable(old(fs.disk), moves, faults)
    ensures ok ==> ApplyAll(old(fs.disk), Real(moves)) == Some(fs.disk)
    ensures !ok && (forall m :: m in moves ==> !faults.undo(m)) ==> fs.disk == old(fs.disk)
  {
    hide ApplyAll, Real;
    var i := 0;
    while i < |moves|
      invariant 0 <= i <= |moves|
      invariant forall j :: 0 <= j < i && !moves[j].Skips() ==> !faults.check(moves[j]) && moves[j].NewPath() !in fs.disk
    {
      var move := moves[i];
      if !move.Skips() && (faults.check(move) || move.NewPath() in fs.disk) {
        return false;
      }
      i := i + 1;
    }
    RealMembers(moves);
    ok := MoveChecked(fs, moves, faults);
  }

  method MoveChecked(fs: FileSystem, moves: seq<Move>, faults: Faults) returns (ok: bool)
    requires DistinctTargets(moves)
    requires forall j :: 0 <= j < |moves| && !moves[j].Skips() ==> moves[j].NewPath() !in fs.disk
    modifies fs
    ensures ok <==> ApplyAll(old(fs.disk), Real(moves)).Some? && forall m :: m in Real(moves) ==> !faults.move(m)
    ensures ok ==> ApplyAll(old(fs.disk), Real(moves)) == Some(fs.disk)
    ensures !ok && (forall m :: m in moves ==> !faults.undo(m)) ==> fs.disk == old(fs.disk)
  {
    var moved: seq<Move>, i := [], 0;
    while i < |moves|
      invariant 0 <= i <= |moves| && moved == Real(moves[..i])
      invariant ApplyAll(old(fs.disk), moved) == Some(fs.disk) && forall m :: m in moved ==> !faults.move(m)
    {
      var move := moves[i];
      assert moves[..i + 1][..i] == moves[..i];
      if !move.Skips() {
        assert (moved + [move])[..|moved|] == moved;
        if faults.move(move) || move.OldPath() !in fs.disk {
          StopsHere(old(fs.disk), moves, i, faults.move);
          Undoable(old(fs.disk), moves, i);
          RollbackCacheLocalMoves(fs, moved, faults.undo);
          if forall m :: m in moves ==> !faults.undo(m) {
            UndoRestores(old(fs.disk), moved, faults.undo);
          }
          return false;
        }
        fs.disk := (fs.disk - {move.OldPath()})[move.NewPath() := fs.disk[move.OldPath()]];
        moved := moved + [move];
      }
      i := i + 1;
    }
    assert moves[..i] == moves;
    ok := true;
  }

  lemma StopsHere(d: Disk, moves: seq<Move>, i: nat, fails: Move -> bool)
    requires i < |moves| && !moves[i].Skips() && ApplyAll(d, Real(moves[..i])).Some?
    requires fails(moves[i]) || moves[i].OldPath() !in ApplyAll(d, Real(moves[..i])).value
    ensures !(ApplyAll(d, Real(moves)).Some? && forall m :: m in Real(moves) ==> !fails(m))
  {
    var front, m := Real(moves[..i]), moves[i];
    RealSnoc(moves, i);
    RealPrefix(moves, i + 1);
    var rest := Real(moves)[|front| + 1..];
    ApplySnoc(d, front, m);
    hide Real, ApplyAll, Apply;
    assert Real(moves) == front + [m] + rest;
    assert m in Real(moves);
    if ApplyAll(d, Real(moves)).Some? {
      ApplyAllPrefix(d, front + [m], rest);
    }
  }

  lemma RealSnoc(moves: seq<Move>, i: nat)
    requires i < |moves| && !moves[i].Skips()
    ensures Real(moves[..i + 1]) == Real(moves[..i]) + [moves[i]]
  {
    assert moves[..i + 1][..i] == moves[..i];
  }

  lemma ApplySnoc(d: Disk, front: seq<Move>, m: Move)
    requires ApplyAll(d, front).Some?
    ensures ApplyAll(d, front + [m]) == Apply(ApplyAll(d, front).value, m)
    ensures Apply(ApplyAll(d, front).value, m).Some? <==> m.OldPath() in ApplyAll(d, front).value
  {
    assert (front + [m])[..|front|] == front;
  }

  lemma Undoable(d: Disk, moves: seq<Move>, i: nat)
    requires DistinctTargets(moves) && i <= |moves|
    requires forall j :: 0 <= j < |moves| && !moves[j].Skips() ==> moves[j].NewPath() !in d
    ensures Clear(d, Real(moves[..i])) && DistinctTargets(Real(moves[..i]))
    ensures forall m :: m in Real(moves[..i]) ==> m in moves
  {
    RealMembers(moves[..i]);
  }

  // ---------------------------------------------------------------- the indexes

  function Retarget(key: Path, item: LocalFile): LocalFile {
    LocalFile(item.info.(key := key, slash := false), CachePath(key))
  }

  function Same(key: Path, isDir: bool): bool {
    isDir
  }

  /** A map whose keys `moved` were carried along by a rename, each value adjusted to its new key. */
  function RekeyWith<T>(m: map<Path, T>, moved: set<Path>, src: Path, dst: Path, f: (Path, T) -> T): map<Path, T> {
    Rekey(map k | k in m :: if k in moved && src <= k then f(Rebase(k, src, dst), m[k]) else m[k], moved, {}, src, dst)
  }

  lemma RekeyWithAt<T>(m: map<Path, T>, moved: set<Path>, src: Path, dst: Path, isDir: bool, f: (Path, T) -> T, t: Path)
    requires Apart(src, dst, isDir) && AllMatch(moved, src, isDir) && moved <= m.Keys
    ensures var r := RekeyWith(m, moved, src, dst, f);
            if Matches(t, dst, isDir) && Rebase(t, dst, src) in moved then t in r && r[t] == f(t, m[Rebase(t, dst, src)])
            else (t in r <==> t in m && t !in moved) && (t in r ==> r[t] == m[t])
  {
    var touched := map k | k in m :: if k in moved && src <= k then f(Rebase(k, src, dst), m[k]) else m[k];
    RekeyAt(touched, moved, {}, src, dst, isDir, t);
    if Matches(t, dst, isDir) {
      RebaseBack(t, dst, src, isDir);
    }
  }

  lemma RekeyWithStep<T>(m: map<Path, T>, moved: set<Path>, src: Path, dst: Path, isDir: bool, f: (Path, T) -> T, k: Path)
    requires Apart(src, dst, isDir) && AllMatch(moved + {k}, src, isDir) && moved <= m.Keys && k in m && k !in moved
    ensures var r := RekeyWith(m, moved, src, dst, f);
            && k in r && r[k] == m[k]
            && RekeyWith(m, moved + {k}, src, dst, f) == (r - {k})[Rebase(k, src, dst) := f(Rebase(k, src, dst), m[k])]
  {
    hide RekeyWith;
    var r, next := RekeyWith(m, moved, src, dst, f), RekeyWith(m, moved + {k}, src, dst, f);
    var target := (r - {k})[Rebase(k, src, dst) := f(Rebase(k, src, dst), m[k])];
    RebaseInverse(k, src, dst, isDir);
    RekeyWithAt(m, moved, src, dst, isDir, f, k);
    forall t
      ensures t in next <==> t in target
      ensures t in next ==> next[t] == target[t]
    {
      RekeyWithAt(m, moved, src, dst, isDir, f, t);
      RekeyWithAt(m, moved + {k}, src, dst, isDir, f, t);
      if Matches(t, dst, isDir) && Rebase(t, dst, src) == k {
        RebaseBack(t, dst, src, isDir);
      }
    }
  }

  function EntryKeys<T>(m: map<Path, T>, src: Path, isDir: bool): set<Path> {
    set k | k in m && Matches(k, src, isDir)
  }

  function NewFiles(c: Cache, src: Path, dst: Path, isDir: bool): map<Path, LocalFile> {
    RekeyWith(c.files, FileKeys(c.files, src, isDir), src, dst, Retarget)
  }

  function NewEntries(c: Cache, src: Path, dst: Path, isDir: bool): map<Path, Info> {
    RekeyWith(c.entries, EntryKeys(c.entries, src, isDir), src, dst, Normalize)
  }

  function NewDeleted(c: Cache, src: Path, dst: Path, isDir: bool): map<Path, bool> {
    RekeyWith(c.deleted, EntryKeys(c.deleted, src, isDir), src, dst, Same)
  }

  /** The list of moves for a rename: one for each staged file, in whatever order the map gave them. */
  ghost predicate ListsMoves(moves: seq<Move>, keys: set<Path>, c: Cache, src: Path, dst: Path) {
    && (forall k :: k in keys <==> exists i :: 0 <= i < |moves| && moves[i].oldKey == k)
    && (forall i, j :: 0 <= i < j < |moves| ==> moves[i].oldKey != moves[j].oldKey)
    && forall i :: 0 <= i < |moves| ==> IsMove(moves[i], c, src, dst)
  }

  predicate IsMove(m: Move, c: Cache, src: Path, dst: Path) {
    m.oldKey in c.files && src <= m.oldKey && m.newKey == Rebase(m.oldKey, src, dst) && m.item == c.files[m.oldKey]
  }

  lemma ListsDistinct(moves: seq<Move>, keys: set<Path>, c: Cache, src: Path, dst: Path)
    requires ListsMoves(moves, keys, c, src, dst)
    ensures DistinctTargets(moves)
  {
    forall i, j | 0 <= i < j < |moves|
      ensures moves[i].newKey != moves[j].newKey
    {
      assert IsMove(moves[i], c, src, dst) && IsMove(moves[j], c, src, dst);
      if moves[i].newKey == moves[j].newKey {
        RebaseInjective(moves[i].oldKey, moves[j].oldKey, src, dst);
      }
    }
  }

  method CollectMoves(cache: BucketCache, src: Path, dst: Path) returns (moves: seq<Move>)
    ensures ListsMoves(moves, FileKeys(cache.files, src, true), cache.Now(), src, dst)
  {
    hide ListsMoves, IsMove;
    ghost var c, keys, all := cache.Now(), {}, FileKeys(cache.files, src, true);
    moves := [];
    ListsNone(c, src, dst);
    var todo := cache.files.Keys;
    while todo != {}
      invariant todo <= cache.files.Keys
      invariant keys == all - todo && ListsMoves(moves, keys, c, src, dst)
      decreases |todo|
    {
      var key :| key in todo;
      if src < key {
        var move := Move(key, Rebase(key, src, dst), cache.files[key]);
        ListsMore(moves, keys, c, src, dst, move) by {
          MoveOf(c, src, dst, key);
        }
        moves, keys := moves + [move], keys + {key};
      }
      todo := todo - {key};
    }
    assert all - {} == all;
  }

  method FileMove(cache: BucketCache, src: Path, dst: Path) returns (moves: seq<Move>)
    ensures ListsMoves(moves, FileKeys(cache.files, src, false), cache.Now(), src, dst)
  {
    moves := [];
    if src in cache.files {
      moves := [Move(src, dst, cache.files[src])];
      assert moves[0].oldKey == src && Rebase(src, src, dst) == dst;
    }
  }

  method RetargetFiles(cache: BucketCache, moves: seq<Move>, src: Path, dst: Path, isDir: bool)
    requires Apart(src, dst, isDir) && ListsMoves(moves, FileKeys(cache.files, src, isDir), cache.Now(), src, dst)
    modifies cache`files
    ensures cache.files == NewFiles(old(cache.Now()), src, dst, isDir)
  {
    hide RekeyWith;
    ghost var m, all := cache.files, FileKeys(cache.files, src, isDir);
    ghost var done: set<Path> := {};
    NothingMoved(m, src, dst, Retarget);
    var i := 0;
    while i < |moves|
      invariant 0 <= i <= |moves|
      invariant done == set j | 0 <= j < i :: moves[j].oldKey
      invariant done <= all && cache.files == RekeyWith(m, done, src, dst, Retarget)
    {
      var move := moves[i];
      assert IsMove(move, old(cache.Now()), src, dst) && move.oldKey !in done && moves[i].oldKey in all;
      RekeyWithStep(m, done, src, dst, isDir, Retarget, move.oldKey);
      RebaseInverse(move.oldKey, src, dst, isDir);
      cache.files := cache.files[move.newKey := Retarget(move.newKey, move.item)];
      cache.files := cache.files - {move.oldKey};
      done := done + {move.oldKey};
      i := i + 1;
    }
    assert done == all;
  }

  /** Returns false when a file could not be moved; then the indexes are as they were. */
  method RenameLocalFile(cache: BucketCache, src: Path, dst: Path, isDir: bool, faults: Faults)
    returns (ok: bool, ghost moves: seq<Move>)
    requires src != dst ==> Apart(src, dst, isDir)
    modifies cache, cache.fs
    ensures src == dst ==> ok && cache.Now() == old(cache.Now())
    ensures src != dst ==> ListsMoves(moves, FileKeys(old(cache.files), src, isDir), old(cache.Now()), src, dst)
    ensures src != dst ==> (ok <==> AllMovable(old(cache.fs.disk), moves, faults))
    ensures src != dst && ok ==> Renames(old(cache.Now()), cache.Now(), src, dst, isDir, moves)
    ensures !ok ==> cache.files == old(cache.files) && cache.entries == old(cache.entries)
    ensures !ok ==> cache.deleted == old(cache.deleted)
    ensures !ok && (forall m :: !faults.undo(m)) ==> cache.Now() == old(cache.Now())
  {
    moves := [];
    if src == dst {
      return true, moves;
    }
    var list;
    if isDir {
      list := CollectMoves(cache, src, dst);
    } else {
      list := FileMove(cache, src, dst);
    }
    moves := list;
    ListsDistinct(moves, FileKeys(cache.files, src, isDir), cache.Now(), src, dst);
    ok := MoveCacheLocalFiles(cache.fs, list, faults);
    if !ok {
      return;
    }
    cache.entries := RekeyMap(cache.entries, src, dst, isDir, Normalize);
    cache.deleted := RekeyMap(cache.deleted, src, dst, isDir, Same);
    SameLists(moves, FileKeys(cache.files, src, isDir), old(cache.Now()), cache.Now(), src, dst);
    RetargetFiles(cache, list, src, dst, isDir);
  }

  /** The root of the subtree first, then what lies below it. */
  method RekeyMap<T>(m: map<Path, T>, src: Path, dst: Path, isDir: bool, f: (Path, T) -> T) returns (r: map<Path, T>)
    requires Apart(src, dst, isDir)
    ensures r == RekeyWith(m, EntryKeys(m, src, isDir), src, dst, f)
  {
    hide RekeyWith;
    r := m;
    ghost var done: set<Path> := {};
    NothingMoved(m, src, dst, f);
    if src in m {
      RekeyWithStep(m, done, src, dst, isDir, f, src);
      assert Rebase(src, src, dst) == dst;
      r := (r - {src})[dst := f(dst, m[src])];
      done := {src};
    }
    if isDir {
      var todo := m.Keys;
      while todo != {}
        invariant todo <= m.Keys
        invariant done == set k | k in m && (k == src || (src < k && k !in todo))
        invariant r == RekeyWith(m, done, src, dst, f)
        decreases |todo|
      {
        var key :| key in todo;
        todo := todo - {key};
        if src < key {
          RekeyWithStep(m, done, src, dst, isDir, f, key);
          r := (r - {key})[Rebase(key, src, dst) := f(Rebase(key, src, dst), m[key])];
          done := done + {key};
        }
      }
    }
    assert done == EntryKeys(m, src, isDir);
  }

  lemma NothingMoved<T>(m: map<Path, T>, src: Path, dst: Path, f: (Path, T) -> T)
    ensures RekeyWith(m, {}, src, dst, f) == m
  {
  }

  /** A successful rename: `moves` lists its files, the disk has them all moved, and the indexes are re-keyed. */
  ghost predicate Renames(c: Cache, r: Cache, src: Path, dst: Path, isDir: bool, moves: seq<Move>) {
    && ListsMoves(moves, FileKeys(c.files, src, isDir), c, src, dst)
    && (forall m :: m in moves && !m.Skips() ==> m.NewPath() !in c.disk)
    && ApplyAll(c.disk, Real(moves)) == Some(r.disk)
    && r.files == NewFiles(c, src, dst, isDir)
    && r.entries == NewEntries(c, src, dst, isDir)
    && r.deleted == NewDeleted(c, src, dst, isDir)
  }

  /** What a rename makes of one path: its entry, tombstone and staged file go to the target, the entry and the file under
      their new name, the file to the target's own cache path; nothing of it stays. A path that is neither below the
      source nor below the target keeps what it has. */
  lemma RenamedAt(c: Cache, r: Cache, src: Path, dst: Path, isDir: bool, moves: seq<Move>, k: Path)
    requires Apart(src, dst, isDir) && Renames(c, r, src, dst, isDir, moves)
    ensures Matches(k, src, isDir) ==>
              var t := Rebase(k, src, dst);
              && k !in r.entries && k !in r.deleted && (k in r.files ==> isDir && k == src)
              && (k in c.entries ==> t in r.entries && r.entries[t] == c.entries[k].(key := t, slash := c.entries[k].isDir))
              && (k in c.deleted ==> t in r.deleted && r.deleted[t] == c.deleted[k])
              && (k in c.files && !(isDir && k == src) ==>
                    t in r.files && r.files[t] == LocalFile(c.files[k].info.(key := t, slash := false), CachePath(t)))
    ensures !Matches(k, src, isDir) && !Matches(k, dst, isDir) ==>
              && (k in r.entries <==> k in c.entries) && (k in r.entries ==> r.entries[k] == c.entries[k])
              && (k in r.deleted <==> k in c.deleted) && (k in r.deleted ==> r.deleted[k] == c.deleted[k])
              && (k in r.files <==> k in c.files) && (k in r.files ==> r.files[k] == c.files[k])
  {
    hide RekeyWith, ApplyAll, ListsMoves, Apart;
    RekeyWithAt(c.entries, EntryKeys(c.entries, src, isDir), src, dst, isDir, Normalize, k);
    RekeyWithAt(c.deleted, EntryKeys(c.deleted, src, isDir), src, dst, isDir, Same, k);
    RekeyWithAt(c.files, FileKeys(c.files, src, isDir), src, dst, isDir, Retarget, k);
    if Matches(k, src, isDir) {
      var t := Rebase(k, src, dst);
      RebaseInverse(k, src, dst, isDir);
      RekeyWithAt(c.entries, EntryKeys(c.entries, src, isDir), src, dst, isDir, Normalize, t);
      RekeyWithAt(c.deleted, EntryKeys(c.deleted, src, isDir), src, dst, isDir, Same, t);
      RekeyWithAt(c.files, FileKeys(c.files, src, isDir), src, dst, isDir, Retarget, t);
    }
  }

  lemma SameLists(moves: seq<Move>, keys: set<Path>, c: Cache, r: Cache, src: Path, dst: Path)
    requires ListsMoves(moves, keys, c, src, dst) && r.files == c.files
    ensures ListsMoves(moves, keys, r, src, dst)
  {
    forall i | 0 <= i < |moves|
      ensures IsMove(moves[i], r, src, dst)
    {
      assert IsMove(moves[i], c, src, dst);
    }
  }

  lemma ListsNone(c: Cache, src: Path, dst: Path)
    ensures ListsMoves([], {}, c, src, dst)
  {
  }

  lemma MoveOf(c: Cache, src: Path, dst: Path, k: Path)
    requires k in c.files && src <= k
    ensures IsMove(Move(k, Rebase(k, src, dst), c.files[k]), c, src, dst)
  {
  }

  lemma ListsMore(moves: seq<Move>, keys: set<Path>, c: Cache, src: Path, dst: Path, m: Move)
    requires ListsMoves(moves, keys, c, src, dst) && m.oldKey !in keys && IsMove(m, c, src, dst)
    ensures ListsMoves(moves + [m], keys + {m.oldKey}, c, src, dst)
  {
    var more := moves + [m];
    forall k | k in keys
      ensures exists i :: 0 <= i < |more| && more[i].oldKey == k
    {
      var i :| 0 <= i < |moves| && moves[i].oldKey == k;
      assert more[i].oldKey == k;
    }
    assert more[|moves|].oldKey == m.oldKey;
  }

  // ---------------------------------------------------------------- what a rename preserves

  /** The bytes behind a staged key. */
  function Read(c: Cache, k: Path): Option<string>
    requires k in c.files
  {
    var p := c.files[k].localPath;
    if p in c.disk then Some(c.disk[p]) else None
  }

  /** No file to be moved lies where another one is going. */
  ghost predicate TargetsClear(moves: seq<Move>) {
    forall m, n :: m in moves && n in moves && m.newKey != n.newKey ==> m.OldPath() != n.NewPath()
  }

  ghost predicate IsTarget(moved: seq<Move>, p: DiskPath) {
    exists m :: m in moved && m.NewPath() == p
  }

  ghost predicate IsSource(moved: seq<Move>, p: DiskPath) {
    exists m :: m in moved && m.OldPath() == p
  }

  lemma FrontClear(d: Disk, front: seq<Move>, last: Move)
    requires Clear(d, front + [last]) && DistinctTargets(front + [last]) && TargetsClear(front + [last])
    ensures Clear(d, front) && DistinctTargets(front) && TargetsClear(front) && last.NewPath() !in d && !last.Skips()
    ensures !IsTarget(front, last.OldPath()) && !IsTarget(front, last.NewPath()) && !IsSource(front, last.NewPath())
  {
    var moved := front + [last];
    assert moved[|front|] == last && last in moved && forall i :: 0 <= i < |front| ==> moved[i] == front[i];
    assert forall m :: m in front ==> m in moved;
    NotBoth(front, last);
  }

  /** The disk after a list of moves, path by path. */
  lemma {:induction false} AppliedAt(d: Disk, moved: seq<Move>, p: DiskPath)
    requires ApplyAll(d, moved).Some? && Clear(d, moved) && DistinctTargets(moved) && TargetsClear(moved)
    ensures var e := ApplyAll(d, moved).value;
            && (!IsTarget(moved, p) ==> (p in e <==> p in d && !IsSource(moved, p)) && (p in e ==> e[p] == d[p]))
            && forall m :: m in moved && m.NewPath() == p ==> p in e && m.OldPath() in d && e[p] == d[m.OldPath()]
  {
    if moved == [] {
    } else {
      var front, last := moved[..|moved| - 1], moved[|moved| - 1];
      assert moved == front + [last];
      FrontClear(d, front, last);
      hide Clear, DistinctTargets, TargetsClear;
      AppliedAt(d, front, p);
      AppliedAt(d, front, last.OldPath());
    }
  }

  /** A source that is not a target was there from the start, and is gone at the end. */
  lemma {:induction false} SourceUsed(d: Disk, moved: seq<Move>, p: DiskPath)
    requires ApplyAll(d, moved).Some? && !IsTarget(moved, p)
    ensures p in ApplyAll(d, moved).value ==> p in d
    ensures IsSource(moved, p) ==> p in d && p !in ApplyAll(d, moved).value
  {
    if moved == [] {
    } else {
      var front, last := moved[..|moved| - 1], moved[|moved| - 1];
      assert moved == front + [last];
      SourceUsed(d, front, p);
    }
  }

  lemma ChainInFront(d: Disk, front: seq<Move>, last: Move)
    requires ApplyAll(d, front).Some? && DistinctTargets(front + [last]) && last.OldPath() in d
    requires (forall m :: m in front + [last] ==> m.NewPath() !in d) && !TargetsClear(front + [last])
    ensures !TargetsClear(front)
  {
    hide ApplyAll;
    var moved := front + [last];
    var x, y :| x in moved && y in moved && x.newKey != y.newKey && x.OldPath() == y.NewPath();
    assert y.NewPath() !in d && x != last;
    if y == last {
      SameTarget(moved, last);
      assert !IsTarget(front, x.OldPath()) by {
        assert forall n :: n in front ==> n in moved;
        NotBoth(front, last);
      }
      SourceUsed(d, front, x.OldPath());
    }
  }

  lemma NotBoth(front: seq<Move>, last: Move)
    requires DistinctTargets(front + [last])
    ensures forall n :: n in front ==> n.newKey != last.newKey
  {
    var moved := front + [last];
    forall n | n in front
      ensures n.newKey != last.newKey
    {
      var i :| 0 <= i < |front| && front[i] == n;
      assert moved[i] == n && moved[|front|] == last;
    }
  }

  /** When a source lies on another move's target, some file appears that was not there to be read before. */
  lemma {:induction false} ChainShows(d: Disk, moved: seq<Move>) returns (m: Move)
    requires ApplyAll(d, moved).Some? && Clear(d, moved) && DistinctTargets(moved) && !TargetsClear(moved)
    ensures m in moved && m.OldPath() !in d && m.NewPath() in ApplyAll(d, moved).value
  {
    hide TargetsClear;
    if moved == [] {
      ClearNone();
      assert false;
    }
    var front, last := moved[..|moved| - 1], moved[|moved| - 1];
    assert moved == front + [last];
    if last.OldPath() !in d {
      m := last;
    } else {
      ChainInFront(d, front, last);
      m := ChainShows(d, front);
      assert m in moved && m.NewPath() !in d;
    }
  }

  lemma ClearNone()
    ensures TargetsClear([])
  {
  }

  lemma RenamedKey(c: Cache, r: Cache, src: Path, dst: Path, isDir: bool, moves: seq<Move>, m: Move)
    requires Renames(c, r, src, dst, isDir, moves) && Apart(src, dst, isDir) && m in moves
    ensures m.oldKey in c.files && c.files[m.oldKey] == m.item && m.oldKey in FileKeys(c.files, src, isDir)
    ensures m.newKey in r.files && r.files[m.newKey] == Retarget(m.newKey, m.item)
  {
    var i :| 0 <= i < |moves| && moves[i] == m;
    assert IsMove(moves[i], c, src, dst) && moves[i].oldKey in FileKeys(c.files, src, isDir);
    RebaseInverse(m.oldKey, src, dst, isDir);
    RekeyWithAt(c.files, FileKeys(c.files, src, isDir), src, dst, isDir, Retarget, m.newKey);
  }

  ghost predicate ReadsKept(c: Cache, r: Cache, moves: seq<Move>) {
    forall m :: m in moves ==> m.oldKey in c.files && m.newKey in r.files && Read(r, m.newKey) == Read(c, m.oldKey)
  }

  lemma ReadKept(c: Cache, r: Cache, moves: seq<Move>, m: Move)
    requires ApplyAll(c.disk, Real(moves)) == Some(r.disk) && DistinctTargets(moves) && TargetsClear(moves)
    requires m in moves && forall n :: n in moves && !n.Skips() ==> n.NewPath() !in c.disk
    requires m.oldKey in c.files && c.files[m.oldKey].localPath == m.OldPath()
    requires m.newKey in r.files && r.files[m.newKey].localPath == m.NewPath()
    ensures Read(r, m.newKey) == Read(c, m.oldKey)
  {
    hide ApplyAll, Real;
    RealSetting(c.disk, moves);
    SameTarget(moves, m);
    var moved := Real(moves);
    hide DistinctTargets, TargetsClear, Clear;
    AppliedAt(c.disk, moved, m.NewPath());
    if m.Skips() {
      assert !IsTarget(moved, m.NewPath()) && !IsSource(moved, m.NewPath()) by {
        SkippedAlone(moves, moved, m);
      }
    } else {
      assert m in moved;
    }
  }

  /** The real moves of a list whose targets are free. */
  lemma RealSetting(d: Disk, moves: seq<Move>)
    requires DistinctTargets(moves) && TargetsClear(moves)
    requires forall n :: n in moves && !n.Skips() ==> n.NewPath() !in d
    ensures Clear(d, Real(moves)) && DistinctTargets(Real(moves)) && TargetsClear(Real(moves))
    ensures forall m :: m in Real(moves) <==> m in moves && !m.Skips()
  {
    RealMembers(moves);
    hide Real;
  }

  /** No real move takes from, or goes to, the place where a skipped one stays. */
  lemma SkippedAlone(moves: seq<Move>, moved: seq<Move>, m: Move)
    requires DistinctTargets(moves) && TargetsClear(moves) && m in moves && m.Skips()
    requires forall n :: n in moved ==> n in moves && !n.Skips()
    ensures !IsTarget(moved, m.NewPath()) && !IsSource(moved, m.NewPath())
  {
    SameTarget(moves, m);
    forall n | n in moved
      ensures n.OldPath() != m.NewPath() && n.NewPath() != m.NewPath()
    {
      assert n in moves && n.newKey != m.newKey;
    }
  }

  /** After a successful rename every renamed key reads the bytes its old key read, exactly when no staged file to
      be moved lies at the cache path of another renamed key. */
  lemma RenamedReadsIff(c: Cache, r: Cache, src: Path, dst: Path, isDir: bool, moves: seq<Move>)
    requires Renames(c, r, src, dst, isDir, moves) && Apart(src, dst, isDir)
    ensures ReadsKept(c, r, moves) <==> TargetsClear(moves)
  {
    hide ApplyAll, RekeyWith, ListsMoves, FileKeys;
    var moved := Real(moves);
    ListsDistinct(moves, FileKeys(c.files, src, isDir), c, src, dst);
    RealMembers(moves);
    forall m | m in moves
      ensures m.oldKey in c.files && m.newKey in r.files
      ensures r.files[m.newKey].localPath == m.NewPath() && c.files[m.oldKey].localPath == m.OldPath()
      ensures TargetsClear(moves) ==> Read(r, m.newKey) == Read(c, m.oldKey)
    {
      RenamedKey(c, r, src, dst, isDir, moves, m);
      if TargetsClear(moves) {
        ReadKept(c, r, moves, m);
      }
    }
    if !TargetsClear(moves) {
      if !TargetsClear(moved) {
        var m := ChainShows(c.disk, moved);
        assert Read(r, m.newKey) != Read(c, m.oldKey);
      } else {
        var x, y :| x in moves && y in moves && x.newKey != y.newKey && x.OldPath() == y.NewPath();
        SameTarget(moves, y);
        assert x in moved && y !in moved;
        assert !IsTarget(moved, y.NewPath());
        SourceUsed(c.disk, moved, y.NewPath());
        assert Read(r, y.newKey) != Read(c, y.oldKey);
      }
    }
  }

  /** Only one move goes to a given target. */
  lemma SameTarget(moves: seq<Move>, m: Move)
    requires DistinctTargets(moves) && m in moves
    ensures forall n :: n in moves && n.NewPath() == m.NewPath() ==> n == m
  {
  }
}
