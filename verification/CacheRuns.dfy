/** Whole runs of the cache's operations: stores, removals, deletions and renames in any order, while other writers
    change the disk. */
module CacheRuns {
  import opened CacheRename
  import opened CacheRollback
  import opened ObjectInfo
  import opened Overlay
  import opened VirtualPaths
  import opened Wrappers

  datatype Op =
    | StoreFile(p: Path, localPath: DiskPath, info: Info)
    | StoreDirectory(p: Path, info: Info)
    | Remove(p: Path, isDir: bool, kept: set<DiskPath>)
    | Clear(p: Path, isDir: bool)
    | ClearFile(p: Path)
    | MarkDeleted(p: Path, isDir: bool, kept: set<DiskPath>)
    | HideDeleted(p: Path, isDir: bool)
    | Rename(src: Path, dst: Path, isDir: bool, moves: seq<Move>)
    | DiskBecomes(disk: Disk)

  const EMPTY := Cache(map[], map[], map[], map[])

  /** A rename whose moves are all possible; any other one leaves the cache as it was. */
  ghost predicate CanRename(c: Cache, src: Path, dst: Path, isDir: bool, moves: seq<Move>) {
    Apart(src, dst, isDir) && ListsMoves(moves, FileKeys(c.files, src, isDir), c, src, dst)
    && AllMovable(c.disk, moves, NOFAULTS)
  }

  ghost function RenamedCache(c: Cache, src: Path, dst: Path, isDir: bool, moves: seq<Move>): Cache
    requires CanRename(c, src, dst, isDir, moves)
  {
    Cache(NewFiles(c, src, dst, isDir), NewEntries(c, src, dst, isDir), NewDeleted(c, src, dst, isDir),
          ApplyAll(c.disk, Real(moves)).value)
  }

  lemma RenamesSo(c: Cache, src: Path, dst: Path, isDir: bool, moves: seq<Move>)
    requires CanRename(c, src, dst, isDir, moves)
    ensures Renames(c, RenamedCache(c, src, dst, isDir, moves), src, dst, isDir, moves)
  {
    hide ApplyAll, Real, ListsMoves, NewFiles, NewEntries, NewDeleted;
  }

  ghost function Step(c: Cache, op: Op): Cache {
    match op
    case StoreFile(p, localPath, info) => StoredFile(c, p, localPath, info)
    case StoreDirectory(p, info) => Stored(c, p, info.(isDir := true))
    case Remove(p, isDir, kept) => Removed(c, p, isDir, kept)
    case Clear(p, isDir) => Cleared(c, p, isDir)
    case ClearFile(p) => c.(files := c.files - {p})
    case MarkDeleted(p, isDir, kept) => Tombstoned(Removed(c, p, isDir, kept), p, isDir)
    case HideDeleted(p, isDir) => Tombstoned(Cleared(c, p, isDir), p, isDir)
    case Rename(src, dst, isDir, moves) =>
      if CanRename(c, src, dst, isDir, moves) then RenamedCache(c, src, dst, isDir, moves) else c
    case DiskBecomes(disk) => c.(disk := disk)
  }

  ghost function Run(c: Cache, ops: seq<Op>): Cache
    decreases |ops|
  {
    if ops == [] then c else Run(Step(c, ops[0]), ops[1..])
  }

  // ---------------------------------------------------------------- what every run keeps

  lemma RenameNames(c: Cache, src: Path, dst: Path, isDir: bool, k: Path)
    requires Apart(src, dst, isDir) && EntriesNamed(c) && k in NewEntries(c, src, dst, isDir)
    ensures NewEntries(c, src, dst, isDir)[k] == Normalize(k, NewEntries(c, src, dst, isDir)[k])
  {
    RekeyWithAt(c.entries, EntryKeys(c.entries, src, isDir), src, dst, isDir, Normalize, k);
  }

  lemma StepNamed(c: Cache, op: Op)
    requires EntriesNamed(c)
    ensures EntriesNamed(Step(c, op))
  {
    if op.Rename? {
      hide RekeyWith, ApplyAll, ListsMoves, AllMovable, EntryKeys;
      if CanRename(c, op.src, op.dst, op.isDir, op.moves) {
        forall k | k in NewEntries(c, op.src, op.dst, op.isDir)
          ensures NewEntries(c, op.src, op.dst, op.isDir)[k]
               == Normalize(k, NewEntries(c, op.src, op.dst, op.isDir)[k])
        {
          RenameNames(c, op.src, op.dst, op.isDir, k);
        }
      }
    }
  }

  /** Every entry is named by the key it is stored under, in every state; the merge relies on it. */
  lemma {:induction false} RunNamed(c: Cache, ops: seq<Op>)
    requires EntriesNamed(c)
    ensures EntriesNamed(Run(c, ops))
    decreases |ops|
  {
    if ops == [] {
    } else {
      StepNamed(c, ops[0]);
      RunNamed(Step(c, ops[0]), ops[1..]);
    }
  }

  /** Each staged file is named by its key, sits at its own cache path or outside the cache, and no two keys share
      one. */
  ghost predicate FilesOwn(c: Cache) {
    && (forall k :: k in c.files ==> FileOwn(k, c.files[k]))
    && forall j, k :: j in c.files && k in c.files && j != k ==> c.files[j].localPath != c.files[k].localPath
  }

  predicate FileOwn(k: Path, file: LocalFile) {
    file.info.key == k && !file.info.slash && (file.localPath == CachePath(k) || file.localPath.Elsewhere?)
  }

  /** What the callers of a store see to: a file is no directory, and it lies at the key's own cache path or at an
      outside path that no other key uses. */
  predicate Mannered(c: Cache, op: Op) {
    op.StoreFile? ==>
      && !op.info.isDir && (op.localPath == CachePath(op.p) || op.localPath.Elsewhere?)
      && forall k :: k in c.files && k != op.p ==> c.files[k].localPath != op.localPath
  }

  ghost predicate RunMannered(c: Cache, ops: seq<Op>)
    decreases |ops|
  {
    ops != [] ==> Mannered(c, ops[0]) && RunMannered(Step(c, ops[0]), ops[1..])
  }

  lemma RenameOwn(c: Cache, src: Path, dst: Path, isDir: bool)
    requires Apart(src, dst, isDir) && FilesOwn(c)
    ensures FilesOwn(c.(files := NewFiles(c, src, dst, isDir)))
  {
    hide RekeyWith;
    var keys, r := FileKeys(c.files, src, isDir), NewFiles(c, src, dst, isDir);
    forall k | k in r
      ensures FileOwn(k, r[k]) && (r[k].localPath == CachePath(k) || (k in c.files && r[k] == c.files[k]))
    {
      RekeyWithAt(c.files, keys, src, dst, isDir, Retarget, k);
    }
  }

  lemma StepOwn(c: Cache, op: Op)
    requires FilesOwn(c) && Mannered(c, op)
    ensures FilesOwn(Step(c, op))
  {
    hide ApplyAll, ListsMoves, AllMovable, FileKeys, NewFiles, NewEntries, NewDeleted;
    if op.Rename? && CanRename(c, op.src, op.dst, op.isDir, op.moves) {
      RenameOwn(c, op.src, op.dst, op.isDir);
    }
  }

  lemma {:induction false} RunOwn(c: Cache, ops: seq<Op>)
    requires FilesOwn(c) && RunMannered(c, ops)
    ensures FilesOwn(Run(c, ops))
    decreases |ops|
  {
    if ops == [] {
    } else {
      hide FilesOwn, Step, Mannered;
      StepOwn(c, ops[0]);
      RunOwn(Step(c, ops[0]), ops[1..]);
    }
  }

  /** Such a cache is one that a rename forward and back restores. */
  lemma OwnRestores(c: Cache, src: Path, dst: Path, isDir: bool)
    requires FilesOwn(c) && EntriesNamed(c) && Apart(src, dst, isDir)
    ensures Restores(c, src, dst, isDir)
  {
    forall j, k | j in FileKeys(c.files, src, isDir) && k in FileKeys(c.files, src, isDir)
      ensures c.files[j].localPath != CachePath(Rebase(k, src, dst))
    {
      RebaseInverse(k, src, dst, isDir);
      assert FileOwn(j, c.files[j]);
    }
    forall j | j in c.files && j !in FileKeys(c.files, src, isDir)
      ensures StayerKept(c, src, isDir, j)
    {
      assert FileOwn(j, c.files[j]);
    }
  }

  /** In such a cache a renamed key's own cache path holds nothing but its own file. */
  lemma OwnBackOpen(c: Cache, src: Path, dst: Path, isDir: bool)
    requires FilesOwn(c) && SourcesClear(c, src, dst, isDir)
    ensures BackOpen(c, src, dst, isDir) <==>
              forall k :: k in FileKeys(c.files, src, isDir) ==>
                Read(c, k).Some? && (c.files[k].localPath == CachePath(k) || CachePath(k) !in c.disk)
  {
    KeysIn(c.files, src, isDir);
    forall k | k in FileKeys(c.files, src, isDir)
      ensures Leaves(c, src, isDir, CachePath(k)) <==> c.files[k].localPath == CachePath(k)
    {
      OwnLeaves(c, src, isDir, k);
    }
    hide FileKeys, SourcesClear, FilesOwn, Leaves, Read;
  }

  lemma OwnLeaves(c: Cache, src: Path, isDir: bool, k: Path)
    requires FilesOwn(c) && k in FileKeys(c.files, src, isDir)
    ensures Leaves(c, src, isDir, CachePath(k)) <==> c.files[k].localPath == CachePath(k)
  {
    if j :| j in FileKeys(c.files, src, isDir) && c.files[j].localPath == CachePath(k) {
      assert FileOwn(j, c.files[j]);
    }
  }

  /** After any run of operations on a cache that starts empty, a rename to where nothing is cached, and back,
      restores the keys, infos and bytes; and there is a way back unless a renamed file is missing, or was staged
      outside the cache while something else lay at its own cache path. */
  lemma RunThenBack(ops: seq<Op>, r: Cache, b: Cache, src: Path, dst: Path, isDir: bool, there: seq<Move>,
                    back: seq<Move>)
    requires RunMannered(EMPTY, ops) && Forth(Run(EMPTY, ops), r, src, dst, isDir, there)
    ensures Renames(r, b, dst, src, isDir, back) ==> Restored(Run(EMPTY, ops), b)
    ensures var c := Run(EMPTY, ops);
            BackOpen(c, src, dst, isDir) <==>
              forall k :: k in FileKeys(c.files, src, isDir) ==>
                Read(c, k).Some? && (c.files[k].localPath == CachePath(k) || CachePath(k) !in c.disk)
  {
    var c := Run(EMPTY, ops);
    RunOwn(EMPTY, ops);
    RunNamed(EMPTY, ops);
    hide Run, RunMannered, Renames, Restored, EntriesNamed, SourcesClear, NamedBelow, StayersKept, FilesOwn, BackOpen,
         FileKeys, Read;
    OwnRestores(c, src, dst, isDir);
    OwnBackOpen(c, src, dst, isDir);
    if Renames(r, b, dst, src, isDir, back) {
      ForwardAndBackIff(c, r, b, src, dst, isDir, there, back);
    }
  }

  // ---------------------------------------------------------------- the limits of that

  const STAGED := Elsewhere("staged")
  const AX := ["a", "x"]
  const AY := ["a", "y"]
  const BX := ["b", "x"]
  const BY := ["b", "y"]

  /** An upload that was renamed from BX to AY while the cache did not know its file, and is then restored, stores AY
      at the cache path of BX. Later that file goes, and AX is staged outside the cache. */
  function CrossingOps(info: Info): seq<Op> {
    [DiskBecomes(map[CachePath(BX) := "upload"]), StoreFile(AY, CachePath(BX), info),
     DiskBecomes(map[STAGED := "bytes"]), StoreFile(AX, STAGED, info)]
  }

  function Crossed(info: Info): Cache {
    var x, y := Normalize(AX, info), Normalize(AY, info);
    Cache(map[AX := LocalFile(x, STAGED), AY := LocalFile(y, CachePath(BX))], map[AX := x, AY := y], map[],
          map[STAGED := "bytes"])
  }

  function CrossingMoves(info: Info): seq<Move> {
    [Move(AX, BX, LocalFile(Normalize(AX, info), STAGED)), Move(AY, BY, LocalFile(Normalize(AY, info), CachePath(BX)))]
  }

  lemma CrossingArises(info: Info)
    ensures Run(EMPTY, CrossingOps(info)) == Crossed(info)
  {
    var ops := CrossingOps(info);
    var x, y := Normalize(AX, info), Normalize(AY, info);
    assert AX[1] != AY[1];
    var c2 := Cache(map[AY := LocalFile(y, CachePath(BX))], map[AY := y], map[], map[CachePath(BX) := "upload"]);
    assert Step(Step(EMPTY, ops[0]), ops[1]) == c2;
    assert Step(Step(c2, ops[2]), ops[3]) == Crossed(info);
    hide Step;
    RunFour(EMPTY, ops[0], ops[1], ops[2], ops[3]);
  }

  lemma RunFour(c: Cache, op0: Op, op1: Op, op2: Op, op3: Op)
    ensures Run(c, [op0, op1, op2, op3]) == Step(Step(Step(Step(c, op0), op1), op2), op3)
  {
    var ops := [op0, op1, op2, op3];
    assert ops[1..] == [op1, op2, op3] && ops[1..][1..] == [op2, op3];
    RunTwo(Step(Step(c, op0), op1), op2, op3);
    hide Step;
    assert Run(c, ops) == Run(Step(c, op0), ops[1..]) == Run(Step(Step(c, op0), op1), [op2, op3]);
  }

  lemma RunTwo(c: Cache, op0: Op, op1: Op)
    ensures Run(c, [op0, op1]) == Step(Step(c, op0), op1)
  {
    hide Step;
    assert [op0, op1][1..] == [op1] && [op1][1..] == [];
    assert Run(Step(c, op0), [op1]) == Run(Step(Step(c, op0), op1), []);
  }

  lemma CrossingDisk(info: Info)
    ensures var moves := CrossingMoves(info);
            && Real(moves) == moves && ApplyAll(map[STAGED := "bytes"], moves) == Some(map[CachePath(BY) := "bytes"])
            && forall m :: m in moves ==> m.NewPath() !in map[STAGED := "bytes"]
  {
    var moves := CrossingMoves(info);
    var m, n, d, e := moves[0], moves[1], map[STAGED := "bytes"], map[CachePath(BX) := "bytes"];
    assert BX[1] != BY[1];
    assert moves[..1] == [m] && [m][..0] == [] && moves == [m] + [n];
    assert Real([m]) == [m] && Real(moves) == [m] + [n];
    assert d - {STAGED} == map[] && e - {CachePath(BX)} == map[];
    assert Apply(d, m) == Some(e) && Apply(e, n) == Some(map[CachePath(BY) := "bytes"]);
    assert ApplyAll(d, [m]) == Some(e);
  }

  lemma CrossingLists(info: Info)
    ensures ListsMoves(CrossingMoves(info), FileKeys(Crossed(info).files, ["a"], true), Crossed(info), ["a"], ["b"])
    ensures FileKeys(Crossed(info).files, ["a"], true) == {AX, AY}
  {
    var c, moves, keys := Crossed(info), CrossingMoves(info), FileKeys(Crossed(info).files, ["a"], true);
    assert AX[1] != AY[1];
    assert ["a"] < AX && ["a"] < AY;
    assert keys == {AX, AY};
    assert Rebase(AX, ["a"], ["b"]) == BX && Rebase(AY, ["a"], ["b"]) == BY;
    assert moves[0].oldKey == AX && moves[1].oldKey == AY;
  }

  lemma CrossingFiles(info: Info)
    ensures var files := NewFiles(Crossed(info), ["a"], ["b"], true);
            BX in files && BY in files && files[BX].localPath == CachePath(BX) && files[BY].localPath == CachePath(BY)
  {
    hide RekeyWith;
    var c := Crossed(info);
    CrossingLists(info);
    assert Apart(["a"], ["b"], true) by {
      assert ["a"][0] != ["b"][0];
    }
    assert Rebase(AX, ["a"], ["b"]) == BX && Rebase(AY, ["a"], ["b"]) == BY;
    RebaseInverse(AX, ["a"], ["b"], true);
    RebaseInverse(AY, ["a"], ["b"], true);
    RekeyWithAt(c.files, {AX, AY}, ["a"], ["b"], true, Retarget, BX);
    RekeyWithAt(c.files, {AX, AY}, ["a"], ["b"], true, Retarget, BY);
  }

  lemma CrossingCan(info: Info)
    ensures CanRename(Crossed(info), ["a"], ["b"], true, CrossingMoves(info))
    ensures RenamedCache(Crossed(info), ["a"], ["b"], true, CrossingMoves(info)).disk == map[CachePath(BY) := "bytes"]
  {
    CrossingDisk(info);
    CrossingLists(info);
    var c, moves := Crossed(info), CrossingMoves(info);
    assert c.disk == map[STAGED := "bytes"];
    assert Apart(["a"], ["b"], true) by {
      assert ["a"][0] != ["b"][0];
    }
    hide ApplyAll, Real, ListsMoves, NewFiles, NewEntries, NewDeleted, FileKeys, Crossed, CrossingMoves, Apart;
    assert AllMovable(c.disk, moves, NOFAULTS) by {
      assert forall i :: 0 <= i < |moves| ==> moves[i] in moves;
    }
  }

  lemma CrossingReads(info: Info)
    ensures var c := Crossed(info);
            AX in c.files && AY in c.files && Read(c, AX) == Some("bytes") && Read(c, AY) == None
  {
    assert AX[1] != AY[1];
  }

  /** Renaming A to B then succeeds, and gives BY, whose file was gone, the bytes of AX, which BX no longer reads. */
  lemma BytesCross(info: Info)
    ensures var c, moves := Run(EMPTY, CrossingOps(info)), CrossingMoves(info);
            && CanRename(c, ["a"], ["b"], true, moves)
            && var r := RenamedCache(c, ["a"], ["b"], true, moves);
               && AX in c.files && AY in c.files && Read(c, AX) == Some("bytes") && Read(c, AY) == None
               && BX in r.files && BY in r.files && Read(r, BX) == None && Read(r, BY) == Some("bytes")
  {
    CrossingArises(info);
    CrossingCan(info);
    CrossingReads(info);
    CrossingFiles(info);
    assert BX != BY by {
      assert BX[1] != BY[1];
    }
    hide ApplyAll, Real, NewFiles, NewEntries, NewDeleted, Run, CrossingOps, CanRename, Crossed, CrossingMoves;
  }

  // ---------------------------------------------------------------- deleted directories

  predicate IsTombstone(deleted: map<Path, bool>, k: Path) {
    k in deleted && deleted[k]
  }

  /** Where an operation puts the directory tombstone that stands at `k`. */
  ghost function Follow(c: Cache, k: Path, op: Op): Path {
    match op
    case MarkDeleted(p, true, _) => if p <= k then p else k
    case HideDeleted(p, true) => if p <= k then p else k
    case Rename(src, dst, isDir, moves) =>
      if CanRename(c, src, dst, isDir, moves) && Matches(k, src, isDir) then Rebase(k, src, dst) else k
    case _ => k
  }

  /** The operations that leave it standing: stores elsewhere, removals that are not at or above it, deletions but for
      that of a file of its name, and renames that put no file tombstone in its place. */
  ghost predicate Spares(c: Cache, k: Path, op: Op) {
    match op
    case StoreFile(p, _, _) => p != k
    case StoreDirectory(p, _) => p != k
    case Remove(p, isDir, _) => !Matches(k, p, isDir)
    case Clear(p, isDir) => !Matches(k, p, isDir)
    case MarkDeleted(p, isDir, _) => isDir || p != k
    case HideDeleted(p, isDir) => isDir || p != k
    case Rename(src, dst, isDir, moves) => CanRename(c, src, dst, isDir, moves) ==> !LandsOn(c, k, src, dst, isDir)
    case _ => true
  }

  predicate LandsOn(c: Cache, k: Path, src: Path, dst: Path, isDir: bool) {
    Matches(k, dst, isDir) && Rebase(k, dst, src) in c.deleted && !c.deleted[Rebase(k, dst, src)]
  }

  lemma RenameTombstone(c: Cache, k: Path, src: Path, dst: Path, isDir: bool)
    requires Apart(src, dst, isDir) && IsTombstone(c.deleted, k)
    ensures var deleted := NewDeleted(c, src, dst, isDir);
            IsTombstone(deleted, if Matches(k, src, isDir) then Rebase(k, src, dst) else k)
            <==> !LandsOn(c, k, src, dst, isDir)
  {
    hide RekeyWith;
    var keys := EntryKeys(c.deleted, src, isDir);
    if Matches(k, src, isDir) {
      RebaseInverse(k, src, dst, isDir);
      RekeyWithAt(c.deleted, keys, src, dst, isDir, Same, Rebase(k, src, dst));
    } else {
      RekeyWithAt(c.deleted, keys, src, dst, isDir, Same, k);
      if Matches(k, dst, isDir) {
        RebaseBack(k, dst, src, isDir);
      }
    }
  }

  /** One operation leaves a directory tombstone standing, where `Follow` says, exactly when it spares it. */
  lemma TombstoneStaysIff(c: Cache, k: Path, op: Op)
    requires IsTombstone(c.deleted, k)
    ensures IsTombstone(Step(c, op).deleted, Follow(c, k, op)) <==> Spares(c, k, op)
  {
    if op.Rename? {
      hide RekeyWith, ApplyAll, ListsMoves, AllMovable, EntryKeys, LandsOn, IsTombstone, NewFiles, NewEntries, NewDeleted;
      if CanRename(c, op.src, op.dst, op.isDir, op.moves) {
        RenameTombstone(c, k, op.src, op.dst, op.isDir);
      }
    }
  }

  ghost function FollowAll(c: Cache, k: Path, ops: seq<Op>): Path
    decreases |ops|
  {
    if ops == [] then k else FollowAll(Step(c, ops[0]), Follow(c, k, ops[0]), ops[1..])
  }

  ghost predicate SparedBy(c: Cache, k: Path, ops: seq<Op>)
    decreases |ops|
  {
    ops != [] ==> Spares(c, k, ops[0]) && SparedBy(Step(c, ops[0]), Follow(c, k, ops[0]), ops[1..])
  }

  lemma {:induction false} TombstoneStays(c: Cache, k: Path, ops: seq<Op>)
    requires IsTombstone(c.deleted, k) && SparedBy(c, k, ops)
    ensures IsTombstone(Run(c, ops).deleted, FollowAll(c, k, ops))
    decreases |ops|
  {
    if ops == [] {
    } else {
      TombstoneStaysIff(c, k, ops[0]);
      hide Step, Follow, Spares;
      TombstoneStays(Step(c, ops[0]), Follow(c, k, ops[0]), ops[1..]);
    }
  }

  /** Unless a rename carries it away, the tombstone stays at or above its place. */
  lemma {:induction false} FollowAbove(c: Cache, k: Path, ops: seq<Op>)
    requires forall i :: 0 <= i < |ops| && ops[i].Rename? ==> !Matches(k, ops[i].src, true)
    ensures FollowAll(c, k, ops) <= k
    decreases |ops|
  {
    if ops == [] {
    } else {
      var op := ops[0];
      var j := Follow(c, k, op);
      assert j <= k by {
        assert op.Rename? ==> !Matches(k, op.src, true);
      }
      forall i | 0 <= i < |ops[1..]| && ops[1..][i].Rename?
        ensures !Matches(j, ops[1..][i].src, true)
      {
        assert ops[1..][i] == ops[i + 1];
        PrefixTransitive(ops[i + 1].src, j, k);
      }
      FollowAbove(Step(c, op), j, ops[1..]);
      PrefixTransitive(FollowAll(Step(c, op), j, ops[1..]), j, k);
    }
  }

  /** After a directory has been marked deleted, and through all later stores, removals, deletions and renames that
      spare its tombstone, nothing at or below the place to which renames have carried it is ever listed, whatever the
      remote still returns. That place is at or above the directory itself while none of them renames it. */
  lemma DeletedStaysHidden(c: Cache, d: Path, ops: seq<Op>, prefix: Path, items: seq<Info>, x: Path, info: Info)
    requires IsTombstone(c.deleted, d) && SparedBy(c, d, ops)
    ensures FollowAll(c, d, ops) <= x ==> !Lists(Run(c, ops), prefix, items, x, info)
    ensures (forall i :: 0 <= i < |ops| && ops[i].Rename? ==> !Matches(d, ops[i].src, true)) ==>
              (d <= x ==> !Lists(Run(c, ops), prefix, items, x, info))
  {
    TombstoneStays(c, d, ops);
    var k, deleted := FollowAll(c, d, ops), Run(c, ops).deleted;
    if forall i :: 0 <= i < |ops| && ops[i].Rename? ==> !Matches(d, ops[i].src, true) {
      FollowAbove(c, d, ops);
      PrefixTransitive(k, d, x);
    }
    hide Run, FollowAll, SparedBy;
    assert k <= x ==> k == x || Covers(deleted, k, x);
  }

  /** What is above a child is at or above its parent. */
  lemma AboveChild(k: Path, d: Path, x: Path)
    requires d <= x && |d| == |x| - 1
    ensures k < x ==> k <= d
  {
    if k < x {
      assert k == x[..|k|] && d == x[..|d|];
    }
  }

  /** Some directory tombstone stands at or above `d`. */
  ghost predicate TreeHidden(deleted: map<Path, bool>, d: Path) {
    exists k :: IsTombstone(deleted, k) && k <= d
  }

  /** The limit of that: creating the directory again before the remote delete has run lists the old remote
      children again, unless they have tombstones of their own. */
  lemma RecreatedDirectoryReveals(c: Cache, d: Path, dir: Info, child: Info, kept: set<DiskPath>)
    requires child.key != [] && Parent(child.key) == d && !TreeHidden(c.deleted, d)
    ensures Lists(Run(c, [MarkDeleted(d, true, kept), StoreDirectory(d, dir)]), d, [child], child.key, child)
  {
    var x := child.key;
    assert x[..|d|] == d && x != d && d < x;
    var ops := [MarkDeleted(d, true, kept), StoreDirectory(d, dir)];
    var c2 := Step(Step(c, ops[0]), ops[1]);
    RunTwo(c, ops[0], ops[1]);
    assert x !in c2.deleted && x !in c2.entries;
    forall k
      ensures !Covers(c2.deleted, k, x)
    {
      AboveChild(k, d, x);
      assert Covers(c2.deleted, k, x) ==> IsTombstone(c.deleted, k);
    }
    assert [child][0] == child;
  }

  /** Another: a file renamed to a path that has a tombstone stays hidden, as the rename does not lift it. */
  lemma RenamedOntoTombstoneHidden(c: Cache, src: Path, dst: Path, moves: seq<Move>, prefix: Path, items: seq<Info>,
                                   info: Info)
    requires CanRename(c, src, dst, false, moves) && src in c.entries && src !in c.deleted && dst in c.deleted
    ensures var r := Step(c, Rename(src, dst, false, moves));
            dst in r.entries && !Lists(r, prefix, items, dst, info)
  {
    hide RekeyWith, ApplyAll, ListsMoves, AllMovable;
    RekeyWithAt(c.entries, EntryKeys(c.entries, src, false), src, dst, false, Normalize, dst);
    RekeyWithAt(c.deleted, EntryKeys(c.deleted, src, false), src, dst, false, Same, dst);
    assert Rebase(dst, dst, src) == src;
  }
}
