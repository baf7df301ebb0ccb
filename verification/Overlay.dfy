/** The listing entry of an object. */
module ObjectInfo {
  import opened VirtualPaths

  /** The key keeps its trailing slash apart. */
  datatype Info = Info(key: Path, slash: bool, isDir: bool, size: int, modified: string)

  function Normalize(key: Path, info: Info): Info {
    info.(key := key, slash := info.isDir)
  }
}

/** The local overlay of bucket_cache.go: staged files, local entries and tombstones over the remote listings. */
module Overlay {
  import opened ObjectInfo
  import opened VirtualPaths

  /** The cache hashes a key to a file name of its own; other files lie elsewhere. */
  datatype DiskPath = CachePath(key: Path) | Elsewhere(name: string)

  datatype LocalFile = LocalFile(info: Info, localPath: DiskPath)

  type Disk = map<DiskPath, string>

  datatype Cache = Cache(files: map<Path, LocalFile>, entries: map<Path, Info>, deleted: map<Path, bool>, disk: Disk)

  predicate EntriesNamed(c: Cache) {
    forall k :: k in c.entries ==> c.entries[k] == Normalize(k, c.entries[k])
  }

  // ---------------------------------------------------------------- the simple specification

  /** A path is hidden by its own tombstone, or by that of a directory above it. */
  ghost predicate Hidden(deleted: map<Path, bool>, p: Path) {
    p in deleted || exists k :: Covers(deleted, k, p)
  }

  predicate Covers(deleted: map<Path, bool>, k: Path, p: Path) {
    k in deleted && deleted[k] && k < p
  }

  /** The last of the listed items for a path. */
  ghost predicate LastListed(items: seq<Info>, p: Path, info: Info) {
    exists i :: 0 <= i < |items| && items[i] == info && info.key == p
                && forall j :: i < j < |items| ==> items[j].key != p
  }

  predicate LocalChild(c: Cache, prefix: Path, p: Path) {
    p in c.entries && Parent(p) == prefix
  }

  /** One item per path: the unhidden remote items, overridden by the unhidden local direct children. */
  ghost predicate Lists(c: Cache, prefix: Path, items: seq<Info>, p: Path, info: Info) {
    !Hidden(c.deleted, p)
    && (if LocalChild(c, prefix, p) then info == c.entries[p] else LastListed(items, p, info))
  }

  // ---------------------------------------------------------------- the operations

  function Stored(c: Cache, p: Path, info: Info): Cache {
    c.(entries := c.entries[p := Normalize(p, info)], deleted := c.deleted - {p})
  }

  function StoredFile(c: Cache, p: Path, localPath: DiskPath, info: Info): Cache {
    Stored(c, p, info).(files := c.files[p := LocalFile(Normalize(p, info), localPath)])
  }

  /** What is stored is listed in its directory, whatever was deleted there before and whatever the provider lists,
      unless a directory above it is still deleted; and no other path is hidden by it. */
  lemma StoredIsListed(c: Cache, p: Path, info: Info, items: seq<Info>, q: Path)
    ensures var s := Stored(c, p, info);
            && (Hidden(s.deleted, p) <==> exists k :: k in c.deleted && c.deleted[k] && k < p)
            && (!Hidden(s.deleted, p) ==> Lists(s, Parent(p), items, p, info.(key := p, slash := info.isDir)))
            && (Hidden(s.deleted, q) ==> Hidden(c.deleted, q))
            && (Hidden(c.deleted, q) && q != p && !(p < q) ==> Hidden(s.deleted, q))
            && (Hidden(c.deleted, q) && !(p in c.deleted && c.deleted[p]) && q != p ==> Hidden(s.deleted, q))
  {
    var s := Stored(c, p, info);
    if k :| k in c.deleted && c.deleted[k] && k < p {
      assert Covers(s.deleted, k, p);
    }
    if k :| Covers(s.deleted, k, p) {
      assert k in c.deleted && c.deleted[k] && k < p;
    }
    if k :| Covers(s.deleted, k, q) {
      assert Covers(c.deleted, k, q);
    }
    if k :| Covers(c.deleted, k, q) && k != p {
      assert Covers(s.deleted, k, q);
    }
  }

  /** And a staged file is found where it was put. */
  lemma StoredFileIsFound(c: Cache, p: Path, localPath: DiskPath, info: Info, q: Path)
    ensures var s := StoredFile(c, p, localPath, info);
            && p in s.files && s.files[p].localPath == localPath && s.files[p].info == s.entries[p]
            && s.entries[p] == info.(key := p, slash := info.isDir) && p !in s.deleted && s.disk == c.disk
            && (q != p ==> (q in s.files <==> q in c.files) && (q in c.files ==> s.files[q] == c.files[q])
                           && (q in s.entries <==> q in c.entries) && (q in c.entries ==> s.entries[q] == c.entries[q]))
  {
  }

  /** The staged files of a path: its own, or those strictly below a directory. */
  function FileKeys<T>(m: map<Path, T>, p: Path, isDir: bool): set<Path> {
    set k | k in m && (if isDir then p < k else k == p)
  }

  function Cleared(c: Cache, p: Path, isDir: bool): Cache {
    Cache(c.files - FileKeys(c.files, p, isDir), Without(c.entries, p, isDir), Without(c.deleted, p, isDir), c.disk)
  }

  function PathsOf(files: map<Path, LocalFile>, keys: set<Path>): set<DiskPath> {
    set k | k in keys && k in files :: files[k].localPath
  }

  /** The same, with the staged files removed from disk but for those that the operating system keeps. */
  function Removed(c: Cache, p: Path, isDir: bool, kept: set<DiskPath>): Cache {
    Cleared(c, p, isDir).(disk := c.disk - (PathsOf(c.files, FileKeys(c.files, p, isDir)) - kept))
  }

  function Tombstoned(c: Cache, p: Path, isDir: bool): Cache {
    c.(deleted := c.deleted[p := isDir])
  }

  /** A removal leaves nothing of a path, or at or below a directory, but for a staged file at the directory's own path;
      all else keeps what it has, and the disk loses exactly the staged files that the system lets go. */
  lemma RemovedAt(c: Cache, p: Path, isDir: bool, kept: set<DiskPath>, k: Path, d: DiskPath)
    ensures var r := Removed(c, p, isDir, kept);
            && (Matches(k, p, isDir) ==> k !in r.entries && k !in r.deleted && (k in r.files ==> isDir && k == p))
            && (!Matches(k, p, isDir) ==>
                  && (k in r.entries <==> k in c.entries) && (k in r.entries ==> r.entries[k] == c.entries[k])
                  && (k in r.deleted <==> k in c.deleted) && (k in r.deleted ==> r.deleted[k] == c.deleted[k]))
            && (!Matches(k, p, isDir) || (isDir && k == p) ==>
                  (k in r.files <==> k in c.files) && (k in r.files ==> r.files[k] == c.files[k]))
            && (d in r.disk <==> d in c.disk && !(d !in kept && exists q :: q in c.files && c.files[q].localPath == d
                                                                            && if isDir then p < q else q == p))
            && (d in r.disk ==> r.disk[d] == c.disk[d])
            && r.(disk := c.disk) == Cleared(c, p, isDir)
  {
    assert d in PathsOf(c.files, FileKeys(c.files, p, isDir)) <==>
             exists q :: q in c.files && c.files[q].localPath == d && if isDir then p < q else q == p;
  }

  /** What is deleted is hidden, with everything below a directory; anything else is hidden as it was, but for what an
      older tombstone of the path itself has hidden. */
  lemma DeletedIsHidden(c: Cache, p: Path, isDir: bool, q: Path)
    ensures Hidden(Tombstoned(Cleared(c, p, isDir), p, isDir).deleted, q)
       <==> q == p || (isDir && p < q) || HiddenBeside(c.deleted, p, q)
  {
    var deleted := Tombstoned(Cleared(c, p, isDir), p, isDir).deleted;
    if k :| k != p && Covers(c.deleted, k, q) {
      if p < k {
        PrefixTransitive(p, k, q);
      }
      assert !(isDir && p < k) ==> Covers(deleted, k, q);
    }
    if Hidden(deleted, q) && q != p && !(isDir && p < q) {
      if q !in deleted {
        var k :| Covers(deleted, k, q);
        assert k != p && Covers(c.deleted, k, q);
      }
      assert HiddenBeside(c.deleted, p, q);
    }
    if HiddenBeside(c.deleted, p, q) && q != p && !(isDir && p < q) {
      assert q in c.deleted ==> q in deleted;
      assert Hidden(deleted, q);
    }
    if isDir && p < q {
      assert Covers(deleted, p, q);
    }
  }

  /** Hidden otherwise than by the tombstone at `p`. */
  ghost predicate HiddenBeside(deleted: map<Path, bool>, p: Path, q: Path) {
    q in deleted || exists k :: k != p && Covers(deleted, k, q)
  }

  method DropBelow<T>(m: map<Path, T>, p: Path) returns (r: map<Path, T>)
    ensures r == m - FileKeys(m, p, true)
  {
    r := m;
    var todo := m.Keys;
    while todo != {}
      invariant todo <= m.Keys && r == m - (FileKeys(m, p, true) - todo)
      decreases |todo|
    {
      var key :| key in todo;
      todo := todo - {key};
      if p < key {
        r := r - {key};
      }
    }
  }

  lemma PathsOfNone(files: map<Path, LocalFile>)
    ensures PathsOf(files, {}) == {}
  {
  }

  lemma PathsOfMore(files: map<Path, LocalFile>, keys: set<Path>, k: Path)
    requires k in files
    ensures PathsOf(files, keys + {k}) == PathsOf(files, keys) + {files[k].localPath}
  {
  }

  lemma FileAt(files: map<Path, LocalFile>, p: Path)
    ensures FileKeys(files, p, false) == if p in files then {p} else {}
    ensures PathsOf(files, FileKeys(files, p, false)) == if p in files then {files[p].localPath} else {}
  {
  }

  class FileSystem {
    var disk: Disk

    method Remove(p: DiskPath, kept: set<DiskPath>)
      modifies this
      ensures disk == old(disk) - ({p} - kept)
    {
      if p !in kept {
        disk := disk - {p};
      }
    }
  }

  class BucketCache {
    var files: map<Path, LocalFile>
    var entries: map<Path, Info>
    var deleted: map<Path, bool>
    const fs: FileSystem

    ghost function Now(): Cache
      reads this, fs
    {
      Cache(files, entries, deleted, fs.disk)
    }

    constructor (fs: FileSystem)
      ensures this.fs == fs && Now() == Cache(map[], map[], map[], fs.disk)
    {
      this.fs := fs;
      files, entries, deleted := map[], map[], map[];
    }

    method StoreLocalFile(p: Path, localPath: DiskPath, info: Info)
      modifies this
      ensures Now() == StoredFile(old(Now()), p, localPath, info)
    {
      files := files[p := LocalFile(Normalize(p, info), localPath)];
      entries := entries[p := Normalize(p, info)];
      deleted := deleted - {p};
    }

    method StoreLocalDirectory(p: Path, info: Info)
      modifies this
      ensures Now() == Stored(old(Now()), p, info.(isDir := true))
    {
      entries := entries[p := Normalize(p, info.(isDir := true))];
      deleted := deleted - {p};
    }

    method RemoveLocalPath(p: Path, isDir: bool, kept: set<DiskPath>)
      modifies this, fs
      ensures Now() == Removed(old(Now()), p, isDir, kept)
    {
      if !isDir {
        hide PathsOf, FileKeys;
        FileAt(files, p);
        if p in files {
          fs.Remove(files[p].localPath, kept);
        }
        files := files - {p};
        entries := entries - {p};
        deleted := deleted - {p};
        return;
      }
      RemoveFilesBelow(p, kept);
      entries := DropAtOrBelow(entries, p);
      deleted := DropAtOrBelow(deleted, p);
    }

    method RemoveFilesBelow(p: Path, kept: set<DiskPath>)
      modifies this`files, fs
      ensures files == old(files) - FileKeys(old(files), p, true)
      ensures fs.disk == old(fs.disk) - (PathsOf(old(files), FileKeys(old(files), p, true)) - kept)
    {
      hide PathsOf;
      ghost var all, done := FileKeys(files, p, true), {};
      PathsOfNone(files);
      var todo := files.Keys;
      while todo != {}
        invariant todo <= old(files).Keys && done == all - todo && files == old(files) - done
        invariant fs.disk == old(fs.disk) - (PathsOf(old(files), done) - kept)
        decreases |todo|
      {
        var key :| key in todo;
        todo := todo - {key};
        if p < key {
          PathsOfMore(old(files), done, key);
          fs.Remove(files[key].localPath, kept);
          files := files - {key};
          done := done + {key};
        }
      }
      assert done == all;
    }

    method ClearLocalFileMarker(p: Path)
      modifies this`files
      ensures files == old(files) - {p}
    {
      files := files - {p};
    }

    /** Drops what is known of the path, and leaves the staged bytes where they are. */
    method ClearLocalMarkers(p: Path, isDir: bool)
      modifies this
      ensures Now() == Cleared(old(Now()), p, isDir)
    {
      if !isDir {
        files := files - {p};
        entries := entries - {p};
        deleted := deleted - {p};
        return;
      }
      files := DropBelow(files, p);
      entries := DropAtOrBelow(entries, p);
      deleted := DropAtOrBelow(deleted, p);
    }

    method MarkDeletedRetainingBytes(p: Path, isDir: bool)
      modifies this
      ensures Now() == Tombstoned(Cleared(old(Now()), p, isDir), p, isDir)
    {
      ClearLocalMarkers(p, isDir);
      deleted := deleted[p := isDir];
    }

    method MarkDeleted(p: Path, isDir: bool, kept: set<DiskPath>)
      modifies this, fs
      ensures Now() == Tombstoned(Removed(old(Now()), p, isDir, kept), p, isDir)
    {
      RemoveLocalPath(p, isDir, kept);
      deleted := deleted[p := isDir];
    }

    method HiddenByDelete(p: Path) returns (hidden: bool)
      ensures hidden <==> Hidden(deleted, p)
    {
      if p in deleted {
        return true;
      }
      var todo := deleted.Keys;
      while todo != {}
        invariant todo <= deleted.Keys && forall k :: k in deleted && k !in todo ==> !Covers(deleted, k, p)
        decreases |todo|
      {
        var key :| key in todo;
        todo := todo - {key};
        if deleted[key] && key < p {
          assert Covers(deleted, key, p);
          return true;
        }
      }
      hidden := false;
    }

    /** The remote part of the merge: the last unhidden item of each path. */
    method RemoteItems(items: seq<Info>) returns (byPath: map<Path, Info>)
      ensures forall p, info :: (p in byPath && byPath[p] == info) <==> !Hidden(deleted, p) && LastListed(items, p, info)
    {
      hide Hidden;
      byPath := map[];
      for i := 0 to |items|
        invariant forall p :: p in byPath ==> !Hidden(deleted, p) && LastListed(items[..i], p, byPath[p])
        invariant forall j :: 0 <= j < i && !Hidden(deleted, items[j].key) ==> items[j].key in byPath
      {
        var hidden := HiddenByDelete(items[i].key);
        ListedMore(items, i);
        if !hidden {
          byPath := byPath[items[i].key := items[i]];
        }
      }
      assert items[..|items|] == items;
      ListedOnce(items);
    }

    method OverrideLocal(prefix: Path, remote: map<Path, Info>) returns (byPath: map<Path, Info>)
      requires EntriesNamed(Now()) && forall p :: p in remote ==> remote[p].key == p
      ensures Overridden(Now(), prefix, remote, byPath, {})
    {
      hide Hidden, EntriesNamed, Overridden;
      byPath := remote;
      OverrideNone(Now(), prefix, remote);
      var todo := entries.Keys;
      while todo != {}
        invariant todo <= entries.Keys && Overridden(Now(), prefix, remote, byPath, todo)
        decreases |todo|
      {
        var key :| key in todo;
        assert todo - {key} + {key} == todo;
        todo := todo - {key};
        EntryKey(Now(), key);
        OverrideOne(Now(), prefix, remote, byPath, todo, key);
        if Parent(key) == prefix {
          var hidden := HiddenByDelete(key);
          if !hidden {
            byPath := byPath[entries[key].key := entries[key]];
          }
        }
      }
    }

    method MergeLocalFiles(prefix: Path, items: seq<Info>) returns (out: seq<Info>)
      requires EntriesNamed(Now())
      ensures forall info :: info in out <==> Lists(Now(), prefix, items, info.key, info)
      ensures forall i, j :: 0 <= i < j < |out| ==> out[i].key != out[j].key
    {
      hide Hidden, LastListed;
      RemoteNamed(items);
      var remote := RemoteItems(items);
      assert forall p :: p in remote ==> LastListed(items, p, remote[p]);
      var byPath := OverrideLocal(prefix, remote);
      out := Values(byPath);
      forall info
        ensures info in out <==> Lists(Now(), prefix, items, info.key, info)
      {
        assert LastListed(items, info.key, info) && !Hidden(deleted, info.key) <==>
               info.key in remote && remote[info.key] == info;
      }
    }
  }

  method Values(m: map<Path, Info>) returns (out: seq<Info>)
    requires forall p :: p in m ==> m[p].key == p
    ensures forall info :: info in out <==> info.key in m && m[info.key] == info
    ensures forall i, j :: 0 <= i < j < |out| ==> out[i].key != out[j].key
  {
    out := [];
    var left := m.Keys;
    while left != {}
      invariant left <= m.Keys
      invariant forall info :: info in out <==> info.key in m && info.key !in left && m[info.key] == info
      invariant forall i, j :: 0 <= i < j < |out| ==> out[i].key != out[j].key
      decreases |left|
    {
      var p :| p in left;
      forall i | 0 <= i < |out|
        ensures out[i].key != p
      {
        assert out[i] in out;
      }
      out := out + [m[p]];
      left := left - {p};
    }
  }

  /** The merge while the local entries `todo` are still to be looked at. */
  ghost predicate Overridden(s: Cache, prefix: Path, remote: map<Path, Info>, byPath: map<Path, Info>, todo: set<Path>) {
    && (forall p :: p in byPath ==> byPath[p].key == p)
    && forall p :: var local := LocalChild(s, prefix, p) && p !in todo && !Hidden(s.deleted, p);
                   && (p in byPath <==> local || p in remote)
                   && (p in byPath ==> byPath[p] == if local then s.entries[p] else remote[p])
  }

  lemma OverrideNone(c: Cache, prefix: Path, remote: map<Path, Info>)
    requires forall p :: p in remote ==> remote[p].key == p
    ensures Overridden(c, prefix, remote, remote, c.entries.Keys)
  {
    hide Hidden;
  }

  /** The loop looks at one more entry. */
  lemma OverrideOne(c: Cache, prefix: Path, remote: map<Path, Info>, byPath: map<Path, Info>, rest: set<Path>, k: Path)
    requires Overridden(c, prefix, remote, byPath, rest + {k}) && k in c.entries && c.entries[k].key == k && k !in rest
    ensures var local := Parent(k) == prefix && !Hidden(c.deleted, k);
            Overridden(c, prefix, remote, if local then byPath[k := c.entries[k]] else byPath, rest)
  {
    hide Hidden;
  }

  lemma EntryKey(c: Cache, k: Path)
    requires EntriesNamed(c) && k in c.entries
    ensures c.entries[k].key == k
  {
  }

  lemma RemoteNamed(items: seq<Info>)
    ensures forall p, info :: LastListed(items, p, info) ==> info.key == p
  {
  }

  lemma StillLast(items: seq<Info>, i: nat, p: Path, info: Info)
    requires i < |items| && p != items[i].key && LastListed(items[..i], p, info)
    ensures LastListed(items[..i + 1], p, info)
  {
    var k :| 0 <= k < i && items[..i][k] == info && info.key == p && forall j :: k < j < i ==> items[..i][j].key != p;
    assert items[..i + 1][k] == info;
    assert forall j :: k < j < i ==> items[..i + 1][j] == items[..i][j];
  }

  lemma ListedMore(items: seq<Info>, i: nat)
    requires i < |items|
    ensures LastListed(items[..i + 1], items[i].key, items[i])
    ensures forall p, info :: p != items[i].key && LastListed(items[..i], p, info) ==> LastListed(items[..i + 1], p, info)
  {
    hide LastListed;
    forall p, info | p != items[i].key && LastListed(items[..i], p, info)
      ensures LastListed(items[..i + 1], p, info)
    {
      StillLast(items, i, p, info);
    }
    LastIs(items, i);
  }

  lemma LastIs(items: seq<Info>, i: nat)
    requires i < |items|
    ensures LastListed(items[..i + 1], items[i].key, items[i])
  {
    assert items[..i + 1][i] == items[i];
  }

  lemma ListedOnce(items: seq<Info>)
    ensures forall p, a, b :: LastListed(items, p, a) && LastListed(items, p, b) ==> a == b
  {
    forall p, a, b | LastListed(items, p, a) && LastListed(items, p, b)
      ensures a == b
    {
      var i :| 0 <= i < |items| && items[i] == a && a.key == p && forall j :: i < j < |items| ==> items[j].key != p;
      var k :| 0 <= k < |items| && items[k] == b && b.key == p && forall j :: k < j < |items| ==> items[j].key != p;
    }
  }
}
