/** The projection refresh of cloud_files_refresh_windows.go: the placeholders of one directory of the sync root brought
    in line with a remote listing. The disk is keyed by path, as removing a directory takes what lies below it. */
module Projection {
  import opened VirtualPaths
  import opened Wrappers

  datatype Item = Item(name: string, isDir: bool, size: int, fileId: string, fingerprint: string, modTime: int)

  /** What is at a path: a placeholder as projected, or something that was put there locally. */
  datatype Kind = Placeholder(item: Item) | Local(content: string)

  datatype Node = Node(isDir: bool, kind: Kind)

  type Disk = map<Path, Node>

  datatype Update = Updated | NotUpdated | UpdateFails

  /** The local state that owns paths: tombstones, local entries, and pending uploads. */
  datatype Owners = Owners(tombstones: map<Path, bool>, entries: set<Path>, pending: set<Path>)

  /** What the refresh reads and may run into: the owners, and the answers of the file system. A removal that fails
      leaves the paths that survive it, and the directories above them. */
  datatype Env = Env(
    owners: Owners, statFails: Path -> bool, createFails: Path -> bool, update: Path -> Update,
    withinRoot: Path -> bool, removeFails: Path -> bool, survives: Path -> bool)

  /** A path whose local state the refresh leaves alone. Of what is below it only pending uploads are asked for, and
      only when it is taken for a directory. */
  predicate Preserves(o: Owners, p: Path, isDir: bool) {
    || p == [] || p in o.tombstones || (exists k :: k in o.tombstones && o.tombstones[k] && k < p)
    || p in o.entries
    || if isDir then exists q :: q in o.pending && p < q else p in o.pending
  }

  predicate SameVersion(a: Item, b: Item) {
    a.size == b.size && a.fileId == b.fileId && a.fingerprint == b.fingerprint && a.isDir == b.isDir
    && a.modTime == b.modTime
  }

  function Get<K, V>(m: map<K, V>, k: K): Option<V> {
    if k in m then Some(m[k]) else None
  }

  predicate IsDirectory(disk: Disk, p: Path) {
    p == [] || (p in disk && disk[p].isDir)
  }

  /** Everything on disk lies in a directory. */
  predicate Tree(disk: Disk) {
    forall p :: p in disk ==> p != [] && IsDirectory(disk, Parent(p))
  }

  // ---------------------------------------------------------------- what a refresh may do to one name

  /** One name through a refresh: what was recorded, what is on disk, and whether its directory is there. */
  datatype Entry = Entry(recorded: Option<Item>, node: Option<Node>, inDir: bool)

  predicate Preserved(before: Entry, want: Option<Item>, p: Path, env: Env) {
    match want
    case Some(item) => Preserves(env.owners, p, item.isDir)
    case None => before.recorded.Some? && Preserves(env.owners, p, before.recorded.value.isDir)
  }

  /** A recorded name that the listing no longer has. */
  predicate Removes(before: Entry, want: Option<Item>, p: Path, env: Env) {
    want.None? && before.recorded.Some? && !Preserved(before, want, p, env)
  }

  /** The removal takes the whole tree: the name was recorded as a directory, or is one on disk. */
  predicate TakesTree(before: Entry) {
    before.recorded.Some? && before.node.Some? && (before.recorded.value.isDir || before.node.value.isDir)
  }

  function Fresh(item: Item): Node {
    Node(item.isDir, Placeholder(item))
  }

  /** What a successful refresh records for the name and has at its path. */
  function After(before: Entry, want: Option<Item>, p: Path, env: Env): (Option<Item>, Option<Node>) {
    var same := (before.recorded, before.node);
    match want
    case None => if Removes(before, want, p, env) then (None, None) else same
    case Some(item) =>
      if Preserved(before, want, p, env) then same
      else if before.recorded.None? then
        if before.node.Some? then same else (want, Some(Fresh(item)))
      else if SameVersion(before.recorded.value, item) then (want, before.node)
      else if before.node.None? then (want, Some(Fresh(item)))
      else if env.update(p).NotUpdated? then same
      else (want, Some(before.node.value.(kind := Placeholder(item))))
  }

  predicate CreateStops(before: Entry, p: Path, env: Env) {
    env.statFails(p) || (before.node.None? && (env.createFails(p) || !before.inDir))
  }

  /** Whether the name stops the refresh with an error. */
  predicate Stops(before: Entry, want: Option<Item>, p: Path, env: Env) {
    match want
    case None =>
      && Removes(before, want, p, env)
      && (!env.withinRoot(p) || env.statFails(p) || (before.node.Some? && env.removeFails(p)))
    case Some(item) =>
      && !Preserved(before, want, p, env)
      && !(before.recorded.Some? && SameVersion(before.recorded.value, item))
      && (CreateStops(before, p, env)
          || (before.node.Some? && before.recorded.Some? && env.update(p).UpdateFails?))
  }

  /** The listing by name: unnamed items are dropped, and the last of several with one name wins. */
  function Desired(items: seq<Item>): map<string, Item> {
    if items == [] then map[]
    else
      var front, last := Desired(items[..|items| - 1]), items[|items| - 1];
      if last.name == "" then front else front[last.name := last]
  }

  method PlaceholderMap(items: seq<Item>) returns (m: map<string, Item>)
    ensures m == Desired(items)
  {
    m := map[];
    for i := 0 to |items|
      invariant m == Desired(items[..i])
    {
      assert items[..i + 1][..i] == items[..i];
      if items[i].name != "" {
        m := m[items[i].name := items[i]];
      }
    }
    assert items[..|items|] == items;
  }

  lemma {:induction false} DesiredIsLast(items: seq<Item>, n: string)
    ensures n in Desired(items) <==> n != "" && exists i :: 0 <= i < |items| && items[i].name == n
    ensures n in Desired(items) ==>
              exists i :: 0 <= i < |items| && items[i].name == n && Desired(items)[n] == items[i]
                          && forall j :: i < j < |items| ==> items[j].name != n
  {
    if items == [] {
    } else {
      var front, last := items[..|items| - 1], items[|items| - 1];
      DesiredIsLast(front, n);
      assert forall i :: 0 <= i < |front| ==> items[i] == front[i];
      if last.name == n && n != "" {
        assert items[|items| - 1].name == n;
      }
    }
  }

  // ---------------------------------------------------------------- removing from disk

  /** Removing a path, with everything below it if the whole tree goes. */
  function Taken(disk: Disk, p: Path, tree: bool): Disk {
    map q | q in disk && !(q == p || (tree && p < q)) :: disk[q]
  }

  /** What a tree removal that failed half way leaves. */
  function HalfTaken(disk: Disk, p: Path, survives: Path -> bool): Disk {
    map q | q in disk && (p <= q ==> exists z :: z in disk && q <= z && survives(z)) :: disk[q]
  }

  // ---------------------------------------------------------------- a refresh of one directory

  /** The record of each projected directory, and the disk, both by path below the sync root. */
  datatype State = State(projected: map<Path, map<string, Item>>, disk: Disk)

  function Previous(s: State, dir: Path): map<string, Item> {
    if dir in s.projected then s.projected[dir] else map[]
  }

  function At(s: State, dir: Path, n: string): Entry {
    Entry(Get(Previous(s, dir), n), Get(s.disk, dir + [n]), IsDirectory(s.disk, dir))
  }

  function AfterAt(s: State, dir: Path, desired: map<string, Item>, n: string, env: Env): (Option<Item>, Option<Node>) {
    After(At(s, dir, n), Get(desired, n), dir + [n], env)
  }

  predicate StopsAt(s: State, dir: Path, desired: map<string, Item>, n: string, env: Env) {
    Stops(At(s, dir, n), Get(desired, n), dir + [n], env)
  }

  predicate RemovesAt(s: State, dir: Path, desired: map<string, Item>, n: string, env: Env) {
    Removes(At(s, dir, n), Get(desired, n), dir + [n], env)
  }

  /** What a successful refresh has at a path: names get their own outcome, and what lies below a removed directory
      goes with it. */
  function NodeAfter(s: State, dir: Path, desired: map<string, Item>, env: Env, q: Path): Option<Node> {
    if !(dir < q) then Get(s.disk, q)
    else
      var n := q[|dir|];
      if |q| == |dir| + 1 then AfterAt(s, dir, desired, n, env).1
      else if RemovesAt(s, dir, desired, n, env) && TakesTree(At(s, dir, n)) then None
      else Get(s.disk, q)
  }

  /** What is at a path once the names `done` have been seen to. */
  function NodeWhen(s: State, dir: Path, desired: map<string, Item>, env: Env, done: set<string>, q: Path): Option<Node> {
    if dir < q && q[|dir|] in done then NodeAfter(s, dir, desired, env, q) else Get(s.disk, q)
  }

  /** Whether the removal of a name gets as far as the file system and fails there on a tree. */
  predicate FailsInTree(s: State, dir: Path, desired: map<string, Item>, n: string, env: Env) {
    RemovesAt(s, dir, desired, n, env) && TakesTree(At(s, dir, n))
    && env.withinRoot(dir + [n]) && !env.statFails(dir + [n]) && env.removeFails(dir + [n])
  }

  /** What is at a path when the name `b` has stopped the refresh after the names `done`. */
  function NodeStopped(s: State, dir: Path, desired: map<string, Item>, env: Env, done: set<string>, b: string, q: Path)
    : Option<Node>
  {
    if dir + [b] <= q && FailsInTree(s, dir, desired, b, env) then
      Get(HalfTaken(s.disk, dir + [b], env.survives), q)
    else NodeWhen(s, dir, desired, env, done, q)
  }

  /** A refresh that stopped at the name `b`: the wanted names come first, and nothing is recorded. */
  ghost predicate StoppedAt(s: State, t: State, dir: Path, desired: map<string, Item>, env: Env, done: set<string>,
                            b: string)
  {
    && b !in done && StopsAt(s, dir, desired, b, env)
    && (forall n :: n in done ==> !StopsAt(s, dir, desired, n, env))
    && (if b in desired then done <= desired.Keys else desired.Keys <= done)
    && forall q :: Get(t.disk, q) == NodeStopped(s, dir, desired, env, done, b, q)
  }

  /** A refresh as a relation. */
  ghost predicate Refreshes(s: State, t: State, dir: Path, items: seq<Item>, env: Env, ok: bool) {
    var desired := Desired(items);
    && (ok <==> forall n :: !StopsAt(s, dir, desired, n, env))
    && (forall d :: d != dir ==> Get(t.projected, d) == Get(s.projected, d))
    && (ok ==> && dir in t.projected
               && (forall n :: Get(t.projected[dir], n) == AfterAt(s, dir, desired, n, env).0)
               && forall q :: Get(t.disk, q) == NodeAfter(s, dir, desired, env, q))
    && (!ok ==> t.projected == s.projected && exists done, b :: StoppedAt(s, t, dir, desired, env, done, b))
  }

  class CloudFilesHydrator {
    var projected: map<Path, map<string, Item>>
    var disk: Disk

    ghost function Current(): State
      reads this
    {
      State(projected, disk)
    }

    constructor (projected: map<Path, map<string, Item>>, disk: Disk)
      ensures Current() == State(projected, disk)
    {
      this.projected, this.disk := projected, disk;
    }

    /** Returns whether a placeholder was made; an item that is already there belongs to someone else. */
    method CreatePlaceholder(dir: Path, n: string, item: Item, env: Env) returns (created: bool, ok: bool)
      modifies this`disk
      ensures ok <==> !CreateStops(old(At(Current(), dir, n)), dir + [n], env)
      ensures created <==> ok && dir + [n] !in old(disk)
      ensures disk == if created then old(disk)[dir + [n] := Fresh(item)] else old(disk)
    {
      var p := dir + [n];
      if env.statFails(p) {
        return false, false;
      }
      if p in disk {
        return false, true;
      }
      if env.createFails(p) || !IsDirectory(disk, dir) {
        return false, false;
      }
      disk := disk[p := Fresh(item)];
      created, ok := true, true;
    }

    /** A path that is a directory, or was recorded as one, goes with everything below it. */
    method RemovePlaceholder(dir: Path, n: string, item: Item, env: Env) returns (ok: bool)
      modifies this`disk
      ensures var p := dir + [n]; var there := p in old(disk);
              var tree := there && (item.isDir || old(disk)[p].isDir);
              var reached := env.withinRoot(p) && !env.statFails(p);
              && (ok <==> reached && (!there || !env.removeFails(p)))
              && disk == if ok then Taken(old(disk), p, tree)
                         else if reached && tree then HalfTaken(old(disk), p, env.survives)
                         else old(disk)
    {
      var p := dir + [n];
      if !env.withinRoot(p) || env.statFails(p) {
        return false;
      }
      if p !in disk {
        assert Taken(disk, p, false) == disk;
        return true;
      }
      var removeTree := item.isDir || disk[p].isDir;
      if env.removeFails(p) {
        if removeTree {
          disk := HalfTaken(disk, p, env.survives);
        }
        return false;
      }
      disk := Taken(disk, p, removeTree);
      ok := true;
    }

    /** One wanted name; `keep` is what to record for it. */
    method RefreshWanted(dir: Path, previous: map<string, Item>, n: string, item: Item, env: Env)
      returns (keep: Option<Item>, ok: bool)
      requires previous == Previous(Current(), dir)
      modifies this`disk
      ensures var before := old(At(Current(), dir, n)); var p := dir + [n];
              && (ok <==> !Stops(before, Some(item), p, env))
              && (ok ==> (keep, Get(disk, p)) == After(before, Some(item), p, env))
              && (!ok ==> disk == old(disk))
              && forall q :: q != p ==> Get(disk, q) == Get(old(disk), q)
    {
      var p := dir + [n];
      hide Preserves;
      if Preserves(env.owners, p, item.isDir) {
        return Get(previous, n), true;
      }
      var created;
      if n !in previous {
        created, ok := CreatePlaceholder(dir, n, item, env);
        return if created then Some(item) else None, ok;
      }
      if SameVersion(previous[n], item) {
        return Some(item), true;
      }
      if env.statFails(p) {
        return None, false;
      }
      if p !in disk {
        created, ok := CreatePlaceholder(dir, n, item, env);
        return if created then Some(item) else Some(previous[n]), ok;
      }
      match env.update(p) {
        case UpdateFails => return None, false;
        case NotUpdated => return Some(previous[n]), true;
        case Updated =>
          disk := disk[p := disk[p].(kind := Placeholder(item))];
          return Some(item), true;
      }
    }

    /** One recorded name that is no longer wanted. */
    method RefreshGone(dir: Path, previous: map<string, Item>, n: string, env: Env)
      returns (keep: Option<Item>, ok: bool)
      requires previous == Previous(Current(), dir) && n in previous
      modifies this`disk
      ensures var before := old(At(Current(), dir, n)); var p := dir + [n];
              && (ok <==> !Stops(before, None, p, env))
              && (ok ==> keep == After(before, None, p, env).0)
              && disk == if !Removes(before, None, p, env) then old(disk)
                         else if ok then Taken(old(disk), p, TakesTree(before))
                         else if env.withinRoot(p) && !env.statFails(p) && TakesTree(before)
                              then HalfTaken(old(disk), p, env.survives)
                         else old(disk)
    {
      hide Preserves, Taken, HalfTaken;
      if Preserves(env.owners, dir + [n], previous[n].isDir) {
        return Some(previous[n]), true;
      }
      ok := RemovePlaceholder(dir, n, previous[n], env);
      keep := None;
    }

    /** One turn of the first loop. */
    method NextWanted(dir: Path, previous: map<string, Item>, next: map<string, Item>, n: string,
                      desired: map<string, Item>, env: Env, ghost s: State, ghost done: set<string>)
      returns (next': map<string, Item>, ok: bool)
      requires projected == s.projected && previous == Previous(s, dir) && n in desired && n !in done
      requires done <= desired.Keys && Progress(s, next, disk, dir, desired, env, done)
      modifies this`disk
      ensures ok ==> Progress(s, next', disk, dir, desired, env, done + {n})
      ensures !ok ==> StoppedAt(s, Current(), dir, desired, env, done, n)
    {
      hide After, Stops, Progress, StoppedAt, IsDirectory, At;
      ghost var before := disk;
      Unseen(s, next, disk, dir, desired, env, done, n);
      var keep;
      keep, ok := RefreshWanted(dir, previous, n, desired[n], env);
      next' := if keep.Some? then next[n := keep.value] else next;
      if ok {
        WantedStep(s, next, before, next', disk, dir, desired, env, done, n);
      } else {
        WantedFails(s, next, disk, dir, desired, env, done, n);
      }
    }

    /** The first loop, over the wanted names. */
    method RefreshAll(dir: Path, desired: map<string, Item>, env: Env) returns (next: map<string, Item>, ok: bool)
      modifies this`disk
      ensures ok ==> Progress(old(Current()), next, disk, dir, desired, env, desired.Keys)
      ensures !ok ==> exists done, b :: StoppedAt(old(Current()), Current(), dir, desired, env, done, b)
    {
      hide Progress, StoppedAt;
      ghost var s := Current();
      var previous := if dir in projected then projected[dir] else map[];
      next := map[];
      var todo := desired.Keys;
      NoProgress(s, dir, desired, env);
      assert desired.Keys - todo == {};
      while todo != {}
        invariant todo <= desired.Keys && projected == s.projected && previous == Previous(s, dir)
        invariant Progress(s, next, disk, dir, desired, env, desired.Keys - todo)
        decreases |todo|
      {
        var n :| n in todo;
        assert desired.Keys - todo + {n} == desired.Keys - (todo - {n});
        next, ok := NextWanted(dir, previous, next, n, desired, env, s, desired.Keys - todo);
        if !ok {
          return;
        }
        todo := todo - {n};
      }
      assert desired.Keys - todo == desired.Keys;
      ok := true;
    }

    /** One turn of the second loop. */
    method NextGone(dir: Path, previous: map<string, Item>, next: map<string, Item>, n: string,
                    desired: map<string, Item>, env: Env, ghost s: State, ghost done: set<string>)
      returns (next': map<string, Item>, ok: bool)
      requires projected == s.projected && previous == Previous(s, dir) && n in previous
      requires n !in desired && n !in done && desired.Keys <= done
      requires Progress(s, next, disk, dir, desired, env, done)
      modifies this`disk
      ensures ok ==> Progress(s, next', disk, dir, desired, env, done + {n})
      ensures !ok ==> StoppedAt(s, Current(), dir, desired, env, done, n)
    {
      hide After, Progress, StoppedAt, IsDirectory, At, Taken, HalfTaken, TakesTree, Preserved;
      ghost var before := disk;
      Unseen(s, next, disk, dir, desired, env, done, n);
      var keep;
      keep, ok := RefreshGone(dir, previous, n, env);
      next' := if keep.Some? then next[n := keep.value] else next;
      if ok {
        GoneStep(s, next, before, next', disk, dir, desired, env, done, n);
      } else {
        GoneFails(s, next, before, disk, dir, desired, env, done, n);
      }
    }

    /** The second loop, over the recorded names that are no longer wanted. */
    method RemoveGone(dir: Path, kept: map<string, Item>, desired: map<string, Item>, env: Env, ghost s: State)
      returns (next: map<string, Item>, ok: bool, ghost done: set<string>)
      requires projected == s.projected && Progress(s, kept, disk, dir, desired, env, desired.Keys)
      modifies this`disk
      ensures ok ==> Progress(s, next, disk, dir, desired, env, done)
                     && desired.Keys <= done && Previous(s, dir).Keys <= done
      ensures !ok ==> exists done, b :: StoppedAt(s, Current(), dir, desired, env, done, b)
    {
      hide Progress, StoppedAt;
      next := kept;
      var previous := if dir in projected then projected[dir] else map[];
      var todo := previous.Keys - desired.Keys;
      done := desired.Keys;
      while todo != {}
        invariant projected == s.projected && previous == Previous(s, dir)
        invariant forall n :: n in todo ==> n in previous && n !in done
        invariant forall n :: n in previous || n in desired ==> n in todo || n in done
        invariant Progress(s, next, disk, dir, desired, env, done) && desired.Keys <= done
        decreases |todo|
      {
        var n :| n in todo;
        next, ok := NextGone(dir, previous, next, n, desired, env, s, done);
        if !ok {
          return;
        }
        todo, done := todo - {n}, done + {n};
      }
      ok := true;
    }

    method Refresh(dir: Path, items: seq<Item>, env: Env) returns (ok: bool)
      modifies this
      ensures Refreshes(old(Current()), Current(), dir, items, env, ok)
    {
      hide After, Stops, Progress, StoppedAt, NodeAfter, IsDirectory;
      ghost var s := Current();
      var desired := PlaceholderMap(items);
      var next;
      next, ok := RefreshAll(dir, desired, env);
      if !ok {
        SomeStops(s, Current(), dir, desired, env);
        return;
      }
      ghost var done;
      next, ok, done := RemoveGone(dir, next, desired, env, s);
      if !ok {
        SomeStops(s, Current(), dir, desired, env);
        return;
      }
      Completed(s, next, disk, dir, desired, env, done);
      projected := projected[dir := next];
    }
  }

  /** The names `done` have been seen to; all others are as they were, and not recorded yet. */
  ghost predicate Progress(s: State, next: map<string, Item>, disk: Disk, dir: Path, desired: map<string, Item>,
                           env: Env, done: set<string>)
  {
    && (forall n :: n in done ==> !StopsAt(s, dir, desired, n, env))
    && (forall n :: Get(next, n) == if n in done then AfterAt(s, dir, desired, n, env).0 else None)
    && forall q :: Get(disk, q) == NodeWhen(s, dir, desired, env, done, q)
  }

  lemma NoProgress(s: State, dir: Path, desired: map<string, Item>, env: Env)
    ensures Progress(s, map[], s.disk, dir, desired, env, {})
  {
  }

  /** A name of the directory is found at its own path only. */
  lemma NamePath(dir: Path, n: string, q: Path)
    ensures dir < dir + [n] && (dir + [n])[|dir|] == n
    ensures dir + [n] <= q <==> dir < q && q[|dir|] == n
    ensures q == dir + [n] <==> dir < q && q[|dir|] == n && |q| == |dir| + 1
  {
    if dir < q {
      assert q[..|dir|] == dir;
      assert q[|dir|] == n ==> q[..|dir| + 1] == dir + [n];
      if |q| == |dir| + 1 {
        assert q == q[..|dir| + 1];
      }
    }
    if dir + [n] <= q {
      assert q[..|dir|] == (dir + [n])[..|dir|] == dir;
    }
  }

  lemma Unseen(s: State, next: map<string, Item>, disk: Disk, dir: Path, desired: map<string, Item>, env: Env,
               done: set<string>, n: string)
    requires Progress(s, next, disk, dir, desired, env, done) && n !in done
    ensures n !in next && At(State(s.projected, disk), dir, n) == At(s, dir, n)
    ensures forall q :: dir + [n] <= q ==> Get(disk, q) == Get(s.disk, q)
  {
    hide After, Stops;
    assert Get(next, n) == None;
    NamePath(dir, n, dir + [n]);
    assert Get(disk, dir + [n]) == Get(s.disk, dir + [n]);
    assert Get(disk, dir) == NodeWhen(s, dir, desired, env, done, dir) == Get(s.disk, dir);
    forall q | dir + [n] <= q
      ensures Get(disk, q) == Get(s.disk, q)
    {
      NamePath(dir, n, q);
    }
  }

  lemma WantedFails(s: State, next: map<string, Item>, disk: Disk, dir: Path, desired: map<string, Item>, env: Env,
                    done: set<string>, n: string)
    requires Progress(s, next, disk, dir, desired, env, done) && StopsAt(s, dir, desired, n, env)
    requires n in desired && n !in done && done <= desired.Keys
    ensures StoppedAt(s, State(s.projected, disk), dir, desired, env, done, n)
  {
    hide After, Stops, NodeWhen;
  }

  lemma WantedStep(s: State, next: map<string, Item>, disk: Disk, next': map<string, Item>, disk': Disk, dir: Path,
                   desired: map<string, Item>, env: Env, done: set<string>, n: string)
    requires Progress(s, next, disk, dir, desired, env, done) && !StopsAt(s, dir, desired, n, env) && n in desired
    requires (Get(next', n), Get(disk', dir + [n])) == AfterAt(s, dir, desired, n, env)
    requires forall m :: m != n ==> Get(next', m) == Get(next, m)
    requires forall q :: q != dir + [n] ==> Get(disk', q) == Get(disk, q)
    ensures Progress(s, next', disk', dir, desired, env, done + {n})
  {
    hide After, Stops;
    forall m
      ensures Get(next', m) == if m in done + {n} then AfterAt(s, dir, desired, m, env).0 else None
    {
      assert m != n ==> Get(next', m) == Get(next, m);
    }
    forall q
      ensures Get(disk', q) == NodeWhen(s, dir, desired, env, done + {n}, q)
    {
      NamePath(dir, n, q);
      assert q != dir + [n] ==> Get(disk', q) == Get(disk, q) == NodeWhen(s, dir, desired, env, done, q);
    }
  }

  lemma GoneFails(s: State, next: map<string, Item>, disk: Disk, disk': Disk, dir: Path, desired: map<string, Item>,
                  env: Env, done: set<string>, n: string)
    requires Progress(s, next, disk, dir, desired, env, done) && StopsAt(s, dir, desired, n, env)
    requires n !in desired && n !in done && desired.Keys <= done
    requires disk' == if FailsInTree(s, dir, desired, n, env) then HalfTaken(disk, dir + [n], env.survives) else disk
    ensures StoppedAt(s, State(s.projected, disk'), dir, desired, env, done, n)
  {
    hide After, Stops, NodeWhen, FailsInTree, HalfTaken;
    Unseen(s, next, disk, dir, desired, env, done, n);
    forall q
      ensures Get(disk', q) == NodeStopped(s, dir, desired, env, done, n, q)
    {
      assert Get(disk, q) == NodeWhen(s, dir, desired, env, done, q);
      if FailsInTree(s, dir, desired, n, env) {
        HalfTakenAt(disk, s.disk, dir + [n], env.survives, q);
      }
    }
  }

  /** A half-taken tree depends on nothing but the tree. */
  lemma HalfTakenAt(disk: Disk, disk0: Disk, p: Path, survives: Path -> bool, q: Path)
    requires forall z :: p <= z ==> Get(disk, z) == Get(disk0, z)
    ensures Get(HalfTaken(disk, p, survives), q)
         == if p <= q then Get(HalfTaken(disk0, p, survives), q) else Get(disk, q)
  {
    if p <= q {
      forall z | q <= z
        ensures Get(disk, z) == Get(disk0, z)
      {
        PrefixTransitive(p, q, z);
      }
      assert Get(disk, q) == Get(disk0, q);
      if z :| z in disk && q <= z && survives(z) {
        assert Get(disk, z) == Get(disk0, z);
      }
      if z :| z in disk0 && q <= z && survives(z) {
        assert Get(disk, z) == Get(disk0, z);
      }
    }
  }

  lemma TakenAt(disk: Disk, p: Path, tree: bool, q: Path)
    ensures Get(Taken(disk, p, tree), q) == if q == p || (tree && p < q) then None else Get(disk, q)
  {
  }

  lemma GoneStep(s: State, next: map<string, Item>, disk: Disk, next': map<string, Item>, disk': Disk, dir: Path,
                 desired: map<string, Item>, env: Env, done: set<string>, n: string)
    requires Progress(s, next, disk, dir, desired, env, done) && !StopsAt(s, dir, desired, n, env)
    requires n !in desired && n !in done && Get(next', n) == AfterAt(s, dir, desired, n, env).0
    requires forall m :: m != n ==> Get(next', m) == Get(next, m)
    requires disk' == if RemovesAt(s, dir, desired, n, env) then Taken(disk, dir + [n], TakesTree(At(s, dir, n)))
                      else disk
    ensures Progress(s, next', disk', dir, desired, env, done + {n})
  {
    hide Stops, Taken, Preserved, TakesTree;
    forall m
      ensures Get(next', m) == if m in done + {n} then AfterAt(s, dir, desired, m, env).0 else None
    {
      assert m != n ==> Get(next', m) == Get(next, m);
    }
    Unseen(s, next, disk, dir, desired, env, done, n);
    forall q
      ensures Get(disk', q) == NodeWhen(s, dir, desired, env, done + {n}, q)
    {
      NamePath(dir, n, q);
      assert Get(disk, q) == NodeWhen(s, dir, desired, env, done, q);
      TakenAt(disk, dir + [n], TakesTree(At(s, dir, n)), q);
    }
  }

  lemma SomeStops(s: State, t: State, dir: Path, desired: map<string, Item>, env: Env)
    requires exists done, b :: StoppedAt(s, t, dir, desired, env, done, b)
    ensures exists n :: StopsAt(s, dir, desired, n, env)
  {
    hide Stops;
    var done, b :| StoppedAt(s, t, dir, desired, env, done, b);
  }

  lemma ForeignName(s: State, dir: Path, desired: map<string, Item>, n: string, env: Env)
    requires n !in desired && n !in Previous(s, dir)
    ensures AfterAt(s, dir, desired, n, env) == (None, Get(s.disk, dir + [n]))
    ensures !StopsAt(s, dir, desired, n, env) && !RemovesAt(s, dir, desired, n, env)
  {
  }

  lemma Completed(s: State, next: map<string, Item>, disk: Disk, dir: Path, desired: map<string, Item>, env: Env,
                  done: set<string>)
    requires Progress(s, next, disk, dir, desired, env, done) && desired.Keys <= done && Previous(s, dir).Keys <= done
    ensures forall n :: !StopsAt(s, dir, desired, n, env) && Get(next, n) == AfterAt(s, dir, desired, n, env).0
    ensures forall q :: Get(disk, q) == NodeAfter(s, dir, desired, env, q)
  {
    hide After, Stops;
    forall n
      ensures !StopsAt(s, dir, desired, n, env) && Get(next, n) == AfterAt(s, dir, desired, n, env).0
    {
      if n !in done {
        ForeignName(s, dir, desired, n, env);
      }
    }
    forall q
      ensures Get(disk, q) == NodeAfter(s, dir, desired, env, q)
    {
      assert Get(disk, q) == NodeWhen(s, dir, desired, env, done, q);
      if dir < q && q[|dir|] !in done {
        NamePath(dir, q[|dir|], q);
        ForeignName(s, dir, desired, q[|dir|], env);
      }
    }
  }
}
