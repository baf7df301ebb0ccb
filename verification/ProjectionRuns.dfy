/** What the projection refresh leaves alone and what it takes away, in one refresh and over any series of them. */
module ProjectionRuns {
  import opened Projection
  import opened VirtualPaths
  import opened Wrappers

  // ---------------------------------------------------------------- the disk stays a tree

  lemma {:induction false} AboveInTree(disk: Disk, p: Path, q: Path)
    requires Tree(disk) && q in disk && p < q
    ensures IsDirectory(disk, p)
    decreases |q|
  {
    var parent := Parent(q);
    assert p <= parent by {
      assert p == q[..|p|];
    }
    if p == parent {
    } else {
      AboveInTree(disk, p, parent);
    }
  }

  /** Where a name of the directory stands, and where what is below it stands. */
  lemma BelowName(dir: Path, q: Path)
    requires dir < q
    ensures var p := dir + [q[|dir|]]; p <= q && (|q| > |dir| + 1 ==> p <= Parent(q) && dir < Parent(q) && p < q)
    ensures |q| == |dir| + 1 ==> q == dir + [q[|dir|]] && Parent(q) == dir
  {
    NamePath(dir, q[|dir|], q);
    var p := dir + [q[|dir|]];
    if |q| > |dir| + 1 {
      assert Parent(q)[..|p|] == q[..|p|] == p;
      assert Parent(q)[..|dir|] == dir;
    } else {
      assert Parent(q) == q[..|dir|] == dir;
    }
  }

  lemma OutsideParent(dir: Path, q: Path)
    requires !(dir < q)
    ensures !(dir < Parent(q))
  {
    PrefixTransitive(dir, Parent(q), q);
  }

  /** A name that stays on disk stays a directory, and a placeholder is made only where its directory is. */
  lemma NameTree(s: State, dir: Path, desired: map<string, Item>, n: string, env: Env)
    requires !StopsAt(s, dir, desired, n, env) && Tree(s.disk)
    ensures AfterAt(s, dir, desired, n, env).1.Some? ==> IsDirectory(s.disk, dir)
    ensures dir + [n] in s.disk && s.disk[dir + [n]].isDir && !RemovesAt(s, dir, desired, n, env) ==>
              AfterAt(s, dir, desired, n, env).1.Some? && AfterAt(s, dir, desired, n, env).1.value.isDir
  {
    hide Preserves;
    assert Parent(dir + [n]) == dir;
  }

  /** A successful refresh, or the part of one that has been done, leaves a tree. */
  lemma WhenTree(s: State, dir: Path, desired: map<string, Item>, env: Env, done: set<string>, q: Path)
    requires Tree(s.disk) && forall n :: n in done ==> !StopsAt(s, dir, desired, n, env)
    requires NodeWhen(s, dir, desired, env, done, q).Some?
    ensures q != []
    ensures Parent(q) != [] ==> NodeWhen(s, dir, desired, env, done, Parent(q)).Some?
                                && NodeWhen(s, dir, desired, env, done, Parent(q)).value.isDir
  {
    hide After, Stops;
    if !(dir < q) {
      OutsideParent(dir, q);
    } else {
      var n := q[|dir|];
      BelowName(dir, q);
      if n in done {
        NameTree(s, dir, desired, n, env);
      }
      if |q| > |dir| + 1 {
        AboveInTree(s.disk, dir + [n], q);
        NamePath(dir, n, Parent(q));
      }
    }
  }

  /** What a failed removal leaves of a tree is a tree. */
  lemma HalfTree(disk: Disk, p: Path, survives: Path -> bool, q: Path)
    requires Tree(disk) && q in HalfTaken(disk, p, survives) && p < q && p != []
    ensures Parent(q) in HalfTaken(disk, p, survives) && disk[Parent(q)].isDir
  {
    assert p == q[..|p|] && p <= Parent(q) < q;
    assert Parent(q) in disk && disk[Parent(q)].isDir;
    var z :| z in disk && q <= z && survives(z);
    PrefixTransitive(Parent(q), q, z);
  }

  lemma StoppedTree(s: State, dir: Path, desired: map<string, Item>, env: Env, done: set<string>, b: string, q: Path)
    requires Tree(s.disk) && b !in done && forall n :: n in done ==> !StopsAt(s, dir, desired, n, env)
    requires NodeStopped(s, dir, desired, env, done, b, q).Some?
    ensures q != []
    ensures Parent(q) != [] ==> NodeStopped(s, dir, desired, env, done, b, Parent(q)).Some?
                                && NodeStopped(s, dir, desired, env, done, b, Parent(q)).value.isDir
  {
    hide After, Stops, NodeWhen, FailsInTree, Tree, HalfTaken;
    var p := dir + [b];
    NamePath(dir, b, q);
    if p <= q && FailsInTree(s, dir, desired, b, env) {
      BelowName(dir, q);
      if q == p {
        StoppedAtDir(s, dir, desired, env, done, b);
      } else {
        HalfTree(s.disk, p, env.survives, q);
        HalfKeeps(s.disk, p, env.survives, Parent(q));
      }
    } else {
      WhenTree(s, dir, desired, env, done, q);
      if p <= Parent(q) {
        PrefixTransitive(p, Parent(q), q);
      }
    }
  }

  lemma HalfKeeps(disk: Disk, p: Path, survives: Path -> bool, q: Path)
    ensures q in HalfTaken(disk, p, survives) ==> q in disk && HalfTaken(disk, p, survives)[q] == disk[q]
  {
  }

  /** The directory itself is untouched, and it is there if the name is. */
  lemma StoppedAtDir(s: State, dir: Path, desired: map<string, Item>, env: Env, done: set<string>, b: string)
    requires Tree(s.disk) && FailsInTree(s, dir, desired, b, env)
    ensures NodeStopped(s, dir, desired, env, done, b, dir) == Get(s.disk, dir) && IsDirectory(s.disk, dir)
  {
    NamePath(dir, b, dir);
    assert Parent(dir + [b]) == dir;
    hide After;
    assert NodeWhen(s, dir, desired, env, done, dir) == Get(s.disk, dir);
  }

  lemma TreeKept(s: State, t: State, dir: Path, items: seq<Item>, env: Env, ok: bool)
    requires Refreshes(s, t, dir, items, env, ok) && Tree(s.disk)
    ensures Tree(t.disk)
  {
    hide After, Stops, NodeAfter, NodeStopped;
    var desired := Desired(items);
    if ok {
      forall q | q in t.disk
        ensures q != [] && IsDirectory(t.disk, Parent(q))
      {
        AfterTree(s, dir, desired, env, q);
      }
    } else {
      var done, b :| StoppedAt(s, t, dir, desired, env, done, b);
      forall q | q in t.disk
        ensures q != [] && IsDirectory(t.disk, Parent(q))
      {
        StoppedTree(s, dir, desired, env, done, b, q);
      }
    }
  }

  lemma AfterTree(s: State, dir: Path, desired: map<string, Item>, env: Env, q: Path)
    requires Tree(s.disk) && forall n :: !StopsAt(s, dir, desired, n, env)
    requires NodeAfter(s, dir, desired, env, q).Some?
    ensures q != []
    ensures Parent(q) != [] ==> NodeAfter(s, dir, desired, env, Parent(q)).Some?
                                && NodeAfter(s, dir, desired, env, Parent(q)).value.isDir
  {
    hide After, Stops, NodeAfter;
    var done := if dir < q then {q[|dir|]} else {};
    SameWhen(s, dir, desired, env, done, q);
    SameWhen(s, dir, desired, env, done, Parent(q)) by {
      if dir < Parent(q) {
        assert Parent(q)[|dir|] == q[|dir|];
        assert dir == Parent(q)[..|dir|] == q[..|dir|];
      }
    }
    WhenTree(s, dir, desired, env, done, q);
  }

  lemma SameWhen(s: State, dir: Path, desired: map<string, Item>, env: Env, done: set<string>, q: Path)
    requires dir < q ==> q[|dir|] in done
    ensures NodeWhen(s, dir, desired, env, done, q) == NodeAfter(s, dir, desired, env, q)
  {
  }

  // ---------------------------------------------------------------- what is not owned

  /** The paths the refresh may change: the recorded names of the directory that local state does not preserve. */
  predicate Owned(s: State, dir: Path, desired: map<string, Item>, env: Env, q: Path) {
    dir < q && |q| == |dir| + 1
    && q[|dir|] in Previous(s, dir) && !Preserved(At(s, dir, q[|dir|]), Get(desired, q[|dir|]), q, env)
  }

  /** A recorded, unlisted, unpreserved name stands strictly above the path. */
  ghost predicate UnderRemoved(s: State, dir: Path, desired: map<string, Item>, env: Env, q: Path) {
    exists n :: RemovesAt(s, dir, desired, n, env) && dir + [n] < q
  }

  lemma UnderRemovedAt(s: State, dir: Path, desired: map<string, Item>, env: Env, q: Path)
    ensures UnderRemoved(s, dir, desired, env, q) <==>
              dir < q && |q| > |dir| + 1 && RemovesAt(s, dir, desired, q[|dir|], env)
  {
    hide Removes;
    if n :| RemovesAt(s, dir, desired, n, env) && dir + [n] < q {
      NamePath(dir, n, q);
    }
    if dir < q && |q| > |dir| + 1 {
      BelowName(dir, q);
    }
  }

  /** In a tree such a name is a directory on disk, so it takes everything below it. */
  lemma RemovedTakesTree(s: State, dir: Path, desired: map<string, Item>, env: Env, q: Path)
    requires Tree(s.disk) && q in s.disk && dir < q && |q| > |dir| + 1
    requires RemovesAt(s, dir, desired, q[|dir|], env)
    ensures IsDirectory(s.disk, dir + [q[|dir|]]) && TakesTree(At(s, dir, q[|dir|]))
  {
    BelowName(dir, q);
    AboveInTree(s.disk, dir + [q[|dir|]], q);
  }

  lemma NotOwnedAfter(s: State, dir: Path, desired: map<string, Item>, env: Env, q: Path)
    requires Tree(s.disk) && q in s.disk && !Owned(s, dir, desired, env, q)
    ensures NodeAfter(s, dir, desired, env, q)
         == if UnderRemoved(s, dir, desired, env, q) then None else Get(s.disk, q)
  {
    hide Preserves;
    UnderRemovedAt(s, dir, desired, env, q);
    if dir < q {
      BelowName(dir, q);
      if |q| > |dir| + 1 && RemovesAt(s, dir, desired, q[|dir|], env) {
        RemovedTakesTree(s, dir, desired, env, q);
      }
    }
  }

  /** After a successful refresh what the mount does not own at a path, be it preserved, untracked or elsewhere, keeps
      its file exactly when no recorded, unlisted, unpreserved name stands strictly above it; such a name is a
      directory on disk. */
  lemma NotOwnedKeptIff(s: State, t: State, dir: Path, items: seq<Item>, env: Env, q: Path)
    requires Refreshes(s, t, dir, items, env, true) && Tree(s.disk)
    requires q in s.disk && !Owned(s, dir, Desired(items), env, q)
    ensures Get(t.disk, q) == Get(s.disk, q) <==> !UnderRemoved(s, dir, Desired(items), env, q)
    ensures UnderRemoved(s, dir, Desired(items), env, q) ==>
              q !in t.disk && dir < q && IsDirectory(s.disk, dir + [q[|dir|]])
  {
    hide NodeAfter, Stops, After, RemovesAt;
    var desired := Desired(items);
    assert Get(t.disk, q) == NodeAfter(s, dir, desired, env, q);
    NotOwnedAfter(s, dir, desired, env, q);
    UnderRemovedAt(s, dir, desired, env, q);
    if UnderRemoved(s, dir, desired, env, q) {
      RemovedTakesTree(s, dir, desired, env, q);
    }
  }

  /** A failed refresh leaves each path as it was or as a successful one would have left it. */
  lemma FailedEach(s: State, t: State, dir: Path, items: seq<Item>, env: Env, q: Path)
    requires Refreshes(s, t, dir, items, env, false)
    ensures Get(t.disk, q) == Get(s.disk, q) || Get(t.disk, q) == NodeAfter(s, dir, Desired(items), env, q)
  {
    hide Stops, After;
    var desired := Desired(items);
    var done, b :| StoppedAt(s, t, dir, desired, env, done, b);
    assert Get(t.disk, q) == NodeStopped(s, dir, desired, env, done, b, q);
    if dir + [b] <= q && FailsInTree(s, dir, desired, b, env) {
      NamePath(dir, b, q);
      RemovedNode(s, dir, desired, b, env);
    }
  }

  lemma RemovedNode(s: State, dir: Path, desired: map<string, Item>, n: string, env: Env)
    requires RemovesAt(s, dir, desired, n, env)
    ensures AfterAt(s, dir, desired, n, env) == (None, None)
  {
  }

  /** So of what the mount does not own it may have taken what is under a name to be removed, and nothing else. */
  lemma FailedTakes(s: State, t: State, dir: Path, items: seq<Item>, env: Env, q: Path)
    requires Refreshes(s, t, dir, items, env, false) && Tree(s.disk)
    requires q in s.disk && !Owned(s, dir, Desired(items), env, q)
    ensures Get(t.disk, q) == Get(s.disk, q) || (q !in t.disk && UnderRemoved(s, dir, Desired(items), env, q))
  {
    hide NodeAfter, Refreshes, UnderRemoved;
    FailedEach(s, t, dir, items, env, q);
    NotOwnedAfter(s, dir, Desired(items), env, q);
  }

  // ---------------------------------------------------------------- exactly what a successful refresh does

  /** It removes exactly the recorded, unlisted, unpreserved names with everything below them, and adds exactly the
      listed names that nothing preserves, that are not on disk, and that are not recorded at their listed version. */
  lemma SuccessExact(s: State, t: State, dir: Path, items: seq<Item>, env: Env, q: Path)
    requires Refreshes(s, t, dir, items, env, true) && Tree(s.disk)
    ensures var desired := Desired(items);
            && (q in s.disk && q !in t.disk <==>
                  q in s.disk && exists n :: RemovesAt(s, dir, desired, n, env) && dir + [n] <= q)
            && (q in t.disk && q !in s.disk <==>
                  q !in s.disk && dir < q && |q| == |dir| + 1 && Adds(s, dir, desired, env, q[|dir|]))
            && (q in t.disk && q !in s.disk ==> t.disk[q] == Fresh(desired[q[|dir|]]))
  {
    hide NodeAfter, AfterAt, StopsAt, RemovesAt, Adds;
    var desired := Desired(items);
    assert Get(t.disk, q) == NodeAfter(s, dir, desired, env, q);
    if n :| RemovesAt(s, dir, desired, n, env) && dir + [n] <= q {
      NamePath(dir, n, q);
    }
    if dir < q {
      BelowName(dir, q);
      assert !StopsAt(s, dir, desired, q[|dir|], env);
      if |q| == |dir| + 1 {
        NameExact(s, dir, desired, env, q[|dir|]);
      } else {
        BelowExact(s, dir, desired, env, q);
      }
    } else {
      Outside(s, dir, desired, env, q);
    }
  }

  /** Of one name. */
  lemma NameExact(s: State, dir: Path, desired: map<string, Item>, env: Env, n: string)
    requires !StopsAt(s, dir, desired, n, env)
    ensures var p := dir + [n]; var after := NodeAfter(s, dir, desired, env, p);
            && (p in s.disk ==> (after.None? <==> RemovesAt(s, dir, desired, n, env)))
            && (p !in s.disk ==> after == if Adds(s, dir, desired, env, n) then Some(Fresh(desired[n])) else None)
  {
    hide Preserves;
    NamePath(dir, n, dir + [n]);
  }

  /** Of what lies below one. */
  lemma BelowExact(s: State, dir: Path, desired: map<string, Item>, env: Env, q: Path)
    requires Tree(s.disk) && dir < q && |q| > |dir| + 1
    ensures NodeAfter(s, dir, desired, env, q)
         == if RemovesAt(s, dir, desired, q[|dir|], env) then None else Get(s.disk, q)
  {
    hide Removes;
    if q in s.disk && RemovesAt(s, dir, desired, q[|dir|], env) {
      RemovedTakesTree(s, dir, desired, env, q);
    }
  }

  lemma Outside(s: State, dir: Path, desired: map<string, Item>, env: Env, q: Path)
    requires !(dir < q)
    ensures NodeAfter(s, dir, desired, env, q) == Get(s.disk, q)
  {
  }

  predicate Adds(s: State, dir: Path, desired: map<string, Item>, env: Env, n: string) {
    n in desired && !Preserves(env.owners, dir + [n], desired[n].isDir)
    && !(n in Previous(s, dir) && SameVersion(Previous(s, dir)[n], desired[n]))
  }

  /** It records exactly the listed names it owns and the preserved ones it had, each at its listed or old version; and
      of these exactly the ones are on disk that were there, or that it has added. */
  lemma RecordedExact(s: State, t: State, dir: Path, items: seq<Item>, env: Env, n: string)
    requires Refreshes(s, t, dir, items, env, true)
    ensures dir in t.projected
    ensures var desired, previous, next := Desired(items), Previous(s, dir), t.projected[dir];
            var preserved := Preserved(At(s, dir, n), Get(desired, n), dir + [n], env);
            && (n in next <==> if n in previous then n in desired || preserved
                               else n in desired && !preserved && dir + [n] !in s.disk)
            && (n in next ==> Get(next, n) == Get(desired, n) || Get(next, n) == Get(previous, n))
            && (n in next ==>
                  (dir + [n] in t.disk <==> dir + [n] in s.disk || Adds(s, dir, desired, env, n)))
  {
    hide Preserves, Stops;
    var desired, p := Desired(items), dir + [n];
    NamePath(dir, n, p);
    assert Get(t.disk, p) == NodeAfter(s, dir, desired, env, p);
    assert Get(t.projected[dir], n) == AfterAt(s, dir, desired, n, env).0;
  }

  // ---------------------------------------------------------------- name by name

  /** Two items are of one version when they differ in nothing but their names. */
  lemma SameVersionIff(a: Item, b: Item)
    ensures SameVersion(a, b) <==> a == b.(name := a.name)
  {
  }

  /** A local owner, of the path or above it, or an upload that waits for it or below it, keeps a refresh away. */
  lemma PreservedIff(o: Owners, p: Path, isDir: bool)
    requires p != []
    ensures Preserves(o, p, isDir) <==>
              || p in o.tombstones || p in o.entries
              || (exists n :: 0 < n < |p| && p[..n] in o.tombstones && o.tombstones[p[..n]])
              || ([] in o.tombstones && o.tombstones[[]])
              || (if isDir then exists q :: q in o.pending && p < q else p in o.pending)
  {
    if k :| k in o.tombstones && o.tombstones[k] && k < p {
      assert p[..|k|] == k;
    }
    assert [] < p;
  }

  /** What a successful refresh has done about a name that it owns: recorded is the listed version, and the placeholder on
      disk is of it, exactly when the file system has made the update; a refused one leaves the old version in both. */
  lemma UpdateExact(s: State, t: State, dir: Path, items: seq<Item>, env: Env, n: string)
    requires Refreshes(s, t, dir, items, env, true)
    requires n in Desired(items) && n in Previous(s, dir) && dir + [n] in s.disk
    requires !Preserves(env.owners, dir + [n], Desired(items)[n].isDir)
    requires !SameVersion(Previous(s, dir)[n], Desired(items)[n])
    ensures var p, item, was := dir + [n], Desired(items)[n], Previous(s, dir)[n];
            && dir in t.projected && n in t.projected[dir] && p in t.disk && !env.update(p).UpdateFails?
            && (env.update(p).Updated? <==> t.projected[dir][n] == item)
            && (env.update(p).Updated? <==> t.disk[p] == s.disk[p].(kind := Placeholder(item)) && t.projected[dir][n] != was)
            && (!env.update(p).Updated? ==> t.projected[dir][n] == was && t.disk[p] == s.disk[p])
  {
    hide Preserves;
    var p := dir + [n];
    NamePath(dir, n, p);
    assert !StopsAt(s, dir, Desired(items), n, env);
    assert Get(t.disk, p) == NodeAfter(s, dir, Desired(items), env, p);
    assert Get(t.projected[dir], n) == AfterAt(s, dir, Desired(items), n, env).0;
  }

  /** So an update that was refused is tried again by the next refresh, and made when the file system allows it. */
  lemma RefusedTriedAgain(s: State, t: State, u: State, dir: Path, items: seq<Item>, env: Env, env': Env, n: string)
    requires Refreshes(s, t, dir, items, env, true) && Refreshes(t, u, dir, items, env', true)
    requires n in Desired(items) && n in Previous(s, dir) && dir + [n] in s.disk
    requires !Preserves(env.owners, dir + [n], Desired(items)[n].isDir)
    requires !Preserves(env'.owners, dir + [n], Desired(items)[n].isDir)
    requires !SameVersion(Previous(s, dir)[n], Desired(items)[n])
    requires env.update(dir + [n]).NotUpdated? && env'.update(dir + [n]).Updated?
    ensures var p, item := dir + [n], Desired(items)[n];
            && dir in u.projected && n in u.projected[dir] && u.projected[dir][n] == item
            && p in u.disk && u.disk[p] == s.disk[p].(kind := Placeholder(item))
  {
    hide Refreshes, Preserves;
    UpdateExact(s, t, dir, items, env, n);
    UpdateExact(t, u, dir, items, env', n);
  }

  /** What it has done about any other listed name. Preserved, it is as it was. Not there, and not recorded at the listed
      version, it has got a placeholder of the listed item and is recorded; but what stands at an unrecorded name is left
      alone and not recorded. One that is recorded at the listed version is recorded anew, and left as it is on disk. */
  lemma ListedExact(s: State, t: State, dir: Path, items: seq<Item>, env: Env, n: string)
    requires Refreshes(s, t, dir, items, env, true) && n in Desired(items)
    ensures dir in t.projected
    ensures var p, item, known := dir + [n], Desired(items)[n], n in Previous(s, dir);
            var same := known && SameVersion(Previous(s, dir)[n], item);
            var recorded, node := Get(t.projected[dir], n), Get(t.disk, p);
            if Preserves(env.owners, p, item.isDir) then
              recorded == Get(Previous(s, dir), n) && node == Get(s.disk, p)
            else
              && (p !in s.disk && !same ==> recorded == Some(item) && node == Some(Fresh(item)))
              && (p in s.disk && !known ==> recorded == None && node == Get(s.disk, p))
              && (same ==> recorded == Some(item) && node == Get(s.disk, p))
  {
    hide Preserves, Stops;
    var p := dir + [n];
    NamePath(dir, n, p);
    assert Get(t.disk, p) == NodeAfter(s, dir, Desired(items), env, p);
    assert Get(t.projected[dir], n) == AfterAt(s, dir, Desired(items), n, env).0;
  }

  /** A recorded name that is listed no longer is forgotten, and gone from disk, exactly when nothing preserves it; else
      it is as it was. */
  lemma UnlistedExact(s: State, t: State, dir: Path, items: seq<Item>, env: Env, n: string)
    requires Refreshes(s, t, dir, items, env, true) && n !in Desired(items) && n in Previous(s, dir)
    ensures dir in t.projected
    ensures var p := dir + [n];
            if Preserves(env.owners, p, Previous(s, dir)[n].isDir) then
              Get(t.projected[dir], n) == Some(Previous(s, dir)[n]) && Get(t.disk, p) == Get(s.disk, p)
            else n !in t.projected[dir] && p !in t.disk
  {
    hide Preserves, Stops;
    var p := dir + [n];
    NamePath(dir, n, p);
    assert Get(t.disk, p) == NodeAfter(s, dir, Desired(items), env, p);
    assert Get(t.projected[dir], n) == AfterAt(s, dir, Desired(items), n, env).0;
  }

  /** A refresh that has succeeded has been refused nothing it asked for: what it removed is within the root and could be
      looked at and removed, what it made could be looked at and made, in a directory that is there, and no update
      failed. */
  lemma SuccessNeeds(s: State, t: State, dir: Path, items: seq<Item>, env: Env, n: string)
    requires Refreshes(s, t, dir, items, env, true) && !Preserves(env.owners, dir + [n], true)
    requires !Preserves(env.owners, dir + [n], false)
    ensures var p, before, now := dir + [n], Get(s.disk, dir + [n]), Get(t.disk, dir + [n]);
            && (before.Some? && now.None? ==> env.withinRoot(p) && !env.statFails(p) && !env.removeFails(p))
            && (before.None? && now.Some? ==> IsDirectory(s.disk, dir) && !env.statFails(p) && !env.createFails(p))
            && (before.Some? && now.Some? && before != now ==> !env.statFails(p) && env.update(p).Updated?)
            && (n in Previous(s, dir) && n !in Desired(items) ==> env.withinRoot(p) && !env.statFails(p))
  {
    hide Preserves;
    var p := dir + [n];
    NamePath(dir, n, p);
    assert !StopsAt(s, dir, Desired(items), n, env);
    assert Get(t.disk, p) == NodeAfter(s, dir, Desired(items), env, p);
  }

  /** It succeeds exactly when each call it makes does: for an owned, listed name that is not recorded at the listed version
      the look at it, the making if it is not there, and the update if it is there and recorded; for a recorded, unlisted,
      unpreserved name the test that it is within the root, the look, and the removal if it is there. */
  lemma SucceedsIff(s: State, t: State, dir: Path, items: seq<Item>, env: Env, ok: bool)
    requires Refreshes(s, t, dir, items, env, ok)
    ensures ok <==> AllSucceed(s, dir, Desired(items), env)
  {
    hide Preserves, StopsAt, CallsSucceed, StoppedAt, NodeAfter;
    var desired := Desired(items);
    if ok {
      forall n
        ensures CallsSucceed(s, dir, desired, env, n)
      {
        CallsIff(s, dir, desired, env, n);
        assert !StopsAt(s, dir, desired, n, env);
      }
    } else {
      var n :| StopsAt(s, dir, desired, n, env);
      CallsIff(s, dir, desired, env, n);
    }
  }

  lemma CallsIff(s: State, dir: Path, desired: map<string, Item>, env: Env, n: string)
    ensures CallsSucceed(s, dir, desired, env, n) <==> !StopsAt(s, dir, desired, n, env)
  {
    hide Preserves;
  }

  ghost predicate AllSucceed(s: State, dir: Path, desired: map<string, Item>, env: Env) {
    forall n :: CallsSucceed(s, dir, desired, env, n)
  }

  predicate CallsSucceed(s: State, dir: Path, desired: map<string, Item>, env: Env, n: string) {
    var p := dir + [n];
    && (n in desired && !Preserves(env.owners, p, desired[n].isDir)
        && !(n in Previous(s, dir) && SameVersion(Previous(s, dir)[n], desired[n])) ==>
          && !env.statFails(p)
          && (p !in s.disk ==> !env.createFails(p) && IsDirectory(s.disk, dir))
          && (p in s.disk && n in Previous(s, dir) ==> !env.update(p).UpdateFails?))
    && (n !in desired && n in Previous(s, dir) && !Preserves(env.owners, p, Previous(s, dir)[n].isDir) ==>
          env.withinRoot(p) && !env.statFails(p) && (p in s.disk ==> !env.removeFails(p)))
  }

  /** What escapes the root, or cannot be looked at, keeps its file with all that is below it, whatever becomes of the
      refresh. */
  lemma EscapeUntouched(s: State, t: State, dir: Path, items: seq<Item>, env: Env, ok: bool, n: string, q: Path)
    requires Refreshes(s, t, dir, items, env, ok) && n !in Desired(items) && dir + [n] <= q
    requires !env.withinRoot(dir + [n]) || env.statFails(dir + [n])
    ensures Get(t.disk, q) == Get(s.disk, q)
  {
    hide Preserves;
    var desired := Desired(items);
    NamePath(dir, n, q);
    if ok {
      assert !StopsAt(s, dir, desired, n, env);
      assert Get(t.disk, q) == NodeAfter(s, dir, desired, env, q);
    } else {
      var done, b :| StoppedAt(s, t, dir, desired, env, done, b);
      assert Get(t.disk, q) == NodeStopped(s, dir, desired, env, done, b, q);
      NamePath(dir, b, q);
    }
  }

  /** A plain file whose removal fails is still there. */
  lemma RefusedFileStays(s: State, t: State, dir: Path, items: seq<Item>, env: Env, ok: bool, n: string)
    requires Refreshes(s, t, dir, items, env, ok) && n !in Desired(items) && n in Previous(s, dir)
    requires !Previous(s, dir)[n].isDir && dir + [n] in s.disk && !s.disk[dir + [n]].isDir && env.removeFails(dir + [n])
    ensures Get(t.disk, dir + [n]) == Get(s.disk, dir + [n])
  {
    hide Preserves;
    var desired, q := Desired(items), dir + [n];
    NamePath(dir, n, q);
    if ok {
      assert !StopsAt(s, dir, desired, n, env);
      assert Get(t.disk, q) == NodeAfter(s, dir, desired, env, q);
    } else {
      var done, b :| StoppedAt(s, t, dir, desired, env, done, b);
      assert Get(t.disk, q) == NodeStopped(s, dir, desired, env, done, b, q);
      NamePath(dir, b, q);
    }
  }

  /** Refreshing again with the same listing and answers changes nothing. */
  lemma RefreshIdempotent(s: State, t: State, u: State, dir: Path, items: seq<Item>, env: Env)
    requires Refreshes(s, t, dir, items, env, true) && Refreshes(t, u, dir, items, env, true)
    ensures u == t
  {
    hide Stops, After, NodeAfter, RemovesAt, TakesTree;
    var desired := Desired(items);
    DirStays(s, t, dir, items, env);
    forall n
      ensures AfterAt(t, dir, desired, n, env) == AfterAt(s, dir, desired, n, env)
    {
      TwiceAt(s, t, dir, items, env, n);
    }
    forall q
      ensures Get(u.disk, q) == Get(t.disk, q)
    {
      assert Get(t.disk, q) == NodeAfter(s, dir, desired, env, q);
      assert Get(u.disk, q) == NodeAfter(t, dir, desired, env, q);
      TwiceNode(s, t, dir, items, env, q);
    }
    SameMap(u.disk, t.disk);
    forall n
      ensures Get(u.projected[dir], n) == Get(t.projected[dir], n)
    {
      assert Get(u.projected[dir], n) == AfterAt(t, dir, desired, n, env).0;
      assert Get(t.projected[dir], n) == AfterAt(s, dir, desired, n, env).0;
    }
    SameMap(u.projected[dir], t.projected[dir]);
    forall d
      ensures Get(u.projected, d) == Get(t.projected, d)
    {
      assert d != dir ==> Get(u.projected, d) == Get(t.projected, d);
    }
    SameMap(u.projected, t.projected);
  }

  lemma SameMap<K, V>(a: map<K, V>, b: map<K, V>)
    requires forall k :: Get(a, k) == Get(b, k)
    ensures a == b
  {
    forall k
      ensures (k in a <==> k in b) && (k in a ==> a[k] == b[k])
    {
      assert Get(a, k) == Get(b, k);
    }
  }

  lemma DirStays(s: State, t: State, dir: Path, items: seq<Item>, env: Env)
    requires Refreshes(s, t, dir, items, env, true)
    ensures IsDirectory(t.disk, dir) == IsDirectory(s.disk, dir)
  {
    hide Stops, After;
    assert Get(t.disk, dir) == NodeAfter(s, dir, Desired(items), env, dir) == Get(s.disk, dir);
  }

  /** The entry that a successful refresh has left. */
  lemma EntryAfter(s: State, t: State, dir: Path, items: seq<Item>, env: Env, n: string)
    requires Refreshes(s, t, dir, items, env, true)
    ensures var (recorded, node) := AfterAt(s, dir, Desired(items), n, env);
            At(t, dir, n) == Entry(recorded, node, IsDirectory(s.disk, dir))
  {
    hide Stops, After;
    NamePath(dir, n, dir + [n]);
    DirStays(s, t, dir, items, env);
    assert Get(t.disk, dir + [n]) == NodeAfter(s, dir, Desired(items), env, dir + [n]);
    assert Get(t.projected[dir], n) == AfterAt(s, dir, Desired(items), n, env).0;
  }

  lemma TwiceAt(s: State, t: State, dir: Path, items: seq<Item>, env: Env, n: string)
    requires Refreshes(s, t, dir, items, env, true)
    ensures AfterAt(t, dir, Desired(items), n, env) == AfterAt(s, dir, Desired(items), n, env)
    ensures !RemovesAt(t, dir, Desired(items), n, env)
         || AfterAt(t, dir, Desired(items), n, env) == AfterAt(s, dir, Desired(items), n, env) == (None, None)
  {
    hide Refreshes, Preserves;
    EntryAfter(s, t, dir, items, env, n);
  }

  lemma TwiceNode(s: State, t: State, dir: Path, items: seq<Item>, env: Env, q: Path)
    requires Refreshes(s, t, dir, items, env, true)
    ensures NodeAfter(t, dir, Desired(items), env, q) == Get(t.disk, q)
  {
    assert Get(t.disk, q) == NodeAfter(s, dir, Desired(items), env, q);
    if dir < q {
      var n := q[|dir|];
      BelowName(dir, q);
      EntryAfter(s, t, dir, items, env, n);
      hide Refreshes, Preserves, Stops;
      TwiceAt(s, t, dir, items, env, n);
    }
  }

  // ---------------------------------------------------------------- over many refreshes

  /** A refresh of some directory. */
  datatype Round = Round(dir: Path, items: seq<Item>, env: Env, ok: bool)

  /** The states after each of a series of refreshes of any directories, successful or not. */
  ghost predicate Series(states: seq<State>, rounds: seq<Round>) {
    |states| == |rounds| + 1
    && forall i :: 0 <= i < |rounds| ==> Does(states[i], states[i + 1], rounds[i])
  }

  ghost predicate Does(s: State, t: State, r: Round) {
    Refreshes(s, t, r.dir, r.items, r.env, r.ok)
  }

  predicate Tracked(s: State, q: Path) {
    q != [] && q[|q| - 1] in Previous(s, Parent(q))
  }

  /** The refresh is to remove a name above the path. */
  ghost predicate TakesAbove(s: State, r: Round, q: Path) {
    UnderRemoved(s, r.dir, Desired(r.items), r.env, q)
  }

  ghost predicate StillThere(s: State, t: State, q: Path) {
    !Tracked(t, q) && Get(t.disk, q) == Get(s.disk, q)
  }

  lemma UntrackedNotOwned(s: State, dir: Path, desired: map<string, Item>, env: Env, q: Path)
    requires !Tracked(s, q)
    ensures !Owned(s, dir, desired, env, q)
  {
    if dir < q && |q| == |dir| + 1 {
      BelowName(dir, q);
    }
  }

  /** An untracked path that is on disk is not adopted. */
  lemma NotAdopted(s: State, t: State, r: Round, q: Path)
    requires Does(s, t, r) && q in s.disk && !Tracked(s, q)
    ensures !Tracked(t, q)
  {
    hide Stops, StoppedAt, NodeAfter;
    if q != [] && Parent(q) == r.dir {
      var n := q[|q| - 1];
      assert r.dir + [n] == q;
      if r.ok {
        assert Get(t.projected[r.dir], n) == AfterAt(s, r.dir, Desired(r.items), n, r.env).0;
      }
    } else if q != [] {
      assert Get(t.projected, Parent(q)) == Get(s.projected, Parent(q));
    }
  }

  lemma UntrackedOnce(s: State, t: State, r: Round, q: Path)
    requires Does(s, t, r) && Tree(s.disk) && q in s.disk && !Tracked(s, q)
    ensures Tree(t.disk)
    ensures !TakesAbove(s, r, q) ==> StillThere(s, t, q)
    ensures TakesAbove(s, r, q) && r.ok ==> q !in t.disk
  {
    hide Refreshes, Owned, UnderRemoved, Tracked;
    NotAdopted(s, t, r, q);
    UntrackedNotOwned(s, r.dir, Desired(r.items), r.env, q);
    TreeKept(s, t, r.dir, r.items, r.env, r.ok);
    if r.ok {
      NotOwnedKeptIff(s, t, r.dir, r.items, r.env, q);
    } else {
      FailedTakes(s, t, r.dir, r.items, r.env, q);
    }
  }

  lemma SeriesFront(states: seq<State>, rounds: seq<Round>, n: nat)
    requires Series(states, rounds) && n <= |rounds|
    ensures Series(states[..n + 1], rounds[..n])
  {
    hide Does;
    forall i | 0 <= i < n
      ensures Does(states[..n + 1][i], states[..n + 1][i + 1], rounds[..n][i])
    {
      assert Does(states[i], states[i + 1], rounds[i]);
    }
  }

  /** As long as no refresh is to remove a name above it, an untracked path is never adopted, changed or removed,
      however many refreshes of whatever directories run or fail. The same holds of a placeholder that a failed
      refresh has made and not recorded: no later refresh repairs it. */
  lemma {:induction false} UntrackedStays(states: seq<State>, rounds: seq<Round>, q: Path)
    requires Series(states, rounds) && Tree(states[0].disk) && q in states[0].disk && !Tracked(states[0], q)
    requires forall i :: 0 <= i < |rounds| ==> !TakesAbove(states[i], rounds[i], q)
    ensures forall i :: 0 <= i < |states| ==> StillThere(states[0], states[i], q) && Tree(states[i].disk)
    decreases |rounds|
  {
    hide Does, TakesAbove, Tree;
    if rounds == [] {
    } else {
      var last := |rounds| - 1;
      var s, t, r := states[last], states[last + 1], rounds[last];
      SeriesFront(states, rounds, last);
      assert forall i :: 0 <= i <= last ==> states[..last + 1][i] == states[i];
      UntrackedStays(states[..last + 1], rounds[..last], q);
      assert states[..last + 1][last] == s;
      UntrackedOnce(s, t, r, q);
      forall i | 0 <= i < |states|
        ensures StillThere(states[0], states[i], q) && Tree(states[i].disk)
      {
        assert i <= last ==> states[..last + 1][i] == states[i];
      }
    }
  }

  /** When all of them succeed, that condition is exact: the first refresh that is to remove a name above the path
      removes the path. */
  lemma UntrackedForeverIff(states: seq<State>, rounds: seq<Round>, q: Path)
    requires Series(states, rounds) && Tree(states[0].disk) && q in states[0].disk && !Tracked(states[0], q)
    requires forall i :: 0 <= i < |rounds| ==> rounds[i].ok
    ensures (forall i :: 0 <= i < |states| ==> StillThere(states[0], states[i], q))
       <==> forall i :: 0 <= i < |rounds| ==> !TakesAbove(states[i], rounds[i], q)
  {
    hide Does, TakesAbove, Tree;
    if i :| 0 <= i < |rounds| && TakesAbove(states[i], rounds[i], q) {
      var n := FirstTaking(states, rounds, q, i);
      SeriesFront(states, rounds, n);
      forall k | 0 <= k < n
        ensures !TakesAbove(states[..n + 1][k], rounds[..n][k], q)
      {
      }
      UntrackedStays(states[..n + 1], rounds[..n], q);
      assert states[..n + 1][n] == states[n];
      UntrackedOnce(states[n], states[n + 1], rounds[n], q);
    } else {
      UntrackedStays(states, rounds, q);
    }
  }

  lemma {:induction false} FirstTaking(states: seq<State>, rounds: seq<Round>, q: Path, i: nat) returns (n: nat)
    requires |states| == |rounds| + 1 && i < |rounds| && TakesAbove(states[i], rounds[i], q)
    ensures n <= i && TakesAbove(states[n], rounds[n], q)
    ensures forall k :: 0 <= k < n ==> !TakesAbove(states[k], rounds[k], q)
  {
    hide TakesAbove;
    if k :| 0 <= k < i && TakesAbove(states[k], rounds[k], q) {
      n := FirstTaking(states, rounds, q, k);
    } else {
      n := i;
    }
  }

  // ---------------------------------------------------------------- what a removal takes along

  /** The answers of a file system on which everything works, with these owners. */
  function Working(owners: Owners): Env {
    Env(owners, _ => false, _ => false, _ => Updated, _ => true, _ => false, _ => false)
  }

  /** A recorded name with a local file below it, in the root of the mount. */
  function WithFileBelow(d: string, x: string, item: Item, content: string): State {
    State(map[[] := map[d := item]], map[[d] := Node(true, Placeholder(item)), [d, x] := Node(false, Local(content))])
  }

  /** A local entry at the file does not keep the directory above it, nor does a pending upload of the file once the
      name was recorded as a file: the listing no longer has the name, and the refresh removes the file with it. */
  lemma RefreshTakesOwned(d: string, x: string, item: Item, content: string)
    ensures var s := WithFileBelow(d, x, item, content);
            var env := Working(OwnersBelow(d, x, item));
            && Tree(s.disk) && Preserves(env.owners, [d, x], false) && !Tracked(s, [d, x])
            && Refreshes(s, State(map[[] := map[]], map[]), [], [], env, true)
            && forall t, ok :: Refreshes(s, t, [], [], env, ok) ==> ok && [d, x] !in t.disk
  {
    hide Refreshes, NodeAfter, StopsAt, AfterAt, Preserves;
    var s := WithFileBelow(d, x, item, content);
    var env := Working(OwnersBelow(d, x, item));
    var empty := State(map[[] := map[]], map[]);
    FileBelow(d, x, item, content);
    assert Desired([]) == map[];
    forall n
      ensures !StopsAt(s, [], map[], n, env) && AfterAt(s, [], map[], n, env).0 == None
    {
      TakenName(d, x, item, content, n);
    }
    forall q
      ensures NodeAfter(s, [], map[], env, q) == None
    {
      TakenPath(d, x, item, content, q);
    }
    TakenAll(s, empty, env);
    forall t, ok | Refreshes(s, t, [], [], env, ok)
      ensures ok && [d, x] !in t.disk
    {
      OnlyThat(s, t, env, ok, [d, x]);
    }
  }

  function OwnersBelow(d: string, x: string, item: Item): Owners {
    if item.isDir then Owners(map[], {[d, x]}, {}) else Owners(map[], {}, {[d, x]})
  }

  lemma FileBelow(d: string, x: string, item: Item, content: string)
    ensures var s := WithFileBelow(d, x, item, content);
            Tree(s.disk) && Preserves(OwnersBelow(d, x, item), [d, x], false) && !Tracked(s, [d, x])
  {
    assert Parent([d, x]) == [d] && Parent([d]) == [];
  }

  lemma TakenName(d: string, x: string, item: Item, content: string, n: string)
    ensures var s := WithFileBelow(d, x, item, content); var env := Working(OwnersBelow(d, x, item));
            !StopsAt(s, [], map[], n, env) && AfterAt(s, [], map[], n, env) == (None, None)
            && (n == d ==> RemovesAt(s, [], map[], n, env) && TakesTree(At(s, [], n)))
  {
    assert [] + [n] == [n] && [n] != [d, x];
    assert n != d ==> [n][0] != [d][0];
  }

  lemma TakenPath(d: string, x: string, item: Item, content: string, q: Path)
    ensures NodeAfter(WithFileBelow(d, x, item, content), [], map[], Working(OwnersBelow(d, x, item)), q) == None
  {
    hide AfterAt, RemovesAt, TakesTree;
    if q != [] {
      TakenName(d, x, item, content, q[0]);
    }
  }

  lemma TakenAll(s: State, t: State, env: Env)
    requires s.projected.Keys == {[]} && t == State(map[[] := map[]], map[]) && Desired([]) == map[]
    requires forall n :: !StopsAt(s, [], map[], n, env) && AfterAt(s, [], map[], n, env).0 == None
    requires forall q :: NodeAfter(s, [], map[], env, q) == None
    ensures Refreshes(s, t, [], [], env, true)
  {
    hide NodeAfter, StopsAt, AfterAt;
  }

  lemma OnlyThat(s: State, t: State, env: Env, ok: bool, q: Path)
    requires Refreshes(s, t, [], [], env, ok) && Desired([]) == map[]
    requires forall n :: !StopsAt(s, [], map[], n, env)
    requires NodeAfter(s, [], map[], env, q) == None
    ensures ok && q !in t.disk
  {
    hide NodeAfter, StopsAt, AfterAt;
    assert Get(t.disk, q) == None;
  }

  /** A directory recorded in the root with two local files below it, of which the first may be gone. */
  function WithTwoBelow(d: string, x: string, y: string, item: Item, file: Node, both: bool): State {
    var disk := map[[d] := Node(true, Placeholder(item)), [d, y] := file];
    State(map[[] := map[d := item]], if both then disk[[d, x] := file] else disk)
  }

  /** And one that fails there leaves what survives, with the directory above it, and has taken the rest. */
  lemma RefreshTakesHalf(d: string, x: string, y: string, item: Item, file: Node)
    requires x != y && item.isDir && !file.isDir
    ensures var s, t := WithTwoBelow(d, x, y, item, file, true), WithTwoBelow(d, x, y, item, file, false);
            Tree(s.disk) && Refreshes(s, t, [], [], HalfFailing(d, y), false)
  {
    hide NodeStopped, StoppedAt;
    var s, t := WithTwoBelow(d, x, y, item, file, true), WithTwoBelow(d, x, y, item, file, false);
    var env := HalfFailing(d, y);
    assert Parent([d, x]) == [d] == Parent([d, y]) && Parent([d]) == [];
    assert Desired([]) == map[] && [] + [d] == [d];
    assert FailsInTree(s, [], map[], d, env) && StopsAt(s, [], map[], d, env);
    HalfStopped(d, x, y, item, file);
  }

  /** Everything works but for removals, which leave `d/y`. */
  function HalfFailing(d: string, y: string): Env {
    Working(Owners(map[], {}, {})).(removeFails := _ => true, survives := q => q == [d, y])
  }

  lemma HalfStopped(d: string, x: string, y: string, item: Item, file: Node)
    requires x != y && !file.isDir
    requires var s := WithTwoBelow(d, x, y, item, file, true);
             FailsInTree(s, [], map[], d, HalfFailing(d, y)) && StopsAt(s, [], map[], d, HalfFailing(d, y))
    ensures StoppedAt(WithTwoBelow(d, x, y, item, file, true), WithTwoBelow(d, x, y, item, file, false), [], map[],
                      HalfFailing(d, y), {}, d)
  {
    hide FailsInTree, StopsAt, HalfTaken, NodeAfter;
    var s, t := WithTwoBelow(d, x, y, item, file, true), WithTwoBelow(d, x, y, item, file, false);
    assert [d, x] != [d, y] by {
      assert [d, x][1] != [d, y][1];
    }
    HalfOfThree(d, x, y, s.disk, HalfFailing(d, y).survives);
    assert [] + [d] == [d];
    forall q
      ensures Get(t.disk, q) == NodeStopped(s, [], map[], HalfFailing(d, y), {}, d, q)
    {
      NamePath([], d, q);
    }
  }

  lemma HalfOfThree(d: string, x: string, y: string, disk: Disk, survives: Path -> bool)
    requires x != y && disk.Keys == {[d], [d, x], [d, y]}
    requires forall q :: survives(q) <==> q == [d, y]
    ensures HalfTaken(disk, [d], survives) == map[[d] := disk[[d]], [d, y] := disk[[d, y]]]
  {
    assert [d] <= [d, y] && [d, x][1] != [d, y][1] && !([d, x] <= [d, y]);
  }

  /** An unrecorded placeholder arises when one item is created and the next one's creation fails. */
  lemma OrphanArises(a: Item, b: Item, env: Env)
    requires a.name != "" && b.name != "" && a.name != b.name
    requires !Preserves(env.owners, [a.name], a.isDir) && !Preserves(env.owners, [b.name], b.isDir)
    requires !env.statFails([a.name]) && !env.createFails([a.name]) && env.createFails([b.name])
    ensures Refreshes(State(map[], map[]), State(map[], map[[a.name] := Fresh(a)]), [], [a, b], env, false)
  {
    hide Preserves;
    var s, t := State(map[], map[]), State(map[], map[[a.name] := Fresh(a)]);
    var one, two := [a], [a, b];
    var desired := Desired(two);
    assert one[..|one| - 1] == [] && two[..|two| - 1] == one;
    assert Desired(one) == map[a.name := a] && two[|two| - 1] == b;
    assert desired == map[a.name := a][b.name := b];
    assert [] + [a.name] == [a.name] && [] + [b.name] == [b.name];
    assert StopsAt(s, [], desired, b.name, env) && !StopsAt(s, [], desired, a.name, env);
    assert AfterAt(s, [], desired, a.name, env).1 == Some(Fresh(a));
    forall q
      ensures Get(t.disk, q) == NodeStopped(s, [], desired, env, {a.name}, b.name, q)
    {
      NamePath([], a.name, q);
      NamePath([], b.name, q);
    }
    assert StoppedAt(s, t, [], desired, env, {a.name}, b.name);
  }
}
