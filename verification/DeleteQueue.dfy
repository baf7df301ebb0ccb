/** The local-first delete queue of delete_queue.go: pending and running deletes, coverage and rebase. */
module DeleteQueue {
  import opened VirtualPaths
  import opened Wrappers

  // ---------------------------------------------------------------- the queue as a value

  datatype Task = Task(path: Path, isDir: bool, hard: bool, started: bool)

  /** `entries` and `running` hold task IDs, which stand for the entry pointers; `tasks` are all entries made. */
  datatype Queue = Queue(entries: map<Path, nat>, running: set<nat>, tasks: map<nat, Task>, closed: bool)

  const EMPTY := Queue(map[], {}, map[], false)

  ghost predicate WellFormed(q: Queue) {
    && (forall p :: p in q.entries ==> q.entries[p] in q.tasks && q.tasks[q.entries[p]].path == p)
    && (forall p :: p in q.entries ==> q.entries[p] !in q.running && !q.tasks[q.entries[p]].started)
    && q.running <= q.tasks.Keys
  }

  predicate CoveredByParent(q: Queue, p: Path)
    requires WellFormed(q)
  {
    exists k :: k in q.entries && q.tasks[q.entries[k]].isDir && k < p
  }

  /** Enqueue is refused when closed, below a pending directory, or on a pending delete it does not upgrade. */
  predicate Accepts(q: Queue, p: Path, isDir: bool)
    requires WellFormed(q)
  {
    !q.closed && p != [] && !CoveredByParent(q, p) && (p in q.entries ==> isDir && !q.tasks[q.entries[p]].isDir)
  }

  function WithoutDescendants(entries: map<Path, nat>, p: Path): map<Path, nat> {
    map k | k in entries && !(p < k) :: entries[k]
  }

  function Enqueued(q: Queue, id: nat, p: Path, isDir: bool, hard: bool): Queue
    requires WellFormed(q)
  {
    if !Accepts(q, p, isDir) then q
    else
      var kept := if isDir then WithoutDescendants(q.entries, p) else q.entries;
      q.(entries := kept[p := id], tasks := q.tasks[id := Task(p, isDir, hard, false)])
  }

  predicate Claimable(q: Queue, id: nat) {
    id in q.tasks && q.tasks[id].path in q.entries && q.entries[q.tasks[id].path] == id
  }

  function Claimed(q: Queue, id: nat): Queue {
    if Claimable(q, id) then q.(entries := q.entries - {q.tasks[id].path}, running := q.running + {id}) else q
  }

  function Started(q: Queue, id: nat): Queue
    requires id in q.tasks
  {
    q.(tasks := q.tasks[id := q.tasks[id].(started := true)])
  }

  function Finished(q: Queue, id: nat): Queue {
    q.(running := q.running - {id})
  }

  /** The entry map and the task memory once the first loop of a rebase is done with the keys `done`. */
  function EntriesAt(q: Queue, done: set<Path>, src: Path, dst: Path, isDir: bool): map<Path, nat> {
    var keys := q.entries.Keys;
    Rekey(q.entries, Carried(done, keys, src, dst, isDir), Dropped(done, keys, src, dst, isDir), src, dst)
  }

  function TasksAt(q: Queue, done: set<Path>, src: Path, dst: Path, isDir: bool): map<nat, Task> {
    var carried := Carried(done, q.entries.Keys, src, dst, isDir);
    map id | id in q.tasks ::
      if Claimable(q, id) && q.tasks[id].path in carried then Moved(q.tasks[id], src, dst) else q.tasks[id]
  }

  function Moved(t: Task, src: Path, dst: Path): Task
    requires src <= t.path
  {
    t.(path := Rebase(t.path, src, dst))
  }

  /** The second loop: a running entry inherits the new path until its provider call has started. */
  function RunningMoved(tasks: map<nat, Task>, running: set<nat>, src: Path, dst: Path, isDir: bool): map<nat, Task> {
    map id | id in tasks ::
      if id in running && !tasks[id].started && Matches(tasks[id].path, src, isDir)
      then Moved(tasks[id], src, dst) else tasks[id]
  }

  function Rebased(q: Queue, src: Path, dst: Path, isDir: bool): Queue {
    if src == [] || dst == [] || src == dst then q
    else q.(entries := EntriesAt(q, q.entries.Keys, src, dst, isDir),
            tasks := RunningMoved(TasksAt(q, q.entries.Keys, src, dst, isDir), q.running, src, dst, isDir))
  }

  predicate KeyReady(e: map<Path, nat>, t: map<nat, Task>, key: Path, src: Path, isDir: bool) {
    Matches(key, src, isDir) ==> key in e && e[key] in t && t[e[key]].path == key
  }

  /** The body of the first loop, for one key. */
  predicate KeyRebased(e: map<Path, nat>, t: map<nat, Task>, e': map<Path, nat>, t': map<nat, Task>,
                       key: Path, src: Path, dst: Path, isDir: bool)
  {
    if !Matches(key, src, isDir) then e' == e && t' == t
    else
      && KeyReady(e, t, key, src, isDir)
      && (if Rebase(key, src, dst) in e then e' == e - {key} && t' == t
          else e' == (e - {key})[Rebase(key, src, dst) := e[key]] && t' == t[e[key] := Moved(t[e[key]], src, dst)])
  }

  lemma SameStep(e: map<Path, nat>, t: map<nat, Task>, e1: map<Path, nat>, t1: map<nat, Task>, e2: map<Path, nat>,
                 t2: map<nat, Task>, key: Path, src: Path, dst: Path, isDir: bool)
    requires KeyRebased(e, t, e1, t1, key, src, dst, isDir) && KeyRebased(e, t, e2, t2, key, src, dst, isDir)
    ensures e1 == e2 && t1 == t2
  {
  }

  lemma RebasedKeys(q: Queue, src: Path, dst: Path, isDir: bool)
    ensures TasksAt(q, q.entries.Keys, src, dst, isDir).Keys == Rebased(q, src, dst, isDir).tasks.Keys == q.tasks.Keys
  {
  }

  lemma TasksStep(q: Queue, done: set<Path>, src: Path, dst: Path, isDir: bool, key: Path)
    requires WellFormed(q) && key in q.entries && key !in done && Matches(key, src, isDir)
    ensures var t, t' := TasksAt(q, done, src, dst, isDir), TasksAt(q, done + {key}, src, dst, isDir);
            var id := q.entries[key];
            && id in t && t[id].path == key
            && t' == if Rebase(key, src, dst) in q.entries then t else t[id := Moved(t[id], src, dst)]
  {
  }

  lemma RebaseStep(q: Queue, done: set<Path>, src: Path, dst: Path, isDir: bool, key: Path)
    requires WellFormed(q) && Apart(src, dst, isDir) && done <= q.entries.Keys && key in q.entries && key !in done
    ensures KeyRebased(EntriesAt(q, done, src, dst, isDir), TasksAt(q, done, src, dst, isDir),
                       EntriesAt(q, done + {key}, src, dst, isDir), TasksAt(q, done + {key}, src, dst, isDir),
                       key, src, dst, isDir)
    ensures KeyReady(EntriesAt(q, done, src, dst, isDir), TasksAt(q, done, src, dst, isDir), key, src, isDir)
  {
    if Matches(key, src, isDir) {
      hide Rekey, Carried, Dropped, TasksAt;
      RekeyStep(q.entries, done, src, dst, isDir, key);
      TasksStep(q, done, src, dst, isDir, key);
    } else {
      var keys := q.entries.Keys;
      assert Carried(done + {key}, keys, src, dst, isDir) == Carried(done, keys, src, dst, isDir);
      assert Dropped(done + {key}, keys, src, dst, isDir) == Dropped(done, keys, src, dst, isDir);
    }
  }

  lemma RebasedWellFormed(q: Queue, src: Path, dst: Path, isDir: bool)
    requires WellFormed(q) && Apart(src, dst, isDir)
    ensures WellFormed(Rebased(q, src, dst, isDir))
  {
    hide Rekey;
    var keys := q.entries.Keys;
    var r := Rebased(q, src, dst, isDir);
    forall p | p in r.entries
      ensures r.entries[p] in r.tasks && r.tasks[r.entries[p]].path == p
      ensures r.entries[p] !in r.running && !r.tasks[r.entries[p]].started
    {
      RekeyAt(q.entries, Carried(keys, keys, src, dst, isDir), Dropped(keys, keys, src, dst, isDir), src, dst, isDir, p);
      if Matches(p, dst, isDir) && Rebase(p, dst, src) in Carried(keys, keys, src, dst, isDir) {
        RebaseBack(p, dst, src, isDir);
      }
    }
  }

  // ---------------------------------------------------------------- refinement: a set of doomed paths

  /** The paths that pending deletes will remove. */
  ghost predicate Doomed(q: Queue, x: Path)
    requires WellFormed(q)
  {
    x in q.entries || exists k :: k in q.entries && q.tasks[q.entries[k]].isDir && k < x
  }

  lemma EnqueuedWellFormed(q: Queue, id: nat, p: Path, isDir: bool, hard: bool)
    requires WellFormed(q) && id !in q.tasks
    ensures WellFormed(Enqueued(q, id, p, isDir, hard))
  {
  }

  /** A delete is refused when the queue is closed, at the root, below a pending directory delete, and where one at least
      as wide is pending; then nothing changes. Any other one is pending afterwards, in the place of a narrower one of its
      path, and a directory takes the pending deletes below it off the queue and no others. */
  lemma EnqueueTakes(q: Queue, id: nat, p: Path, isDir: bool, hard: bool)
    requires WellFormed(q) && id !in q.tasks
    ensures var q' := Enqueued(q, id, p, isDir, hard);
            if q.closed || p == [] || (exists k :: k in q.entries && k < p && q.tasks[q.entries[k]].isDir)
               || (p in q.entries && (q.tasks[q.entries[p]].isDir || !isDir))
            then q' == q
            else
              && p in q'.entries && q'.entries[p] == id && q'.tasks == q.tasks[id := Task(p, isDir, hard, false)]
              && (forall k :: k != p ==> (k in q'.entries <==> k in q.entries && !(isDir && p < k)))
              && (forall k :: k != p && k in q'.entries ==> q'.entries[k] == q.entries[k])
              && q'.running == q.running && !q'.closed
  {
    assert CoveredByParent(q, p) <==> exists k :: k in q.entries && k < p && q.tasks[q.entries[k]].isDir by {
      if CoveredByParent(q, p) {
        var k :| k in q.entries && q.tasks[q.entries[k]].isDir && k < p;
        assert k in q.entries && k < p && q.tasks[q.entries[k]].isDir;
      }
    }
  }

  /** No pending delete is covered by another. */
  ghost predicate Uncovered(q: Queue)
    requires WellFormed(q)
  {
    forall k, j :: k in q.entries && j in q.entries && k < j ==> !q.tasks[q.entries[k]].isDir
  }

  /** So as long as nothing is renamed, no pending delete is covered by another. */
  lemma EnqueueKeepsUncovered(q: Queue, id: nat, p: Path, isDir: bool, hard: bool)
    requires WellFormed(q) && id !in q.tasks && Uncovered(q)
    ensures WellFormed(Enqueued(q, id, p, isDir, hard)) && Uncovered(Enqueued(q, id, p, isDir, hard))
  {
    hide Accepts;
    EnqueuedWellFormed(q, id, p, isDir, hard);
    EnqueueTakes(q, id, p, isDir, hard);
  }

  /** A rename to or from the root, or onto itself, rebases nothing. */
  lemma NothingRebased(q: Queue, src: Path, dst: Path, isDir: bool)
    ensures src == [] || dst == [] || src == dst ==> Rebased(q, src, dst, isDir) == q
  {
  }

  /** With parent coverage, upgrades and cancelled descendants, an enqueue dooms exactly the new path, and its
      whole subtree for a directory, and saves nothing that was doomed. */
  lemma EnqueueDooms(q: Queue, id: nat, p: Path, isDir: bool, hard: bool, x: Path)
    requires WellFormed(q) && id !in q.tasks && p != []
    ensures WellFormed(Enqueued(q, id, p, isDir, hard))
    ensures Doomed(Enqueued(q, id, p, isDir, hard), x)
       <==> Doomed(q, x) || (!q.closed && (x == p || (isDir && p < x)))
  {
    var r := Enqueued(q, id, p, isDir, hard);
    if Accepts(q, p, isDir) {
      assert p in r.entries && r.tasks[r.entries[p]].isDir == isDir;
      forall k | k in q.entries && q.tasks[q.entries[k]].isDir && k < x
        ensures Doomed(r, x)
      {
        if k !in r.entries {
          PrefixTransitive(p, k, x);
        } else {
          assert k != p && r.tasks[r.entries[k]].isDir;
        }
      }
      if x in q.entries && x !in r.entries {
        assert p < x;
      }
      forall k | k in r.entries && r.tasks[r.entries[k]].isDir && k < x
        ensures Doomed(q, x) || (isDir && p < x)
      {
      }
    } else if !q.closed {
      if CoveredByParent(q, p) {
        var k :| k in q.entries && q.tasks[q.entries[k]].isDir && k < p;
        if p < x {
          PrefixTransitive(k, p, x);
        }
      }
    }
  }

  // ---------------------------------------------------------------- the queue as the source keeps it

  /** Entries are shared between the maps, the workers and the channel, so they are kept by identity: an entry
      pointer is its task ID, and `tasks` is the memory the entries live in. */
  class DeleteQueue {
    var entries: map<Path, nat>
    var running: set<nat>
    var tasks: map<nat, Task>
    var closed: bool
    var nextTask: nat

    ghost function State(): Queue
      reads this
    {
      Queue(entries, running, tasks, closed)
    }

    ghost predicate Valid()
      reads this
    {
      WellFormed(State()) && forall id :: id in tasks ==> id < nextTask
    }

    constructor ()
      ensures Valid() && State() == EMPTY
    {
      entries, running, tasks, closed, nextTask := map[], {}, map[], false, 0;
    }

    method IsCoveredByParent(clean: Path) returns (covered: bool)
      requires Valid()
      ensures covered == CoveredByParent(State(), clean)
    {
      var todo := entries.Keys;
      while todo != {}
        invariant todo <= entries.Keys
        invariant forall k :: k in entries && k !in todo ==> !(tasks[entries[k]].isDir && k < clean)
        decreases |todo|
      {
        var key :| key in todo;
        todo := todo - {key};
        if tasks[entries[key]].isDir && key < clean {
          return true;
        }
      }
      covered := false;
    }

    method CancelDescendants(clean: Path)
      modifies this`entries
      ensures entries == WithoutDescendants(old(entries), clean)
    {
      var todo := entries.Keys;
      while todo != {}
        invariant todo <= old(entries).Keys
        invariant entries == map k | k in old(entries) && (k in todo || !(clean < k)) :: old(entries)[k]
        decreases |todo|
      {
        var key :| key in todo;
        todo := todo - {key};
        if clean < key {
          entries := entries - {key};
        }
      }
    }

    method Enqueue(clean: Path, isDir: bool, hardDelete: bool) returns (entry: Option<nat>)
      requires Valid()
      modifies this
      ensures Valid()
      ensures State() == Enqueued(old(State()), old(nextTask), clean, isDir, hardDelete)
      ensures entry == if Accepts(old(State()), clean, isDir) then Some(old(nextTask)) else None
    {
      if clean == [] {
        return None;
      }
      var covered := IsCoveredByParent(clean);
      if closed || covered {
        return None;
      }
      if clean in entries && !(isDir && !tasks[entries[clean]].isDir) {
        return None;
      }
      EnqueuedWellFormed(State(), nextTask, clean, isDir, hardDelete);
      if isDir {
        CancelDescendants(clean);
      }
      entries := entries[clean := nextTask];
      tasks := tasks[nextTask := Task(clean, isDir, hardDelete, false)];
      entry := Some(nextTask);
      nextTask := nextTask + 1;
    }

    /** A worker takes an entry from the channel and claims it, unless it was cancelled or replaced meanwhile. */
    method Claim(entry: nat) returns (ok: bool)
      requires Valid() && entry in tasks
      modifies this`entries, this`running
      ensures Valid()
      ensures ok == Claimable(old(State()), entry) && State() == Claimed(old(State()), entry)
    {
      var path := tasks[entry].path;
      if path !in entries || entries[path] != entry {
        return false;
      }
      entries := entries - {path};
      running := running + {entry};
      ok := true;
    }

    /** The part of runDelete under both locks: from here on the entry keeps its path. */
    method StartProvider(entry: nat) returns (virtualPath: Path)
      requires Valid() && entry in running
      modifies this`tasks
      ensures Valid()
      ensures State() == Started(old(State()), entry) && virtualPath == old(tasks)[entry].path
    {
      tasks := tasks[entry := tasks[entry].(started := true)];
      virtualPath := tasks[entry].path;
    }

    method Finish(entry: nat)
      requires Valid()
      modifies this`running
      ensures Valid() && State() == Finished(old(State()), entry)
    {
      running := running - {entry};
    }

    /** Rewrites the paths of the deletes below a renamed path. Under the lock that the rename holds no provider delete
        can start meanwhile. */
    method Rebase(src: Path, dst: Path, isDir: bool)
      requires Valid() && (src == [] || dst == [] || src == dst || Apart(src, dst, isDir))
      modifies this`entries, this`tasks
      ensures Valid() && State() == Rebased(old(State()), src, dst, isDir)
    {
      if src == [] || dst == [] || src == dst {
        return;
      }
      hide EntriesAt, TasksAt, RunningMoved, Apart;
      RebasedKeys(State(), src, dst, isDir);
      RebasedWellFormed(State(), src, dst, isDir);
      RebaseEntries(src, dst, isDir);
      RebaseRunning(src, dst, isDir);
    }

    method RebaseEntries(src: Path, dst: Path, isDir: bool)
      requires Valid() && Apart(src, dst, isDir)
      modifies this`entries, this`tasks
      ensures entries == EntriesAt(old(State()), old(entries.Keys), src, dst, isDir)
      ensures tasks == TasksAt(old(State()), old(entries.Keys), src, dst, isDir)
    {
      hide EntriesAt, TasksAt, KeyRebased, Claimable;
      ghost var q := State();
      ghost var done: set<Path> := {};
      var todo := entries.Keys;
      NothingDone(q, src, dst, isDir);
      while todo != {}
        invariant done !! todo && done + todo == q.entries.Keys
        invariant entries == EntriesAt(q, done, src, dst, isDir) && tasks == TasksAt(q, done, src, dst, isDir)
        decreases |todo|
      {
        var key :| key in todo;
        ghost var e, t := entries, tasks;
        RebaseStep(q, done, src, dst, isDir, key);
        RebaseKey(key, src, dst, isDir);
        SameStep(e, t, entries, tasks, EntriesAt(q, done + {key}, src, dst, isDir),
                 TasksAt(q, done + {key}, src, dst, isDir), key, src, dst, isDir);
        todo, done := todo - {key}, done + {key};
      }
      assert done == q.entries.Keys;
    }

    method RebaseKey(key: Path, src: Path, dst: Path, isDir: bool)
      requires KeyReady(entries, tasks, key, src, isDir)
      modifies this`entries, this`tasks
      ensures KeyRebased(old(entries), old(tasks), entries, tasks, key, src, dst, isDir)
    {
      if Matches(key, src, isDir) {
        var next, entry := VirtualPaths.Rebase(key, src, dst), entries[key];
        if next in entries {
          entries := entries - {key};
        } else {
          entries := (entries - {key})[next := entry];
          tasks := tasks[entry := Moved(tasks[entry], src, dst)];
        }
      }
    }

    method RebaseRunning(src: Path, dst: Path, isDir: bool)
      requires running <= tasks.Keys
      modifies this`tasks
      ensures tasks == RunningMoved(old(tasks), running, src, dst, isDir)
    {
      var todo := running;
      while todo != {}
        invariant todo <= running
        invariant tasks == RunningMoved(old(tasks), running - todo, src, dst, isDir)
        decreases |todo|
      {
        var id :| id in todo;
        if !tasks[id].started && Matches(tasks[id].path, src, isDir) {
          tasks := tasks[id := Moved(tasks[id], src, dst)];
        }
        todo := todo - {id};
      }
      assert running - todo == running;
    }
  }

  lemma NothingDone(q: Queue, src: Path, dst: Path, isDir: bool)
    ensures EntriesAt(q, {}, src, dst, isDir) == q.entries
    ensures TasksAt(q, {}, src, dst, isDir) == q.tasks
  {
  }
}
