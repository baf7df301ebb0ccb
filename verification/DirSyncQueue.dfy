/** The directory-create queue of dir_sync_queue.go: coalesced creates, rebased and fenced by renames. */
module DirSyncQueue {
  import opened VirtualPaths
  import opened Wrappers

  // ---------------------------------------------------------------- the queue as a value

  datatype Entry = Entry(path: Path, running: bool, canceled: bool, done: bool)

  /** `entries` holds entry IDs, which stand for the entry pointers; `memory` is every entry made so far. */
  datatype Queue = Queue(entries: map<Path, nat>, memory: map<nat, Entry>, closed: bool)

  const EMPTY := Queue(map[], map[], false)

  predicate Live(q: Queue, id: nat) {
    id in q.memory && q.memory[id].path in q.entries && q.entries[q.memory[id].path] == id
  }

  /** Each key is its entry's path, no cancelled or finished entry is in the map, and every entry that is not in
      the map is finished. */
  ghost predicate WellFormed(q: Queue) {
    && (forall p :: p in q.entries ==> Keyed(q, p))
    && (forall id :: id in q.memory ==> Live(q, id) || (q.memory[id].done && !q.memory[id].running))
  }

  predicate Keyed(q: Queue, p: Path)
    requires p in q.entries
  {
    var id := q.entries[p];
    id in q.memory && q.memory[id].path == p && !q.memory[id].canceled && !q.memory[id].done
  }

  predicate Accepts(q: Queue, p: Path) {
    p != [] && !q.closed && p !in q.entries
  }

  function Enqueued(q: Queue, id: nat, p: Path): Queue {
    if Accepts(q, p) then q.(entries := q.entries[p := id], memory := q.memory[id := Entry(p, false, false, false)])
    else q
  }

  function Marked(q: Queue, id: nat): Queue
    requires id in q.memory
  {
    q.(memory := q.memory[id := q.memory[id].(running := true)])
  }

  /** The dispatcher's look at an entry: a cancelled one is not started. */
  function Dispatched(q: Queue, id: nat): (Queue, bool)
    requires id in q.memory
  {
    if q.memory[id].canceled then (q, false) else (Marked(q, id), true)
  }

  function WithoutEntry(entries: map<Path, nat>, id: nat): map<Path, nat> {
    map k | k in entries && entries[k] != id :: entries[k]
  }

  function Finished(q: Queue, id: nat): Queue
    requires id in q.memory
  {
    Queue(WithoutEntry(q.entries, id), q.memory[id := q.memory[id].(running := false, done := true)], q.closed)
  }

  predicate Waiting(q: Queue, k: Path) {
    k in q.entries && q.entries[k] in q.memory && !q.memory[q.entries[k]].running
  }

  function WaitingOf(q: Queue, done: set<Path>): set<Path> {
    set k | k in done && Waiting(q, k)
  }

  /** The entry map, the entries and the fence once the loop of rebaseAndFence is done with the keys `done`. */
  function EntriesAt(q: Queue, done: set<Path>, src: Path, dst: Path, isDir: bool): map<Path, nat> {
    var keys, w := q.entries.Keys, WaitingOf(q, done);
    Rekey(q.entries, Carried(w, keys, src, dst, isDir), Dropped(w, keys, src, dst, isDir), src, dst)
  }

  function MemoryAt(q: Queue, done: set<Path>, src: Path, dst: Path, isDir: bool): map<nat, Entry> {
    map id | id in q.memory ::
      if Live(q, id) && q.memory[id].path in done then
        EntryAfter(q.memory[id], q.entries.Keys, src, dst, isDir)
      else q.memory[id]
  }

  function EntryAfter(e: Entry, keys: set<Path>, src: Path, dst: Path, isDir: bool): Entry {
    if e.running || !Matches(e.path, src, isDir) then e
    else if Rebase(e.path, src, dst) in keys then e.(canceled := true, done := true)
    else e.(path := Rebase(e.path, src, dst))
  }

  function FenceAt(q: Queue, done: set<Path>, src: Path, dst: Path, isDir: bool): set<nat> {
    set k, id | k in done && id in Fencing(q.entries, q.memory, k, src, dst, isDir) :: id
  }

  /** What the key `k` adds to the barrier: its own entry unless that is cancelled, and an entry at its target. */
  function Fencing(e: map<Path, nat>, m: map<nat, Entry>, k: Path, src: Path, dst: Path, isDir: bool): set<nat> {
    if !Matches(k, src, isDir) || k !in e then {}
    else
      var target := Rebase(k, src, dst);
      if target !in e || e[target] == e[k] then {e[k]}
      else if e[k] in m && m[e[k]].running then {e[k], e[target]}
      else {e[target]}
  }

  function Fenced(q: Queue, src: Path, dst: Path, isDir: bool): Queue {
    if src == [] || dst == [] then q
    else q.(entries := EntriesAt(q, q.entries.Keys, src, dst, isDir),
            memory := MemoryAt(q, q.entries.Keys, src, dst, isDir))
  }

  /** The barrier of a rename: what the loop collects, and a create already waiting or running at the target. */
  function Fence(q: Queue, src: Path, dst: Path, isDir: bool): set<nat> {
    if src == [] || dst == [] then {}
    else
      var e := EntriesAt(q, q.entries.Keys, src, dst, isDir);
      FenceAt(q, q.entries.Keys, src, dst, isDir) + if dst in e then {e[dst]} else {}
  }

  /** Whether the fence has rebased or merged a waiting create. */
  function Recreates(q: Queue, done: set<Path>, src: Path, isDir: bool): bool {
    exists k :: k in done && Waiting(q, k) && Matches(k, src, isDir)
  }

  // ---------------------------------------------------------------- one key of the loop

  predicate KeyReady(e: map<Path, nat>, m: map<nat, Entry>, k: Path, src: Path, isDir: bool) {
    Matches(k, src, isDir) ==> k in e && e[k] in m && m[e[k]].path == k && !m[e[k]].canceled
  }

  predicate Taken(e: map<Path, nat>, k: Path, src: Path, dst: Path)
    requires src <= k && k in e
  {
    Rebase(k, src, dst) in e && e[Rebase(k, src, dst)] != e[k]
  }

  function EntriesStep(e: map<Path, nat>, m: map<nat, Entry>, k: Path, src: Path, dst: Path, isDir: bool): map<Path, nat>
    requires KeyReady(e, m, k, src, isDir)
  {
    if !Matches(k, src, isDir) || m[e[k]].running then e
    else if Taken(e, k, src, dst) then WithoutEntry(e, e[k])
    else (e - {k})[Rebase(k, src, dst) := e[k]]
  }

  function MemoryStep(e: map<Path, nat>, m: map<nat, Entry>, k: Path, src: Path, dst: Path, isDir: bool): map<nat, Entry>
    requires KeyReady(e, m, k, src, isDir)
  {
    if !Matches(k, src, isDir) || m[e[k]].running then m
    else if Taken(e, k, src, dst) then m[e[k] := m[e[k]].(canceled := true, done := true)]
    else m[e[k] := m[e[k]].(path := Rebase(k, src, dst))]
  }

  /** Every ID in the map during the loop is the one its key, or its source key, had at the start. */
  lemma EntryComesFrom(q: Queue, done: set<Path>, src: Path, dst: Path, isDir: bool, t: Path)
    requires WellFormed(q) && Apart(src, dst, isDir) && done <= q.entries.Keys
    requires t in EntriesAt(q, done, src, dst, isDir)
    ensures var id := EntriesAt(q, done, src, dst, isDir)[t];
            id in q.memory && Live(q, id) && var k := q.memory[id].path;
            if t == k then !(k in WaitingOf(q, done) && Matches(k, src, isDir))
            else Waiting(q, k) && k in done && Matches(k, src, isDir) && t == Rebase(k, src, dst) && t !in q.entries
  {
    hide Rekey;
    var keys, w := q.entries.Keys, WaitingOf(q, done);
    RekeyAt(q.entries, Carried(w, keys, src, dst, isDir), Dropped(w, keys, src, dst, isDir), src, dst, isDir, t);
    if Matches(t, dst, isDir) && Rebase(t, dst, src) in Carried(w, keys, src, dst, isDir) {
      RebaseBack(t, dst, src, isDir);
    }
    assert t in q.entries ==> Keyed(q, t);
    assert RebaseIfBelow(t, dst, src) in q.entries ==> Keyed(q, RebaseIfBelow(t, dst, src));
  }

  /** Where the loop stands when it reaches the key `k`: the map, the entry and the target are as at the start. */
  lemma KeyUntouched(q: Queue, done: set<Path>, src: Path, dst: Path, isDir: bool, k: Path)
    requires WellFormed(q) && Apart(src, dst, isDir) && done <= q.entries.Keys && k in q.entries && k !in done
    ensures var e, m := EntriesAt(q, done, src, dst, isDir), MemoryAt(q, done, src, dst, isDir);
            && KeyReady(e, m, k, src, isDir)
            && Fencing(e, m, k, src, dst, isDir) == Fencing(q.entries, q.memory, k, src, dst, isDir)
            && (Matches(k, src, isDir) ==>
                  && e[k] == q.entries[k] && m[e[k]] == q.memory[e[k]] && (Waiting(q, k) <==> !m[e[k]].running)
                  && (Taken(e, k, src, dst) <==> Rebase(k, src, dst) in q.entries))
  {
    hide Rekey;
    if Matches(k, src, isDir) {
      var w := WaitingOf(q, done);
      RebaseInverse(k, src, dst, isDir);
      RekeyStep(q.entries, w, src, dst, isDir, k);
      assert Keyed(q, k);
      assert Rebase(k, src, dst) in q.entries ==> Keyed(q, Rebase(k, src, dst));
    }
  }

  lemma EntriesStepIs(q: Queue, done: set<Path>, src: Path, dst: Path, isDir: bool, k: Path)
    requires WellFormed(q) && Apart(src, dst, isDir) && done <= q.entries.Keys && k in q.entries && k !in done
    requires KeyReady(EntriesAt(q, done, src, dst, isDir), MemoryAt(q, done, src, dst, isDir), k, src, isDir)
    ensures EntriesStep(EntriesAt(q, done, src, dst, isDir), MemoryAt(q, done, src, dst, isDir), k, src, dst, isDir)
         == EntriesAt(q, done + {k}, src, dst, isDir)
  {
    hide Rekey;
    KeyUntouched(q, done, src, dst, isDir, k);
    var keys, w, e := q.entries.Keys, WaitingOf(q, done), EntriesAt(q, done, src, dst, isDir);
    if Matches(k, src, isDir) && Waiting(q, k) {
      assert WaitingOf(q, done + {k}) == w + {k};
      RekeyStep(q.entries, w, src, dst, isDir, k);
      forall t | t in e && e[t] == e[k]
        ensures t == k
      {
        EntryComesFrom(q, done, src, dst, isDir, t);
        EntryComesFrom(q, done, src, dst, isDir, k);
      }
      assert WithoutEntry(e, e[k]) == e - {k};
    } else {
      assert Carried(WaitingOf(q, done + {k}), keys, src, dst, isDir) == Carried(w, keys, src, dst, isDir);
      assert Dropped(WaitingOf(q, done + {k}), keys, src, dst, isDir) == Dropped(w, keys, src, dst, isDir);
    }
  }

  lemma MemoryStepIs(q: Queue, done: set<Path>, src: Path, dst: Path, isDir: bool, k: Path)
    requires WellFormed(q) && Apart(src, dst, isDir) && done <= q.entries.Keys && k in q.entries && k !in done
    requires KeyReady(EntriesAt(q, done, src, dst, isDir), MemoryAt(q, done, src, dst, isDir), k, src, isDir)
    ensures MemoryStep(EntriesAt(q, done, src, dst, isDir), MemoryAt(q, done, src, dst, isDir), k, src, dst, isDir)
         == MemoryAt(q, done + {k}, src, dst, isDir)
  {
    hide EntriesAt;
    KeyUntouched(q, done, src, dst, isDir, k);
    assert Keyed(q, k);
  }

  lemma FenceStepIs(q: Queue, done: set<Path>, src: Path, dst: Path, isDir: bool, k: Path)
    ensures FenceAt(q, done + {k}, src, dst, isDir)
         == FenceAt(q, done, src, dst, isDir) + Fencing(q.entries, q.memory, k, src, dst, isDir)
    ensures Recreates(q, done + {k}, src, isDir)
       <==> Recreates(q, done, src, isDir) || (Waiting(q, k) && Matches(k, src, isDir))
  {
    hide Fencing;
  }

  lemma NothingDone(q: Queue, src: Path, dst: Path, isDir: bool)
    ensures EntriesAt(q, {}, src, dst, isDir) == q.entries && MemoryAt(q, {}, src, dst, isDir) == q.memory
    ensures FenceAt(q, {}, src, dst, isDir) == {} && !Recreates(q, {}, src, isDir)
  {
    assert WaitingOf(q, {}) == {};
  }

  // ---------------------------------------------------------------- what the fence guarantees

  lemma FencedWellFormed(q: Queue, src: Path, dst: Path, isDir: bool)
    requires WellFormed(q) && Apart(src, dst, isDir)
    ensures WellFormed(Fenced(q, src, dst, isDir))
  {
    if src != [] && dst != [] {
      var r := Fenced(q, src, dst, isDir);
      forall p | p in r.entries
        ensures Keyed(r, p)
      {
        EntryComesFrom(q, q.entries.Keys, src, dst, isDir, p);
        assert Keyed(q, q.memory[r.entries[p]].path);
      }
      forall id | id in q.memory && !Live(r, id)
        ensures r.memory[id].done && !r.memory[id].running
      {
        if Live(q, id) {
          LiveAfter(q, src, dst, isDir, id);
        }
      }
    }
  }

  /** A live entry keeps its place, or is carried to its target, or is cancelled because the target is taken. */
  lemma LiveAfter(q: Queue, src: Path, dst: Path, isDir: bool, id: nat)
    requires WellFormed(q) && Apart(src, dst, isDir) && Live(q, id) && src != [] && dst != []
    ensures var r, k := Fenced(q, src, dst, isDir), q.memory[id].path;
            if Waiting(q, k) && Matches(k, src, isDir) then
              var t := Rebase(k, src, dst);
              if t in q.entries then t in r.entries && r.entries[t] == q.entries[t] && r.memory[id].done
              else t in r.entries && r.entries[t] == id && r.memory[id].path == t
            else k in r.entries && r.entries[k] == id && r.memory[id] == q.memory[id]
  {
    hide Rekey;
    var keys, k := q.entries.Keys, q.memory[id].path;
    var w := WaitingOf(q, keys);
    var t := if Matches(k, src, isDir) then Rebase(k, src, dst) else k;
    RekeyAt(q.entries, Carried(w, keys, src, dst, isDir), Dropped(w, keys, src, dst, isDir), src, dst, isDir, k);
    RekeyAt(q.entries, Carried(w, keys, src, dst, isDir), Dropped(w, keys, src, dst, isDir), src, dst, isDir, t);
    if Matches(k, src, isDir) {
      RebaseInverse(k, src, dst, isDir);
    }
    if Matches(k, dst, isDir) {
      RebaseBack(k, dst, src, isDir);
    }
  }

  /** The rename fence is complete. What is still keyed at or below the source is running and in the barrier;
      each matched create, or the create it merged into, is in the barrier; the rest is untouched. */
  lemma FenceComplete(q: Queue, src: Path, dst: Path, isDir: bool, k: Path)
    requires WellFormed(q) && Apart(src, dst, isDir) && src != [] && dst != []
    ensures var r, b := Fenced(q, src, dst, isDir), Fence(q, src, dst, isDir);
            && (k in r.entries && Matches(k, src, isDir) ==>
                  k in q.entries && r.entries[k] == q.entries[k] && r.entries[k] in b && r.memory[r.entries[k]].running)
            && (k in q.entries && Matches(k, src, isDir) ==>
                  var t := Rebase(k, src, dst);
                  if !Waiting(q, k) then q.entries[k] in b && (t in q.entries ==> q.entries[t] in b)
                  else if t !in q.entries then q.entries[k] in b && t in r.entries && r.entries[t] == q.entries[k]
                  else q.entries[t] in b && r.memory[q.entries[k]].done)
            && (k in q.entries && !Matches(k, src, isDir) ==>
                  k in r.entries && r.entries[k] == q.entries[k] && r.memory[q.entries[k]] == q.memory[q.entries[k]])
            && (dst in r.entries ==> r.entries[dst] in b)
  {
    var keys := q.entries.Keys;
    if k in q.entries {
      assert Keyed(q, k);
      LiveAfter(q, src, dst, isDir, q.entries[k]);
      if Matches(k, src, isDir) {
        InFence(q, src, dst, isDir, k);
        assert Rebase(k, src, dst) in q.entries ==> Keyed(q, Rebase(k, src, dst));
      }
    }
    var r := Fenced(q, src, dst, isDir);
    if k in r.entries {
      EntryComesFrom(q, keys, src, dst, isDir, k);
      if Matches(k, src, isDir) && k !in q.entries {
        RebaseInverse(q.memory[r.entries[k]].path, src, dst, isDir);
      }
    }
  }

  lemma InFence(q: Queue, src: Path, dst: Path, isDir: bool, k: Path)
    requires k in q.entries && src != [] && dst != []
    ensures Fencing(q.entries, q.memory, k, src, dst, isDir) <= Fence(q, src, dst, isDir)
  {
  }

  /** The barrier holds nothing else: every entry in it matched the source, or sat at a target. */
  lemma FenceMinimal(q: Queue, src: Path, dst: Path, isDir: bool, id: nat)
    requires WellFormed(q) && Apart(src, dst, isDir) && id in Fence(q, src, dst, isDir)
    ensures id in q.memory && Live(q, id)
    ensures Matches(q.memory[id].path, src, isDir) || Matches(q.memory[id].path, dst, isDir)
  {
    hide Rekey;
    var keys := q.entries.Keys;
    var e := EntriesAt(q, keys, src, dst, isDir);
    if dst in e && id == e[dst] {
      EntryComesFrom(q, keys, src, dst, isDir, dst);
    } else {
      var k :| k in keys && id in Fencing(q.entries, q.memory, k, src, dst, isDir);
      assert Keyed(q, k);
      RebaseInverse(k, src, dst, isDir);
      assert Rebase(k, src, dst) in q.entries ==> Keyed(q, Rebase(k, src, dst));
    }
  }

  /** The waiting paths afterwards are exactly the old ones with the rename applied, except where a waiting create
      has merged into one that is already running at the target. */
  lemma WaitingPathsRenamed(q: Queue, src: Path, dst: Path, isDir: bool, p: Path)
    requires WellFormed(q) && Apart(src, dst, isDir) && src != [] && dst != []
    ensures var r := Fenced(q, src, dst, isDir);
            Waiting(r, p) <==> (exists k :: Waiting(q, k) && Renamed(k, src, dst, isDir) == p)
                               && (p in q.entries ==> Waiting(q, p))
  {
    var r := Fenced(q, src, dst, isDir);
    if Waiting(r, p) {
      EntryComesFrom(q, q.entries.Keys, src, dst, isDir, p);
      var k := q.memory[r.entries[p]].path;
      assert Keyed(q, k);
      assert Waiting(q, k) && Renamed(k, src, dst, isDir) == p;
    }
    if p in q.entries ==> Waiting(q, p) {
      forall k | Waiting(q, k) && Renamed(k, src, dst, isDir) == p
        ensures Waiting(r, p)
      {
        assert Keyed(q, k);
        LiveAfter(q, src, dst, isDir, q.entries[k]);
        if p in q.entries && p != k {
          assert Keyed(q, p);
          RebaseInverse(k, src, dst, isDir);
          LiveAfter(q, src, dst, isDir, q.entries[p]);
        }
      }
    }
  }

  // ---------------------------------------------------------------- the queue as the source keeps it

  datatype Barrier = Barrier(entries: seq<nat>, rebasedCreate: bool)

  /** The barrier lists the set `fence`, each entry once. */
  ghost predicate Lists(entries: seq<nat>, fence: set<nat>) {
    && (forall id :: id in entries <==> id in fence)
    && forall i, j :: 0 <= i < j < |entries| ==> entries[i] != entries[j]
  }

  class DirSyncQueue {
    var entries: map<Path, nat>
    var memory: map<nat, Entry>
    var closed: bool
    var nextEntry: nat

    ghost function State(): Queue
      reads this
    {
      Queue(entries, memory, closed)
    }

    ghost predicate Valid()
      reads this
    {
      WellFormed(State()) && forall id :: id in memory ==> id < nextEntry
    }

    constructor ()
      ensures Valid() && State() == EMPTY
    {
      entries, memory, closed, nextEntry := map[], map[], false, 0;
    }

    method Enqueue(clean: Path) returns (sent: Option<nat>)
      requires Valid()
      modifies this
      ensures Valid() && State() == Enqueued(old(State()), old(nextEntry), clean)
      ensures sent == if clean != [] && !old(closed) && clean !in old(entries) then Some(old(nextEntry)) else None
      ensures clean != [] && !old(closed) ==> clean in entries && Live(State(), entries[clean])
    {
      EnqueueTakes(State(), nextEntry, clean);
      if clean == [] || closed || clean in entries {
        return None;
      }
      EnqueuedWellFormed(State(), nextEntry, clean);
      entries := entries[clean := nextEntry];
      memory := memory[nextEntry := Entry(clean, false, false, false)];
      sent := Some(nextEntry);
      nextEntry := nextEntry + 1;
    }

    /** The locked part of the dispatcher: a cancelled entry is not started. */
    method Mark(id: nat) returns (ok: bool)
      requires Valid() && id in memory && (memory[id].canceled || Live(State(), id))
      modifies this`memory
      ensures Valid()
      ensures (State(), ok) == Dispatched(old(State()), id)
    {
      if memory[id].canceled {
        return false;
      }
      MarkedWellFormed(State(), id);
      memory := memory[id := memory[id].(running := true)];
      ok := true;
    }

    method RemoveEntry(id: nat)
      modifies this`entries
      ensures entries == WithoutEntry(old(entries), id)
    {
      var todo := entries.Keys;
      while todo != {}
        invariant todo <= old(entries).Keys
        invariant entries == map k | k in old(entries) && (k in todo || old(entries)[k] != id) :: old(entries)[k]
        decreases |todo|
      {
        var path :| path in todo;
        todo := todo - {path};
        if entries[path] == id {
          entries := entries - {path};
        }
      }
    }

    method CancelLocked(id: nat)
      requires id in memory && !memory[id].canceled
      modifies this`entries, this`memory
      ensures entries == WithoutEntry(old(entries), id)
      ensures memory == old(memory)[id := old(memory)[id].(canceled := true,
                                                           done := old(memory)[id].done || !old(memory)[id].running)]
    {
      memory := memory[id := memory[id].(canceled := true)];
      RemoveEntry(id);
      if !memory[id].running {
        memory := memory[id := memory[id].(done := true)];
      }
    }

    method Finish(id: nat)
      requires Valid() && id in memory
      modifies this`entries, this`memory
      ensures Valid() && State() == Finished(old(State()), id)
    {
      hide WellFormed;
      FinishedWellFormed(State(), id);
      memory := memory[id := memory[id].(running := false)];
      RemoveEntry(id);
      memory := memory[id := memory[id].(done := true)];
      assert State() == Finished(old(State()), id);
    }

    /** Moves queued creates below `src` to `dst`. A running create keeps its path and joins the barrier. */
    method RebaseAndFence(src: Path, dst: Path, isDir: bool) returns (barrier: Barrier)
      requires Valid() && (src != [] && dst != [] ==> Apart(src, dst, isDir))
      modifies this`entries, this`memory
      ensures Valid() && State() == Fenced(old(State()), src, dst, isDir)
      ensures Lists(barrier.entries, Fence(old(State()), src, dst, isDir))
      ensures barrier.rebasedCreate
         <==> src != [] && dst != [] && Recreates(old(State()), old(entries.Keys), src, isDir)
      ensures src == [] || dst == [] ==> barrier == Barrier([], false) && State() == old(State())
    {
      barrier := Barrier([], false);
      if src == [] || dst == [] {
        return;
      }
      hide EntriesAt, MemoryAt, FenceAt, Recreates, Apart, WellFormed;
      ghost var q := State();
      FencedWellFormed(q, src, dst, isDir);
      FencedMemory(q, src, dst, isDir);
      barrier := FenceKeys(src, dst, isDir);
      ghost var fence := FenceAt(q, q.entries.Keys, src, dst, isDir);
      if dst in entries {
        barrier := AddOnce(barrier, entries[dst]);
        assert Lists(barrier.entries, fence + {entries[dst]});
      } else {
        assert fence + {} == fence;
      }
    }

    method FenceKeys(src: Path, dst: Path, isDir: bool) returns (barrier: Barrier)
      requires Valid() && Apart(src, dst, isDir)
      modifies this`entries, this`memory
      ensures entries == EntriesAt(old(State()), old(entries.Keys), src, dst, isDir)
      ensures memory == MemoryAt(old(State()), old(entries.Keys), src, dst, isDir)
      ensures Lists(barrier.entries, FenceAt(old(State()), old(entries.Keys), src, dst, isDir))
      ensures barrier.rebasedCreate <==> Recreates(old(State()), old(entries.Keys), src, isDir)
    {
      hide EntriesAt, MemoryAt, FenceAt, Recreates, Fencing, EntriesStep, MemoryStep, KeyReady, WellFormed, Lists;
      ghost var q := State();
      ghost var done: set<Path> := {};
      barrier := Barrier([], false);
      var todo := entries.Keys;
      NothingDone(q, src, dst, isDir);
      ListsNothing();
      while todo != {}
        invariant done !! todo && done + todo == q.entries.Keys
        invariant entries == EntriesAt(q, done, src, dst, isDir) && memory == MemoryAt(q, done, src, dst, isDir)
        invariant Lists(barrier.entries, FenceAt(q, done, src, dst, isDir))
        invariant barrier.rebasedCreate <==> Recreates(q, done, src, isDir)
        decreases |todo|
      {
        var path :| path in todo;
        KeyUntouched(q, done, src, dst, isDir, path);
        EntriesStepIs(q, done, src, dst, isDir, path);
        MemoryStepIs(q, done, src, dst, isDir, path);
        FenceStepIs(q, done, src, dst, isDir, path);
        barrier := FenceKey(path, src, dst, isDir, barrier);
        todo, done := todo - {path}, done + {path};
      }
      assert done == q.entries.Keys;
    }

    method FenceKey(path: Path, src: Path, dst: Path, isDir: bool, before: Barrier) returns (barrier: Barrier)
      requires KeyReady(entries, memory, path, src, isDir)
      modifies this`entries, this`memory
      ensures entries == EntriesStep(old(entries), old(memory), path, src, dst, isDir)
      ensures memory == MemoryStep(old(entries), old(memory), path, src, dst, isDir)
      ensures forall fence :: Lists(before.entries, fence) ==>
                Lists(barrier.entries, fence + Fencing(old(entries), old(memory), path, src, dst, isDir))
      ensures barrier.rebasedCreate
         <==> before.rebasedCreate || (Matches(path, src, isDir) && !old(memory)[old(entries)[path]].running)
    {
      barrier := before;
      if !Matches(path, src, isDir) {
        return;
      }
      var entry, target := entries[path], Rebase(path, src, dst);
      if target in entries && entries[target] != entry {
        var existing := entries[target];
        if memory[entry].running {
          barrier := AddOnce(barrier, entry);
        } else {
          CancelLocked(entry);
          barrier := barrier.(rebasedCreate := true);
        }
        barrier := AddOnce(barrier, existing);
        return;
      }
      if memory[entry].running {
        barrier := AddOnce(barrier, entry);
        return;
      }
      entries := (entries - {path})[target := entry];
      memory := memory[entry := memory[entry].(path := target)];
      barrier := AddOnce(barrier.(rebasedCreate := true), entry);
    }
  }

  lemma ListsNothing()
    ensures Lists([], {})
  {
  }

  function AddOnce(b: Barrier, id: nat): (r: Barrier)
    ensures forall fence :: Lists(b.entries, fence) ==> Lists(r.entries, fence + {id})
  {
    if id in b.entries then b else b.(entries := b.entries + [id])
  }

  lemma EnqueuedWellFormed(q: Queue, id: nat, p: Path)
    requires WellFormed(q) && id !in q.memory
    ensures WellFormed(Enqueued(q, id, p))
  {
  }

  /** An open queue takes every named create: afterwards a live entry stands for its path, the old one exactly when the
      path was a key already; and nothing else is touched. A closed queue, or the root, changes nothing. */
  lemma EnqueueTakes(q: Queue, id: nat, p: Path)
    requires WellFormed(q) && id !in q.memory
    ensures var q' := Enqueued(q, id, p);
            && (!q.closed && p != [] ==>
                  && p in q'.entries && q'.entries[p] in q'.memory
                  && (var e := q'.memory[q'.entries[p]]; e.path == p && !e.canceled && !e.done)
                  && (p in q.entries <==> q'.entries[p] != id)
                  && (p in q.entries ==> q' == q)
                  && (p !in q.entries ==> !q'.memory[id].running))
            && (q.closed || p == [] ==> q' == q)
            && (forall k :: k != p ==> (k in q'.entries <==> k in q.entries))
            && (forall k :: k != p && k in q.entries ==> q'.entries[k] == q.entries[k])
            && (forall i :: i in q.memory ==> i in q'.memory && q'.memory[i] == q.memory[i])
            && q'.closed == q.closed
  {
    if p in q.entries {
      assert Keyed(q, p);
    }
  }

  lemma MarkedWellFormed(q: Queue, id: nat)
    requires WellFormed(q) && id in q.memory && Live(q, id)
    ensures WellFormed(Marked(q, id))
  {
    assert Keyed(q, q.memory[id].path);
  }

  lemma FinishedWellFormed(q: Queue, id: nat)
    requires WellFormed(q) && id in q.memory
    ensures WellFormed(Finished(q, id))
  {
  }

  lemma FencedMemory(q: Queue, src: Path, dst: Path, isDir: bool)
    ensures Fenced(q, src, dst, isDir).memory.Keys == q.memory.Keys
  {
  }
}
